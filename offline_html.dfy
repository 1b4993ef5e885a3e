/** The list sections of the offline report's HTML (`generate_html`, lines
    345-372 of offline_telegram_summary.py): the weekly focus paragraph, the
    bullet and decision lists, and the topic cards, each with its placeholder
    when there is nothing to show. */
module OfflineHtml {
  import opened Wrappers
  import opened Text
  import opened TopicScan

  /** A paragraph without a class. */
  function Paragraph(text: string): string {
    "<p>" + (text + "</p>")
  }

  const NoFocusHtml := Paragraph("No specific focus identified for this week.")
  /** A list item without a class. */
  function PlainItem(text: string): string {
    "<li>" + (text + "</li>")
  }

  const NoBulletsHtml := PlainItem("No significant discussion points identified for this week.")
  const NoDecisionsHtml := PlainItem("No decisions were made this week.")
  const NoTopicsHtml := Paragraph("No significant topics were discussed this week.")

  const FocusOpen := "<p class='weekly-focus'>"
  const BulletClass := "bullet-point"
  const DecisionClass := "decision-item"

  // ------------------------------------------------------------ weekly focus

  /** Line 345: the focus paragraph, or the placeholder when the focus is empty. */
  function WeeklyFocusHtml(focus: string): (html: string)
    ensures html == NoFocusHtml <==> focus == ""
    ensures focus != "" ==>
      StartsWith(html, FocusOpen) && |html| == |FocusOpen| + |focus| + 4
      && html[|FocusOpen|..|FocusOpen| + |focus|] == focus
  {
    if focus != "" then
      var html := FocusOpen + (focus + "</p>");
      assert html[|FocusOpen|..|FocusOpen| + |focus|] == focus;
      assert html[2] == FocusOpen[2] == ' ';
      assert Paragraph("No specific focus identified for this week.")[2] == '>';
      html
    else NoFocusHtml
  }

  // ------------------------------------------------------------ line joining


  /** The lines, each followed by a line break: what `html += line + "\n"` builds. */
  function Lines(lines: seq<string>): string {
    if lines == [] then "" else lines[0] + "\n" + Lines(lines[1..])
  }

  lemma {:induction false} LinesSnoc(lines: seq<string>, line: string)
    ensures Lines(lines + [line]) == Lines(lines) + line + "\n"
  {
    if lines != [] {
      LinesSnoc(lines[1..], line);
      assert (lines + [line])[1..] == lines[1..] + [line];
    } else {
      assert [line][1..] == [];
    }
  }

  /** Splitting what `Lines` built gives the lines back, then the empty string
      after the last line break. */
  lemma {:induction false} LinesSplit(lines: seq<string>)
    requires forall l <- lines :: '\n' !in l
    ensures Split(Lines(lines), '\n') == lines + [""]
  {
    if lines != [] {
      var rest := Lines(lines[1..]);
      assert Lines(lines) == lines[0] + ['\n'] + rest;
      LinesSplit(lines[1..]);
      SplitLine(lines[0], '\n', rest);
      assert lines == [lines[0]] + lines[1..];
    }
  }

  // ------------------------------------------------------ bullets and decisions

  function ItemOpen(cls: string): string {
    "<li class='" + cls + "'>"
  }

  /** One list item without its line break. */
  function ItemLine(cls: string, text: string): string {
    ItemOpen(cls) + text + "</li>"
  }

  function ItemLines(cls: string, texts: seq<string>): (r: seq<string>)
    ensures |r| == |texts|
  {
    seq(|texts|, i requires 0 <= i < |texts| => ItemLine(cls, texts[i]))
  }

  /** Lines 347-352 and 354-359: each text as an item of class `cls`, or the
      placeholder when there are none. */
  method ListHtml(cls: string, texts: seq<string>, placeholder: string) returns (html: string)
    ensures html == if texts == [] then placeholder else Lines(ItemLines(cls, texts))
  {
    html := "";
    if texts != [] {
      for i := 0 to |texts|
        invariant html == Lines(ItemLines(cls, texts[..i]))
      {
        assert ItemLines(cls, texts[..i + 1]) == ItemLines(cls, texts[..i]) + [ItemLine(cls, texts[i])];
        LinesSnoc(ItemLines(cls, texts[..i]), ItemLine(cls, texts[i]));
        html := html + ItemOpen(cls) + texts[i] + "</li>\n";
      }
      assert texts[..|texts|] == texts;
    } else {
      html := placeholder;
    }
  }

  /** Reading an item line back: the text between the opening and closing tags. */
  function ItemText(cls: string, line: string): (r: Option<string>)
    ensures r.Some? ==> ItemLine(cls, r.value) == line
  {
    var open := ItemOpen(cls);
    if |open| + 5 <= |line| && StartsWith(line, open) && EndsWith(line, "</li>") then
      var text := line[|open|..|line| - 5];
      assert line == open + text + line[|line| - 5..];
      Some(text)
    else None
  }

  lemma ItemTextRoundTrip(cls: string, text: string)
    ensures ItemText(cls, ItemLine(cls, text)) == Some(text)
  {
    var open := ItemOpen(cls);
    var line := open + (text + "</li>");
    assert line[..|open|] == open && line[|open|..] == text + "</li>";
    assert line[|line| - 5..] == "</li>";
  }

  /** The list HTML gives its texts back: split into lines, each line but the
      last, empty one reads back as the text it was made from, when no text or
      class holds a line break. */
  lemma ListRoundTrip(cls: string, texts: seq<string>)
    requires '\n' !in cls && forall t <- texts :: '\n' !in t
    ensures var lines := Split(Lines(ItemLines(cls, texts)), '\n');
      && |lines| == |texts| + 1 && lines[|texts|] == ""
      && forall i :: 0 <= i < |texts| ==> ItemText(cls, lines[i]) == Some(texts[i])
  {
    var items := ItemLines(cls, texts);
    forall i | 0 <= i < |texts|
      ensures '\n' !in items[i] && ItemText(cls, items[i]) == Some(texts[i])
    {
      ItemTextRoundTrip(cls, texts[i]);
      assert items[i] == "<li class='" + cls + "'>" + texts[i] + "</li>";
    }
    LinesSplit(items);
  }

  /** A list with items never looks like either placeholder. */
  lemma ItemsNotPlaceholder(cls: string, texts: seq<string>)
    requires texts != []
    ensures Lines(ItemLines(cls, texts)) != NoBulletsHtml && Lines(ItemLines(cls, texts)) != NoDecisionsHtml
  {
    var first := ItemLines(cls, texts)[0];
    var html := Lines(ItemLines(cls, texts));
    assert first == "<li class='" + (cls + "'>" + texts[0] + "</li>");
    assert html == first + ("\n" + Lines(ItemLines(cls, texts)[1..]));
    assert html[3] == first[3] == ' ';
    assert PlainItem("No significant discussion points identified for this week.")[3] == '>';
    assert PlainItem("No decisions were made this week.")[3] == '>';
  }

  // ----------------------------------------------------------------- topics

  const CardHead := "\n            <div class=\"topic-card\">\n                <h3 class=\"topic-title\">"

  /** Lines 365-370: one topic card, indentation included. */
  function TopicCard(t: Topic): string {
    CardHead + (t.topic + CardRest(t.details))
  }

  function CardRest(details: string): string {
    "</h3>\n                <p class=\"topic-details\">" + (details + "</p>\n            </div>\n            ")
  }

  function TopicCards(ts: seq<Topic>): (r: seq<string>)
    ensures |r| == |ts|
  {
    seq(|ts|, i requires 0 <= i < |ts| => TopicCard(ts[i]))
  }

  /** Lines 363-372: a card per topic, or the placeholder when there are none. */
  method TopicsHtml(ts: seq<Topic>) returns (html: string)
    ensures html == if ts == [] then NoTopicsHtml else Concat(TopicCards(ts))
  {
    html := "";
    if ts != [] {
      for i := 0 to |ts|
        invariant html == Concat(TopicCards(ts[..i]))
      {
        assert TopicCards(ts[..i + 1]) == TopicCards(ts[..i]) + [TopicCard(ts[i])];
        ConcatSnoc(TopicCards(ts[..i]), TopicCard(ts[i]));
        html := html + TopicCard(ts[i]);
      }
      assert ts[..|ts|] == ts;
    } else {
      html := NoTopicsHtml;
    }
  }

  /** A string placed inside a part of `all` occurs in `all`. */
  lemma PartShown(all: string, part: string, k: nat, before: string, x: string, after: string)
    requires k + |part| <= |all| && all[k..k + |part|] == part
    requires part == before + (x + after)
    ensures OccursAt(all, x, k + |before|)
  {
    assert part[|before|..|before| + |x|] == x;
    assert k + |before| + |x| <= |all| && all[k + |before|..k + |before| + |x|] == x by {
      forall j | 0 <= j < |x|
        ensures all[k + |before| + j] == x[j]
      {
        assert x[j] == part[|before| + j];
        assert part[|before| + j] == all[k..k + |part|][|before| + j];
      }
    }
    OccursAtSlice(all, x, k + |before|);
  }

  /** A topic card placed in `all` shows the topic's title after the card's head. */
  lemma CardShown(all: string, k: nat, t: Topic)
    requires k + |TopicCard(t)| <= |all| && all[k..k + |TopicCard(t)|] == TopicCard(t)
    ensures OccursAt(all, t.topic, k + |CardHead|)
  {
    PartShown(all, TopicCard(t), k, CardHead, t.topic, CardRest(t.details));
  }

  /** The `i`-th card sits right after the cards before it. */
  lemma CardInCards(ts: seq<Topic>, i: nat)
    requires i < |ts|
    ensures var all, k := Concat(TopicCards(ts)), |Concat(TopicCards(ts)[..i])|;
      k + |TopicCard(ts[i])| <= |all| && all[k..k + |TopicCard(ts[i])|] == TopicCard(ts[i])
  {
    ConcatPart(TopicCards(ts), i);
  }

  /** The cards come in the order of the topics: the `i`-th topic's title sits
      in the `i`-th card, right after the cards before it. */
  lemma TopicTitleShown(ts: seq<Topic>, i: nat)
    requires i < |ts|
    ensures OccursAt(Concat(TopicCards(ts)), ts[i].topic, |Concat(TopicCards(ts)[..i])| + |CardHead|)
  {
    CardInCards(ts, i);
    CardShown(Concat(TopicCards(ts)), |Concat(TopicCards(ts)[..i])|, ts[i]);
  }
}
