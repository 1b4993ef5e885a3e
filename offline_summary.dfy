/** The offline report's reading of the model's reply (`generate_summary`, lines
    159-167 and 256-321 of offline_telegram_summary.py) and the list sections of
    its HTML (`generate_html`, lines 345-372). */
module OfflineSummary {
  import opened Wrappers
  import opened Text
  import opened OfflineProcess
  import opened TopicScan
  import opened TopicRegex

  function OpenTag(tag: string): string { "<" + tag + ">" }

  function CloseTag(tag: string): string { "</" + tag + ">" }

  /** `<tag>` starts at `k` and a `</tag>` at `j` closes it, so that
      `<tag>(.*?)</tag>` (with DOTALL) can match at `k` if nothing earlier closes it. */
  predicate Encloses(s: string, tag: string, k: nat, j: nat) {
    OccursAt(s, OpenTag(tag), k) && k + |OpenTag(tag)| <= j && OccursAt(s, CloseTag(tag), j)
  }

  /** A match of `<tag>(.*?)</tag>`: where it starts, where its group ends, where
      the match ends, and the group. */
  datatype Block = Block(start: nat, groupEnd: nat, end: nat, inner: string)

  /** `re.search(r'<tag>(.*?)</tag>', s[from..], re.DOTALL)`: the first `<tag>`,
      then the first `</tag>` after it. */
  function FindBlock(s: string, tag: string, from: nat): (r: Option<Block>)
    ensures r.Some? ==>
      var b := r.value;
      && from <= b.start && b.start + |OpenTag(tag)| <= b.groupEnd
      && b.end == b.groupEnd + |CloseTag(tag)| <= |s|
      && b.inner == s[b.start + |OpenTag(tag)|..b.groupEnd]
  {
    var open, close := OpenTag(tag), CloseTag(tag);
    match IndexOf(s, open, from)
    case None => None
    case Some(i) =>
      match IndexOf(s, close, i + |open|)
      case None => None
      case Some(j) => Some(Block(i, j, j + |close|, s[i + |open|..j]))
  }

  /** `FindBlock` is the regular-expression search: its block is the leftmost
      match, with the group as short as possible, and there is none exactly
      when nothing matches. */
  lemma FindBlockLeftmost(s: string, tag: string, from: nat)
    ensures var r := FindBlock(s, tag, from);
      && (r.Some? ==>
            && Encloses(s, tag, r.value.start, r.value.groupEnd)
            && forall j: nat :: r.value.start + |OpenTag(tag)| <= j < r.value.groupEnd ==> !OccursAt(s, CloseTag(tag), j))
      && forall k: nat, j: nat :: from <= k && (r.None? || k < r.value.start) ==> !Encloses(s, tag, k, j)
  {
    var open, close := OpenTag(tag), CloseTag(tag);
    IndexOfFirst(s, open, from);
    var i := IndexOf(s, open, from);
    if i.Some? {
      IndexOfFirst(s, close, i.value + |open|);
    }
  }

  /** `match.group(1).strip()` of the first match, if there is one. */
  function Group(s: string, tag: string): (r: Option<string>)
    ensures r.Some? <==> exists k: nat, j: nat :: Encloses(s, tag, k, j)
  {
    FindBlockLeftmost(s, tag, 0);
    var b := FindBlock(s, tag, 0);
    if b.Some? then Some(Strip(b.value.inner)) else None
  }

  /** `re.sub(r'<tag>.*?</tag>', '', s[from..], flags=re.DOTALL)`: every match,
      left to right, cut out. */
  function RemoveBlocks(s: string, tag: string, from: nat): (r: string)
    requires from <= |s|
    ensures |r| <= |s| - from
    ensures r == s[from..] <==> FindBlock(s, tag, from).None?
    decreases |s| - from
  {
    match FindBlock(s, tag, from)
    case None => s[from..]
    case Some(b) => s[from..b.start] + RemoveBlocks(s, tag, b.end)
  }

  /** The dictionary `generate_summary` returns. The no-messages result has no
      `detailed_analysis` key; `generate_html` reads it with `.get`, so it is
      the empty string here. */
  datatype Summary = Summary(
    weeklyFocus: string,
    bulletPoints: seq<string>,
    decisionsMade: seq<string>,
    topicsDiscussed: seq<Topic>,
    thinkingMode: string,
    detailedAnalysis: string)

  const NoFocus := "No specific focus identified for this week."
  const NoMessagesFocus := "No messages found in this chat during the specified time period."
  const ErrorFocus := "Error generating summary."

  /** The reply's `<thinking>` group, stripped, or "". */
  function Thinking(reply: string): string {
    Group(reply, "thinking").GetOr("")
  }

  /** The text the sections are read from: the reply with its `<thinking>`
      blocks cut out and stripped, when it has one. */
  function Body(reply: string): string {
    if FindBlock(reply, "thinking", 0).Some? then Strip(RemoveBlocks(reply, "thinking", 0)) else reply
  }

  /** A `<summary_points>` line that is a bullet: `- ` once stripped. */
  predicate IsBulletLine(line: string) {
    StartsWith(Strip(line), "- ")
  }

  /** What a bullet line contributes: the stripped line without its dash, stripped again. */
  function BulletText(line: string): string
    requires IsBulletLine(line)
  {
    Strip(Strip(line)[2..])
  }

  /** A `<decisions>` line that is listed: non-empty and `- ` once stripped. */
  predicate IsDecisionLine(line: string) {
    Strip(line) != "" && StartsWith(Strip(line), "- ")
  }

  /** The bullet texts of the `<summary_points>` lines, in order. */
  function Bullets(lines: seq<string>): (r: seq<string>)
    ensures |r| <= |lines|
  {
    if lines == [] then []
    else
      var last := lines[|lines| - 1];
      Bullets(lines[..|lines| - 1]) + (if IsBulletLine(last) then [BulletText(last)] else [])
  }

  /** The stripped decision lines of `<decisions>`, dash kept, in order. */
  function DecisionLines(lines: seq<string>): (r: seq<string>)
    ensures |r| <= |lines|
  {
    if lines == [] then []
    else
      var last := lines[|lines| - 1];
      DecisionLines(lines[..|lines| - 1]) + (if IsDecisionLine(last) then [Strip(last)] else [])
  }

  /** A decisions block that says none were made lists none. */
  predicate SaysNoDecisions(text: string) {
    Contains(text, "No formal decisions") || Contains(text, "No decisions")
  }

  function Decisions(text: string): seq<string> {
    if SaysNoDecisions(text) then [] else DecisionLines(Split(text, '\n'))
  }

  /** The `(topic, details)` pairs of the `<topics_discussed>` text. */
  function Topics(s: string): seq<Topic> {
    TopicTagsValid();
    var ms := TopicMatches(s, TopicTags, 0);
    seq(|ms|, i requires 0 <= i < |ms| => TopicOf(s, TopicTags, ms[i]))
  }

  /** What `generate_summary` extracts from a reply (lines 262-312). */
  function ParseReply(reply: string): Summary {
    var thinking := Thinking(reply);
    var body := Body(reply);
    Summary(
      Group(body, "weekly_focus").GetOr(NoFocus),
      match Group(body, "summary_points") case Some(t) => Bullets(Split(t, '\n')) case None => [],
      match Group(body, "decisions") case Some(t) => Decisions(t) case None => [],
      match Group(body, "topics_discussed") case Some(t) => Topics(t) case None => [],
      thinking,
      Group(thinking, "detailed_analysis").GetOr(""))
  }

  /** The `<summary_points>` loop (lines 278-285). */
  method BulletPoints(text: string) returns (points: seq<string>)
    ensures points == Bullets(Split(text, '\n'))
  {
    var lines := Split(text, '\n');
    points := [];
    var i := 0;
    while i < |lines|
      invariant 0 <= i <= |lines|
      invariant points == Bullets(lines[..i])
    {
      assert lines[..i + 1][..i] == lines[..i];
      var line := Strip(lines[i]);
      if StartsWith(line, "- ") {
        var cleanedPoint := Strip(line[2..]);
        points := points + [cleanedPoint];
      }
      i := i + 1;
    }
    assert lines[..|lines|] == lines;
  }

  /** The `<decisions>` loop (lines 288-295). */
  method DecisionsMade(text: string) returns (decisions: seq<string>)
    ensures decisions == Decisions(text)
  {
    decisions := [];
    if !SaysNoDecisions(text) {
      var lines := Split(text, '\n');
      var i := 0;
      while i < |lines|
        invariant 0 <= i <= |lines|
        invariant decisions == DecisionLines(lines[..i])
      {
        assert lines[..i + 1][..i] == lines[..i];
        var line := Strip(lines[i]);
        if line != "" && StartsWith(line, "- ") {
          decisions := decisions + [line];
        }
        i := i + 1;
      }
      assert lines[..|lines|] == lines;
    }
  }

  /** The loop over the `finditer` matches of `<topics_discussed>` (lines 298-308). */
  method TopicsDiscussed(text: string) returns (topics: seq<Topic>)
    ensures topics == Topics(text)
  {
    TopicTagsValid();
    var matches := TopicMatches(text, TopicTags, 0);
    topics := [];
    for i := 0 to |matches|
      invariant |topics| == i
      invariant forall j :: 0 <= j < i ==> topics[j] == TopicOf(text, TopicTags, matches[j])
    {
      topics := topics + [TopicOf(text, TopicTags, matches[i])];
    }
  }

  /** `generate_summary` after the prompt is sent: `reply` is the text of the
      model's answer, or None when the call raised. */
  method GenerateSummary(messages: seq<Message>, reply: Option<string>) returns (r: Summary)
    ensures messages == [] ==> r == Summary(NoMessagesFocus, [], [], [], "", "")
    ensures messages != [] && reply.None? ==> r == Summary(ErrorFocus, [], [], [], "", "")
    ensures messages != [] && reply.Some? ==> r == ParseReply(reply.value)
  {
    if messages == [] {
      return Summary(NoMessagesFocus, [], [], [], "", "");
    }
    if reply.None? {
      return Summary(ErrorFocus, [], [], [], "", "");
    }
    var summary := reply.value;
    var thinking := "";
    var thinkingMatch := FindBlock(summary, "thinking", 0);
    if thinkingMatch.Some? {
      thinking := Strip(thinkingMatch.value.inner);
      summary := Strip(RemoveBlocks(summary, "thinking", 0));
    }
    var analysis := Group(thinking, "detailed_analysis").GetOr("");
    var focus := Group(summary, "weekly_focus").GetOr(NoFocus);
    var bullets: seq<string> := [];
    var points := Group(summary, "summary_points");
    if points.Some? {
      bullets := BulletPoints(points.value);
    }
    var decisions: seq<string> := [];
    var decisionsText := Group(summary, "decisions");
    if decisionsText.Some? {
      decisions := DecisionsMade(decisionsText.value);
    }
    var topics: seq<Topic> := [];
    var topicsText := Group(summary, "topics_discussed");
    if topicsText.Some? {
      topics := TopicsDiscussed(topicsText.value);
    }
    r := Summary(focus, bullets, decisions, topics, thinking, analysis);
  }

  // ---------------------------------------------------------------- properties

  /** The indices of the lines `keep` accepts, in increasing order. */
  ghost function Picks(lines: seq<string>, keep: string -> bool): (idx: seq<nat>)
    ensures forall j :: 0 <= j < |idx| ==> idx[j] < |lines| && keep(lines[idx[j]])
    ensures forall j, k :: 0 <= j < k < |idx| ==> idx[j] < idx[k]
    ensures forall i :: 0 <= i < |lines| && keep(lines[i]) ==> i in idx
  {
    if lines == [] then []
    else
      var init := lines[..|lines| - 1];
      var idx := Picks(init, keep);
      assert forall j :: 0 <= j < |idx| ==> lines[idx[j]] == init[idx[j]];
      idx + (if keep(lines[|lines| - 1]) then [|lines| - 1] else [])
  }

  /** `bullet_points` holds one entry per bullet line, in the order of the lines:
      the line stripped, without its dash, stripped again. */
  lemma {:induction false} BulletsPicked(lines: seq<string>)
    ensures var idx := Picks(lines, IsBulletLine);
      && |Bullets(lines)| == |idx|
      && forall j :: 0 <= j < |idx| ==> Bullets(lines)[j] == BulletText(lines[idx[j]])
  {
    if lines != [] {
      var init, last := lines[..|lines| - 1], lines[|lines| - 1];
      BulletsPicked(init);
      var idx, all := Picks(init, IsBulletLine), Picks(lines, IsBulletLine);
      assert all == idx + (if IsBulletLine(last) then [|lines| - 1] else []);
      var r, r' := Bullets(init), Bullets(lines);
      assert r' == r + (if IsBulletLine(last) then [BulletText(last)] else []);
      forall j | 0 <= j < |all|
        ensures r'[j] == BulletText(lines[all[j]])
      {
        if j < |idx| {
          assert all[j] == idx[j] && r'[j] == r[j];
          assert lines[idx[j]] == init[idx[j]];
        }
      }
    }
  }

  /** `decisions_made` holds one entry per decision line, in the order of the
      lines: the line stripped, dash kept. */
  lemma {:induction false} DecisionLinesPicked(lines: seq<string>)
    ensures var idx := Picks(lines, IsDecisionLine);
      && |DecisionLines(lines)| == |idx|
      && forall j :: 0 <= j < |idx| ==> DecisionLines(lines)[j] == Strip(lines[idx[j]])
  {
    if lines != [] {
      var init, last := lines[..|lines| - 1], lines[|lines| - 1];
      DecisionLinesPicked(init);
      var idx, all := Picks(init, IsDecisionLine), Picks(lines, IsDecisionLine);
      assert all == idx + (if IsDecisionLine(last) then [|lines| - 1] else []);
      var r, r' := DecisionLines(init), DecisionLines(lines);
      assert r' == r + (if IsDecisionLine(last) then [Strip(last)] else []);
      forall j | 0 <= j < |all|
        ensures r'[j] == Strip(lines[all[j]])
      {
        if j < |idx| {
          assert all[j] == idx[j] && r'[j] == r[j];
          assert lines[idx[j]] == init[idx[j]];
        }
      }
    }
  }

  /** Every listed decision starts with `- ` and has no surrounding whitespace. */
  lemma {:induction false} DecisionsShape(lines: seq<string>)
    ensures forall d <- DecisionLines(lines) :: StartsWith(d, "- ") && Strip(d) == d
  {
    if lines != [] {
      DecisionsShape(lines[..|lines| - 1]);
      StripIdempotent(lines[|lines| - 1]);
    }
  }

  /** A decisions block in which "No formal decisions" or "No decisions" occurs
      anywhere (here at `k`) lists nothing. */
  lemma NoDecisionsListed(text: string, k: nat)
    requires OccursAt(text, "No formal decisions", k) || OccursAt(text, "No decisions", k)
    ensures Decisions(text) == []
  {
    if OccursAt(text, "No formal decisions", k) {
      ContainsIff(text, "No formal decisions");
    } else {
      ContainsIff(text, "No decisions");
    }
  }

  /** Otherwise the decisions are the decision lines of the block. */
  lemma DecisionsListed(text: string)
    requires forall k: nat :: !OccursAt(text, "No formal decisions", k) && !OccursAt(text, "No decisions", k)
    ensures Decisions(text) == DecisionLines(Split(text, '\n'))
  {
    ContainsIff(text, "No formal decisions");
    ContainsIff(text, "No decisions");
  }

  /** Bullets come from single lines, so none holds a line break. */
  lemma {:induction false} BulletsOneLine(lines: seq<string>)
    requires forall l <- lines :: '\n' !in l
    ensures forall b <- Bullets(lines) :: '\n' !in b
  {
    if lines != [] {
      var last := lines[|lines| - 1];
      BulletsOneLine(lines[..|lines| - 1]);
      if IsBulletLine(last) {
        StripWithout(last, '\n');
        StripWithout(Strip(last)[2..], '\n');
      }
    }
  }

  /** A reply without a `<weekly_focus>` block gets the default focus sentence;
      one with a block gets the block's text, stripped. */
  lemma FocusDefault(reply: string)
    ensures (forall k: nat, j: nat :: !Encloses(Body(reply), "weekly_focus", k, j)) ==>
      ParseReply(reply).weeklyFocus == NoFocus
    ensures (exists k: nat, j: nat :: Encloses(Body(reply), "weekly_focus", k, j)) ==>
      ParseReply(reply).weeklyFocus == Strip(FindBlock(Body(reply), "weekly_focus", 0).value.inner)
  {
    FindBlockLeftmost(Body(reply), "weekly_focus", 0);
  }
}
