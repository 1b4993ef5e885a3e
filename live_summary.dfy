/** The summary formatting of the live report (telegram_chat_summary.py, lines
    202 and 207-287): the reply is split into lines, a small state machine files
    each line under "core themes", "decisions" or "general summary", and each
    section is turned into HTML line by line, with a fixed paragraph for a
    section that comes out empty. */
module LiveSummary {
  import opened Wrappers
  import opened Text
  import opened LiveWindow

  /** `current_section`; `Unset` is its initial `None`. */
  datatype Section = Unset | CoreThemes | Decisions | GeneralSummary

  // ------------------------------------------------------------ the classifier

  /** Lines 216-224: the section a header line switches to when it is read in
      section `current`, or `None` for a line that is not a header. */
  function HeaderOf(line: string, current: Section): Option<Section> {
    var lower := Lower(line);
    if Contains(lower, "core theme") || Contains(lower, "three core theme") then Some(CoreThemes)
    else if Contains(lower, "decision") && (Contains(lower, "made") || Contains(lower, "reached")) then Some(Decisions)
    else if Contains(lower, "general summary") || (Contains(lower, "summary") && current in {CoreThemes, Decisions}) then
      Some(GeneralSummary)
    else None
  }

  /** The section in force after reading `lines`. */
  function SectionAfter(lines: seq<string>): Section {
    if lines == [] then Unset
    else
      var current := SectionAfter(lines[..|lines| - 1]);
      match HeaderOf(lines[|lines| - 1], current)
      case Some(s) => s
      case None => current
  }

  /** Lines 228-236: the list a content line read in `current` goes to; a line
      read before any header goes to the general summary. */
  function Target(current: Section): Section {
    if current == Unset then GeneralSummary else current
  }

  /** `line`, read in section `current`, is a content line filed under `target`. */
  predicate Filed(line: string, current: Section, target: Section) {
    HeaderOf(line, current).None? && !IsBlank(line) && Target(current) == target
  }

  /** The lines of `lines` filed under `target`, in order. */
  function Routed(lines: seq<string>, target: Section): (r: seq<string>)
    ensures forall l <- r :: !IsBlank(l)
    ensures |r| <= |lines|
  {
    if lines == [] then []
    else
      var init, line := lines[..|lines| - 1], lines[|lines| - 1];
      Routed(init, target) + (if Filed(line, SectionAfter(init), target) then [line] else [])
  }

  lemma RoutedSnoc(lines: seq<string>, line: string)
    ensures SectionAfter(lines + [line]) == HeaderOf(line, SectionAfter(lines)).GetOr(SectionAfter(lines))
    ensures forall target :: (Routed(lines + [line], target) ==
      Routed(lines, target) + (if Filed(line, SectionAfter(lines), target) then [line] else []))
  {
    assert (lines + [line])[..|lines|] == lines;
  }

  /** Lines 212-236 for the lines of the reply: the three lists. */
  method ClassifyLines(lines: seq<string>) returns (themes: seq<string>, decisions: seq<string>, general: seq<string>)
    ensures themes == Routed(lines, CoreThemes)
    ensures decisions == Routed(lines, Decisions)
    ensures general == Routed(lines, GeneralSummary)
  {
    var current := Unset;
    themes, decisions, general := [], [], [];
    for i := 0 to |lines|
      invariant current == SectionAfter(lines[..i])
      invariant themes == Routed(lines[..i], CoreThemes)
      invariant decisions == Routed(lines[..i], Decisions)
      invariant general == Routed(lines[..i], GeneralSummary)
    {
      var line := lines[i];
      assert lines[..i + 1] == lines[..i] + [line];
      RoutedSnoc(lines[..i], line);
      var header := HeaderOf(line, current);
      if header.Some? {
        current := header.value;
        continue;
      }
      if !IsBlank(line) {
        if current == CoreThemes {
          themes := themes + [line];
        } else if current == Decisions {
          decisions := decisions + [line];
        } else if current == GeneralSummary {
          general := general + [line];
        } else {
          general := general + [line];
        }
      }
    }
    assert lines[..|lines|] == lines;
  }

  /** The header tests, in the order lines 216-224 run them: a "core theme" line
      always opens the themes, a "decision" line with "made" or "reached" opens
      the decisions unless it is a themes header, a "general summary" line that
      is neither opens the general summary, and a line with "summary" but not
      "general summary" is a header only while the themes or the decisions are
      being read. */
  lemma HeaderPriority(line: string, current: Section)
    ensures Contains(Lower(line), "core theme") ==> HeaderOf(line, current) == Some(CoreThemes)
    ensures !Contains(Lower(line), "core theme") && Contains(Lower(line), "decision")
      && (Contains(Lower(line), "made") || Contains(Lower(line), "reached"))
      ==> HeaderOf(line, current) == Some(Decisions)
    ensures !Contains(Lower(line), "core theme")
      && !(Contains(Lower(line), "decision") && (Contains(Lower(line), "made") || Contains(Lower(line), "reached")))
      && Contains(Lower(line), "general summary")
      ==> HeaderOf(line, current) == Some(GeneralSummary)
    ensures !Contains(Lower(line), "core theme")
      && !(Contains(Lower(line), "decision") && (Contains(Lower(line), "made") || Contains(Lower(line), "reached")))
      && !Contains(Lower(line), "general summary") && Contains(Lower(line), "summary")
      ==> (HeaderOf(line, current) == Some(GeneralSummary) <==> current in {CoreThemes, Decisions})
    ensures HeaderOf(line, current).Some? ==>
      Contains(Lower(line), "core theme") || Contains(Lower(line), "decision") || Contains(Lower(line), "summary")
  {
    RedundantHeaderTests(Lower(line));
  }

  /** Two of the header tests are implied by others: a line containing
      "three core theme" contains "core theme", so the second test of line 216
      never decides anything, and one containing "general summary" contains
      "summary". */
  lemma RedundantHeaderTests(s: string)
    ensures Contains(s, "three core theme") ==> Contains(s, "core theme")
    ensures Contains(s, "general summary") ==> Contains(s, "summary")
  {
    assert "three " + "core theme" == "three core theme";
    Shifted(s, "three ", "core theme");
    assert "general " + "summary" == "general summary";
    Shifted(s, "general ", "summary");
  }

  /** A string containing `a + b` contains `b`. */
  lemma Shifted(s: string, a: string, b: string)
    ensures Contains(s, a + b) ==> Contains(s, b)
  {
    if Contains(s, a + b) {
      ContainsIff(s, a + b);
      var k: nat :| OccursAt(s, a + b, k);
      OccursAtSlice(s, a + b, k);
      assert s[k + |a|..k + |a| + |b|] == (a + b)[|a|..] == b;
      OccursAtSlice(s, b, k + |a|);
      ContainsIff(s, b);
    }
  }

  /** Until the first header, the section stays unset. */
  lemma {:induction false} UnsetBeforeHeader(lines: seq<string>)
    requires forall i :: 0 <= i < |lines| ==> HeaderOf(lines[i], Unset).None?
    ensures SectionAfter(lines) == Unset
  {
    if lines != [] {
      UnsetBeforeHeader(lines[..|lines| - 1]);
    }
  }

  /** The non-blank lines of `lines`, in order. */
  function NonBlank(lines: seq<string>): seq<string> {
    if lines == [] then []
    else NonBlank(lines[..|lines| - 1]) + (if IsBlank(lines[|lines| - 1]) then [] else [lines[|lines| - 1]])
  }

  /** Lines 234-236: a reply without a header puts every non-blank line into the
      general summary and nothing into the other two sections. */
  lemma {:induction false} NoHeaderAllGeneral(lines: seq<string>)
    requires forall i :: 0 <= i < |lines| ==> HeaderOf(lines[i], Unset).None?
    ensures Routed(lines, GeneralSummary) == NonBlank(lines)
    ensures Routed(lines, CoreThemes) == [] && Routed(lines, Decisions) == []
  {
    if lines != [] {
      var init := lines[..|lines| - 1];
      NoHeaderAllGeneral(init);
      UnsetBeforeHeader(init);
    }
  }

  /** The lines that are neither headers nor blank where they are read. */
  function ContentLines(lines: seq<string>): nat {
    if lines == [] then 0
    else
      var init, line := lines[..|lines| - 1], lines[|lines| - 1];
      ContentLines(init) + (if HeaderOf(line, SectionAfter(init)).None? && !IsBlank(line) then 1 else 0)
  }

  /** Every content line is filed in exactly one of the three lists, and header
      and blank lines in none. */
  lemma {:induction false} RoutedPartition(lines: seq<string>)
    ensures |Routed(lines, CoreThemes)| + |Routed(lines, Decisions)| + |Routed(lines, GeneralSummary)| == ContentLines(lines)
    ensures Routed(lines, Unset) == []
  {
    if lines != [] {
      RoutedPartition(lines[..|lines| - 1]);
    }
  }

  // ------------------------------------------------------------- the formatter

  /** The opening tag of a paragraph of class `cls`. */
  function ClassOpen(cls: string): string {
    "<p class='" + (cls + "'>")
  }

  const ThemeItemOpen := ClassOpen("theme-item")
  const DecisionItemOpen := ClassOpen("decision-item")

  /** A paragraph holding `line`, closed and followed by a line break. */
  function LineParagraph(open: string, line: string): string {
    open + (line + "</p>\n")
  }

  /** The numbered items of lines 245-246. */
  predicate Numbered(t: string) {
    StartsWith(t, "1.") || StartsWith(t, "2.") || StartsWith(t, "3.")
  }

  /** The bullet items of lines 256-257. */
  predicate Bulleted(t: string) {
    StartsWith(t, "•") || StartsWith(t, "-") || StartsWith(t, "*")
  }

  /** Lines 242-244: the heading level, the length of the first word once its
      `#` characters are stripped from both ends. */
  function HeadingLevel(line: string): nat
    requires !IsBlank(line)
  {
    |StripChar(Words(line)[0], '#')|
  }

  function Heading(line: string): string
    requires !IsBlank(line)
  {
    var n := NatToString(HeadingLevel(line));
    "<h" + n + ">" + Join(Words(line)[1..], " ") + "</h" + n + ">\n"
  }

  /** Lines 240-248, 251-259 and 262-268: the HTML of one non-blank line of a section. */
  function FormatLine(section: Section, line: string): (html: string)
    requires !IsBlank(line)
    ensures html != ""
  {
    var t := Strip(line);
    if StartsWith(t, "#") then Heading(line)
    else if section == CoreThemes && Numbered(t) then LineParagraph(ThemeItemOpen, line)
    else if section == Decisions && Bulleted(t) then LineParagraph(DecisionItemOpen, line)
    else LineParagraph("<p>", line)
  }

  /** The HTML of a section's lines, blank lines skipped. */
  function SectionHtml(section: Section, lines: seq<string>): string {
    if lines == [] then ""
    else
      var line := lines[|lines| - 1];
      SectionHtml(section, lines[..|lines| - 1]) + (if IsBlank(line) then "" else FormatLine(section, line))
  }

  /** One of the loops of lines 239-268. */
  method FormatSection(section: Section, lines: seq<string>) returns (html: string)
    ensures html == SectionHtml(section, lines)
  {
    html := "";
    for i := 0 to |lines|
      invariant html == SectionHtml(section, lines[..i])
    {
      var line := lines[i];
      assert lines[..i + 1][..i] == lines[..i];
      if !IsBlank(line) {
        var t := Strip(line);
        var item;
        if StartsWith(t, "#") {
          item := Heading(line);
        } else if section == CoreThemes && Numbered(t) {
          item := LineParagraph(ThemeItemOpen, line);
        } else if section == Decisions && Bulleted(t) {
          item := LineParagraph(DecisionItemOpen, line);
        } else {
          item := LineParagraph("<p>", line);
        }
        assert item == FormatLine(section, line);
        html := html + item;
      }
    }
    assert lines[..|lines|] == lines;
  }

  /** A section's HTML is empty exactly when all of its lines are blank, which
      is when lines 271-276 put the placeholder in its place. */
  lemma {:induction false} SectionHtmlEmpty(section: Section, lines: seq<string>)
    ensures SectionHtml(section, lines) == "" <==> forall l <- lines :: IsBlank(l)
  {
    if lines != [] {
      var init := lines[..|lines| - 1];
      SectionHtmlEmpty(section, init);
      assert lines == init + [lines[|lines| - 1]];
    }
  }

  /** A `#` line whose first word is only `#` characters, such as `## Decisions`,
      gets heading level 0: `<h0>`. */
  lemma HeadingLevelZero(line: string)
    requires !IsBlank(line) && forall i :: 0 <= i < |Words(line)[0]| ==> Words(line)[0][i] == '#'
    ensures HeadingLevel(line) == 0
    ensures StartsWith(Heading(line), "<h0>")
  {
    StripCharAll(Words(line)[0], '#');
  }

  /** A `#` line becomes a heading whose level is the length of its first word
      with the `#` characters stripped, and whose text is the remaining words
      joined by single spaces. */
  lemma HeadingLine(section: Section, line: string)
    requires !IsBlank(line)
    ensures StartsWith(Strip(line), "#") ==>
      var n := NatToString(|StripChar(Words(line)[0], '#')|);
      FormatLine(section, line) == "<h" + n + ">" + Join(Words(line)[1..], " ") + "</h" + n + ">\n"
  {
  }

  /** Any other line that is neither a numbered themes line nor a bulleted
      decisions line is kept whole, surrounding whitespace included, in a plain
      paragraph. */
  lemma PlainLine(section: Section, line: string)
    requires !IsBlank(line)
    ensures !StartsWith(Strip(line), "#")
      && !(section == CoreThemes && Numbered(Strip(line)))
      && !(section == Decisions && Bulleted(Strip(line)))
      ==> FormatLine(section, line) == "<p>" + line + "</p>\n"
  {
  }

  /** The theme-item class goes exactly to the numbered, non-heading lines of
      the themes section. */
  lemma ThemeItemIff(section: Section, line: string)
    requires !IsBlank(line)
    ensures StartsWith(FormatLine(section, line), ThemeItemOpen) <==>
      section == CoreThemes && !StartsWith(Strip(line), "#") && Numbered(Strip(line))
  {
    var html := FormatLine(section, line);
    if StartsWith(Strip(line), "#") {
      assert html[1] == 'h' != ThemeItemOpen[1];
    } else if section == CoreThemes && Numbered(Strip(line)) {
    } else if section == Decisions && Bulleted(Strip(line)) {
      assert html[10] == DecisionItemOpen[10] != ThemeItemOpen[10];
    } else {
      assert html[2] == '>' != ThemeItemOpen[2];
    }
  }

  /** The decision-item class goes exactly to the bulleted, non-heading lines
      of the decisions section. */
  lemma DecisionItemIff(section: Section, line: string)
    requires !IsBlank(line)
    ensures StartsWith(FormatLine(section, line), DecisionItemOpen) <==>
      section == Decisions && !StartsWith(Strip(line), "#") && Bulleted(Strip(line))
  {
    var html := FormatLine(section, line);
    if StartsWith(Strip(line), "#") {
      assert html[1] == 'h' != DecisionItemOpen[1];
    } else if section == CoreThemes && Numbered(Strip(line)) {
      assert html[10] == ThemeItemOpen[10] != DecisionItemOpen[10];
    } else if section == Decisions && Bulleted(Strip(line)) {
    } else {
      assert html[2] == '>' != DecisionItemOpen[2];
    }
  }

  // ------------------------------------------------------ the whole summary

  function Paragraph(text: string): string {
    "<p>" + (text + "</p>")
  }

  const NoThemesHtml := Paragraph("No clear themes were identified in the conversation.")
  const NoDecisionsHtml := Paragraph("No clear decisions were identified in the conversation.")
  const NoDetailsHtml := Paragraph("No additional details were provided in the summary.")
  const NoMessagesHtml := Paragraph("No messages found in this chat during the specified time period.")

  function OrPlaceholder(html: string, placeholder: string): string {
    if html == "" then placeholder else html
  }

  /** Lines 270-278: the three sections of the reply's lines, in order, each
      replaced by its placeholder when it is empty. */
  function SummaryHtml(lines: seq<string>): string {
    OrPlaceholder(SectionHtml(CoreThemes, Routed(lines, CoreThemes)), NoThemesHtml)
      + OrPlaceholder(SectionHtml(Decisions, Routed(lines, Decisions)), NoDecisionsHtml)
      + OrPlaceholder(SectionHtml(GeneralSummary, Routed(lines, GeneralSummary)), NoDetailsHtml)
  }

  /** A section gets its placeholder exactly when no line was filed under it. */
  lemma PlaceholderWhenEmpty(lines: seq<string>, section: Section)
    ensures SectionHtml(section, Routed(lines, section)) == "" <==> Routed(lines, section) == []
  {
    var r := Routed(lines, section);
    SectionHtmlEmpty(section, r);
    if r != [] {
      assert r[0] in r;
    }
  }

  /** `formatted_summary` (lines 163-287): the formatted sections of the stripped
      reply when text messages were collected, the no-messages paragraph otherwise.
      `reply` is the reply's content, `None` when the call of line 191 raises or
      the content is `None`; then line 202 raises and the handler of line 675
      abandons the chat's report, which is the result `None`. */
  method FormattedSummary(messages: seq<Collected>, reply: Option<string>) returns (formatted: Option<string>)
    ensures messages == [] ==> formatted == Some(NoMessagesHtml)
    ensures messages != [] && reply.None? ==> formatted == None
    ensures messages != [] && reply.Some? ==> formatted == Some(SummaryHtml(Split(Strip(reply.value), '\n')))
  {
    if messages == [] {
      return Some(NoMessagesHtml);
    }
    if reply.None? {
      return None;
    }
    var summary := Strip(reply.value);
    var themesLines, decisionsLines, generalLines := ClassifyLines(Split(summary, '\n'));
    var themes := FormatSection(CoreThemes, themesLines);
    var decisions := FormatSection(Decisions, decisionsLines);
    var general := FormatSection(GeneralSummary, generalLines);
    if themes == "" {
      themes := NoThemesHtml;
    }
    if decisions == "" {
      decisions := NoDecisionsHtml;
    }
    if general == "" {
      general := NoDetailsHtml;
    }
    formatted := Some(themes + decisions + general);
  }
}
