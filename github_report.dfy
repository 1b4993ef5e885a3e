/** The pure helpers of the weekly repository report (fetch_github_data.py):
    the filter that drops pull requests from the issue list, the `#123` issue
    references of a pull request's description and the cell that links them,
    the report folder name, the date-range label and the colour of a user name. */
module GithubReport {
  import opened Wrappers
  import opened Text

  // ------------------------------------------------------------- issue filter

  /** One entry of the `issues` endpoint; `pullRequest` says whether the entry
      has a `pull_request` key, which the endpoint adds to pull requests. */
  datatype IssueEntry = IssueEntry(id: int, title: string, login: string, pullRequest: bool)

  /** Lines 40 and 75: `[issue for issue in issues if 'pull_request' not in issue]`. */
  function WithoutPullRequests(issues: seq<IssueEntry>): (r: seq<IssueEntry>)
    ensures |r| <= |issues|
  {
    if issues == [] then []
    else (if issues[0].pullRequest then [] else [issues[0]]) + WithoutPullRequests(issues[1..])
  }

  /** The filter keeps exactly the entries without a `pull_request` key. */
  lemma {:induction false} WithoutPullRequestsMembers(issues: seq<IssueEntry>, e: IssueEntry)
    ensures e in WithoutPullRequests(issues) <==> e in issues && !e.pullRequest
  {
    if issues != [] {
      WithoutPullRequestsMembers(issues[1..], e);
      assert issues == [issues[0]] + issues[1..];
    }
  }

  /** The filter works piece by piece, so it keeps the original order. */
  lemma {:induction false} WithoutPullRequestsAppend(a: seq<IssueEntry>, b: seq<IssueEntry>)
    ensures WithoutPullRequests(a + b) == WithoutPullRequests(a) + WithoutPullRequests(b)
  {
    if a != [] {
      WithoutPullRequestsAppend(a[1..], b);
      assert (a + b)[1..] == a[1..] + b;
    } else {
      assert a + b == b;
    }
  }

  /** A list with no pull request comes through unchanged. */
  lemma {:induction false} WithoutPullRequestsNone(issues: seq<IssueEntry>)
    requires forall e <- issues :: !e.pullRequest
    ensures WithoutPullRequests(issues) == issues
  {
    if issues != [] {
      WithoutPullRequestsNone(issues[1..]);
      assert issues == [issues[0]] + issues[1..];
    }
  }

  // --------------------------------------------------------- issue references

  /** Where the run of ASCII digits starting at `k` ends. */
  function DigitsEnd(s: string, k: nat): (e: nat)
    requires k <= |s|
    ensures k <= e <= |s| && AllDigits(s[k..e]) && (e == |s| || !IsDigit(s[e]))
    decreases |s| - k
  {
    if k < |s| && IsDigit(s[k]) then
      var e := DigitsEnd(s, k + 1);
      assert s[k..e] == [s[k]] + s[k + 1..e];
      e
    else k
  }

  /** A `#` at `i` immediately followed by a digit: where `#(\d+)` matches. */
  predicate HashDigit(s: string, i: nat) {
    i + 1 < |s| && s[i] == '#' && IsDigit(s[i + 1])
  }

  /** `re.findall(r'#(\d+)', s[from..])`: scanning left to right, each match
      takes the `#` and the longest run of digits after it, and the search goes
      on after the match. */
  function FindAll(s: string, from: nat): (r: seq<string>)
    requires from <= |s|
    ensures forall n <- r :: n != "" && AllDigits(n)
    decreases |s| - from
  {
    if from == |s| then []
    else if HashDigit(s, from) then
      var e := DigitsEnd(s, from + 1);
      [s[from + 1..e]] + FindAll(s, e)
    else FindAll(s, from + 1)
  }

  /** Lines 55-59. */
  function ExtractIssues(description: Option<string>): (r: seq<string>)
    ensures description.None? ==> r == []
    ensures forall n <- r :: n != "" && AllDigits(n)
  {
    match description
    case None => []
    case Some(s) => FindAll(s, 0)
  }

  /** A reference definition: the digit run after every `#` that a digit follows,
      position by position. */
  function DigitRunsAfterHash(s: string, from: nat): seq<string>
    requires from <= |s|
    decreases |s| - from
  {
    if from == |s| then []
    else if HashDigit(s, from) then [s[from + 1..DigitsEnd(s, from + 1)]] + DigitRunsAfterHash(s, from + 1)
    else DigitRunsAfterHash(s, from + 1)
  }

  /** Digits are not `#`, so skipping a run of digits skips no match. */
  lemma {:induction false} SkipDigits(s: string, from: nat, e: nat)
    requires from <= e <= |s| && AllDigits(s[from..e])
    ensures DigitRunsAfterHash(s, from) == DigitRunsAfterHash(s, e)
    decreases e - from
  {
    if from < e {
      assert s[from] == s[from..e][0];
      assert s[from + 1..e] == s[from..e][1..];
      SkipDigits(s, from + 1, e);
    }
  }

  /** Matches cannot overlap: `findall` returns the digit run after every `#`
      that a digit follows, in order. */
  lemma {:induction false} FindAllEveryHash(s: string, from: nat)
    requires from <= |s|
    ensures FindAll(s, from) == DigitRunsAfterHash(s, from)
    decreases |s| - from
  {
    if from < |s| {
      if HashDigit(s, from) {
        var e := DigitsEnd(s, from + 1);
        FindAllEveryHash(s, e);
        SkipDigits(s, from + 1, e);
      } else {
        FindAllEveryHash(s, from + 1);
      }
    }
  }

  /** A description with no `#` followed by a digit has no issue reference, and
      one with such a pair has at least one. */
  lemma {:induction false} NoReferenceIff(s: string, from: nat)
    requires from <= |s|
    ensures FindAll(s, from) == [] <==> forall i :: from <= i < |s| ==> !HashDigit(s, i)
    decreases |s| - from
  {
    FindAllEveryHash(s, from);
    if from < |s| {
      NoReferenceIff(s, from + 1);
      FindAllEveryHash(s, from + 1);
    }
  }

  // ----------------------------------------------------- related-issues cell

  /** One link of the related-issues cell. */
  function IssueLink(owner: string, repo: string, issue: string): string {
    "<a href=\"https://github.com/" + owner + "/" + repo + "/issues/" + issue + "\">#" + issue + "</a>"
  }

  function IssueLinks(owner: string, repo: string, issues: seq<string>): (r: seq<string>)
    ensures |r| == |issues|
  {
    seq(|issues|, k requires 0 <= k < |issues| => IssueLink(owner, repo, issues[k]))
  }

  /** Lines 199 and 209: the links to the issues `pr.get("body", "")` refers to,
      joined by `", "`; an absent body is the empty string. */
  function RelatedIssuesCell(owner: string, repo: string, body: Option<string>): string {
    Join(IssueLinks(owner, repo, ExtractIssues(Some(body.GetOr("")))), ", ")
  }

  /** Each string after a space: the second and later pieces of a text joined
      by `", "` and cut at its commas. */
  function SpaceBefore(xs: seq<string>): (r: seq<string>)
    ensures |r| == |xs|
  {
    if xs == [] then [] else [" " + xs[0]] + SpaceBefore(xs[1..])
  }

  /** Cutting the joined cell at its commas gives the links back, one per issue
      reference and in the order of the references (the second and later ones
      after the space of the separator), when the owner and repository names
      have no comma. */
  lemma RelatedIssuesSplit(owner: string, repo: string, body: Option<string>)
    requires ',' !in owner && ',' !in repo
    ensures var links := IssueLinks(owner, repo, ExtractIssues(Some(body.GetOr(""))));
      Split(RelatedIssuesCell(owner, repo, body), ',')
        == if links == [] then [""] else [links[0]] + SpaceBefore(links[1..])
  {
    var issues := ExtractIssues(Some(body.GetOr("")));
    var links := IssueLinks(owner, repo, issues);
    forall k | 0 <= k < |links|
      ensures ',' !in links[k]
    {
      assert AllDigits(issues[k]) && issues[k] in issues;
      NoCommaInLink(owner, repo, issues[k]);
    }
    if links != [] {
      JoinSplit(links);
    }
  }

  lemma NoCommaInLink(owner: string, repo: string, issue: string)
    requires ',' !in owner && ',' !in repo && AllDigits(issue)
    ensures ',' !in IssueLink(owner, repo, issue)
  {
    forall k | 0 <= k < |issue|
      ensures issue[k] != ','
    {
      assert IsDigit(issue[k]);
    }
  }

  /** Splitting pieces joined by `", "` at the commas. */
  lemma {:induction false} JoinSplit(xs: seq<string>)
    requires xs != [] && forall k :: 0 <= k < |xs| ==> ',' !in xs[k]
    ensures Split(Join(xs, ", "), ',') == [xs[0]] + SpaceBefore(xs[1..])
  {
    if |xs| == 1 {
      assert Join(xs, ", ") == xs[0];
    } else {
      var rest := xs[1..];
      var tail := Join(rest, ", ");
      assert Join(xs, ", ") == xs[0] + [','] + (" " + tail);
      SplitLine(xs[0], ',', " " + tail);
      JoinSplit(rest);
      SpacePrefix(tail, rest[0]);
      assert rest[1..] == xs[2..];
    }
  }

  /** Putting a space before a string puts it before its first comma-separated piece. */
  lemma SpacePrefix(s: string, first: string)
    requires Split(s, ',')[0] == first
    ensures Split(" " + s, ',') == [" " + first] + Split(s, ',')[1..]
  {
    if ',' in s {
      var i := FirstIndex(s, ',');
      assert s == s[..i] + [','] + s[i + 1..];
      assert " " + s == (" " + s[..i]) + [','] + s[i + 1..];
      SplitLine(s[..i], ',', s[i + 1..]);
      SplitLine(" " + s[..i], ',', s[i + 1..]);
    }
  }

  // ---------------------------------------------------------------- dates

  /** A calendar date with a four-digit year. */
  datatype Date = Date(year: nat, month: nat, day: nat)

  predicate ValidDate(d: Date) {
    1000 <= d.year <= 9999 && 1 <= d.month <= 12 && 1 <= d.day <= 31
  }

  /** `strftime('%Y%m%d')`. */
  function Compact(d: Date): (r: string)
    ensures |r| == 8
  {
    Pad(d.year, 4) + Pad(d.month, 2) + Pad(d.day, 2)
  }

  const ReportRoot := "weekly_report/"

  /** Line 90: the folder of the week's report. */
  function WeekFolder(start: Date, end: Date): (r: string)
    ensures |r| == |ReportRoot| + 17
  {
    ReportRoot + Compact(start) + "_" + Compact(end)
  }

  /** The folder name holds both compact dates, around an underscore. */
  lemma WeekFolderParts(start: Date, end: Date)
    ensures var f, n := WeekFolder(start, end), |ReportRoot|;
      f[..n] == ReportRoot && f[n..n + 8] == Compact(start) && f[n + 8] == '_' && f[n + 9..] == Compact(end)
  {
    var a, b := Compact(start), Compact(end);
    var f := ReportRoot + a + "_" + b;
    var n := |ReportRoot|;
    assert f == ReportRoot + (a + ("_" + b));
    assert f[n..] == a + ("_" + b);
  }

  /** The compact form of a date gives the date back. */
  lemma CompactRoundTrip(d: Date)
    requires ValidDate(d)
    ensures var c := Compact(d);
      DigitsValue(c[..4]) == d.year && DigitsValue(c[4..6]) == d.month && DigitsValue(c[6..]) == d.day
  {
    var c := Compact(d);
    assert c[..4] == Pad(d.year, 4);
    assert c[4..6] == Pad(d.month, 2);
    assert c[6..] == Pad(d.day, 2);
    PadRoundTrip(d.year, 4);
    PadRoundTrip(d.month, 2);
    PadRoundTrip(d.day, 2);
  }

  /** `%b`: the English month abbreviations. */
  function MonthAbbr(month: nat): (r: string)
    requires 1 <= month <= 12
    ensures |r| == 3
  {
    ["Jan", "Feb", "Mar", "Apr", "May", "Jun", "Jul", "Aug", "Sep", "Oct", "Nov", "Dec"][month - 1]
  }

  /** `strftime('%b %d')`. */
  function MonthDay(d: Date): (r: string)
    requires ValidDate(d)
    ensures |r| == 6
  {
    MonthAbbr(d.month) + " " + Pad(d.day, 2)
  }

  /** `strftime('%b %d, %Y')`. */
  function FullDate(d: Date): (r: string)
    requires ValidDate(d)
    ensures |r| == 12
  {
    MonthDay(d) + ", " + Pad(d.year, 4)
  }

  /** Lines 120-126: the date range of the report's title. */
  function DateRange(start: Date, end: Date): (r: string)
    requires ValidDate(start) && ValidDate(end)
  {
    if start.year == end.year then
      if start.month == end.month then MonthDay(start) + " - " + (Pad(end.day, 2) + ", " + Pad(end.year, 4))
      else MonthDay(start) + " - " + FullDate(end)
    else FullDate(start) + " - " + FullDate(end)
  }

  /** The three cases of the label: its length tells same month, same year and
      different years apart. */
  lemma DateRangeCases(start: Date, end: Date)
    requires ValidDate(start) && ValidDate(end)
    ensures var r := DateRange(start, end);
      && (|r| == 17 <==> start.year == end.year && start.month == end.month)
      && (|r| == 21 <==> start.year == end.year && start.month != end.month)
      && (|r| == 27 <==> start.year != end.year)
  {
  }

  /** The label opens with the start's month and day, and with the whole start
      date when the years differ. */
  lemma DateRangeStart(start: Date, end: Date)
    requires ValidDate(start) && ValidDate(end)
    ensures StartsWith(DateRange(start, end), MonthDay(start))
    ensures start.year != end.year ==> StartsWith(DateRange(start, end), FullDate(start) + " - ")
  {
    var r := DateRange(start, end);
    if start.year != end.year {
      assert r == (FullDate(start) + " - ") + FullDate(end);
      Affixes(FullDate(start) + " - ", FullDate(end));
      assert r[..|MonthDay(start)|] == (FullDate(start) + " - ")[..|MonthDay(start)|];
    } else {
      var rest := if start.month == end.month then " - " + (Pad(end.day, 2) + ", " + Pad(end.year, 4)) else " - " + FullDate(end);
      assert r == MonthDay(start) + rest;
      Affixes(MonthDay(start), rest);
    }
  }

  /** The label closes with the end's day and year. */
  lemma DateRangeEnd(start: Date, end: Date)
    requires ValidDate(start) && ValidDate(end)
    ensures EndsWith(DateRange(start, end), Pad(end.day, 2) + ", " + Pad(end.year, 4))
  {
    var r := DateRange(start, end);
    var tail := Pad(end.day, 2) + ", " + Pad(end.year, 4);
    assert FullDate(end) == MonthAbbr(end.month) + " " + tail;
    var head := if start.year != end.year then FullDate(start) else MonthDay(start);
    var front := if start.year != end.year || start.month != end.month
      then head + " - " + MonthAbbr(end.month) + " " else head + " - ";
    assert r == front + tail;
    Affixes(front, tail);
  }

  /** The whole end date closes the label when the months or the years differ. */
  lemma DateRangeFullEnd(start: Date, end: Date)
    requires ValidDate(start) && ValidDate(end)
    ensures start.year != end.year || start.month != end.month ==>
      EndsWith(DateRange(start, end), " - " + FullDate(end))
  {
    if start.year != end.year || start.month != end.month {
      var head := if start.year != end.year then FullDate(start) else MonthDay(start);
      assert DateRange(start, end) == head + (" - " + FullDate(end));
      Affixes(head, " - " + FullDate(end));
    }
  }

  // ------------------------------------------------------------------ colour

  predicate IsHexDigit(c: char) {
    '0' <= c <= '9' || 'a' <= c <= 'f'
  }

  /** What `hashlib.md5(...).hexdigest()` returns: 32 lower-case hex digits. */
  predicate IsHexDigest(h: string) {
    |h| == 32 && forall i :: 0 <= i < |h| ==> IsHexDigit(h[i])
  }

  /** Lines 111-114, for a digest function `md5Hex` standing for
      `hashlib.md5(username.encode()).hexdigest()`: a `#` and the first six hex
      digits of the user name's digest, a CSS colour. */
  function GenerateColor(username: string, md5Hex: string -> string): (color: string)
    requires IsHexDigest(md5Hex(username))
    ensures |color| == 7 && color[0] == '#'
    ensures color[1..] == md5Hex(username)[..6]
    ensures forall i :: 1 <= i < 7 ==> IsHexDigit(color[i])
  {
    "#" + md5Hex(username)[..6]
  }
}
