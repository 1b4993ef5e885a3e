/** The topic scanner of the offline report: what
    `re.finditer(r'<topic>(.*?)</topic>\s*<details>(.*?)</details>', text, re.DOTALL)`
    yields (offline_telegram_summary.py, lines 298-308), written as a search over
    positions. TopicRegex proves that it finds what the regular expression matches. */
module TopicScan {
  import opened Wrappers
  import opened Text

  /** One entry of `topics_discussed`. */
  datatype Topic = Topic(topic: string, details: string)

  /** The four tags of the topic pattern
      `<topic>(.*?)</topic>\s*<details>(.*?)</details>`. The scanner below is
      written for any tags that `ValidTags` accepts. */
  datatype Tags = Tags(topicOpen: string, topicClose: string, detailsOpen: string, detailsClose: string)

  const TopicTags := Tags("<topic>", "</topic>", "<details>", "</details>")

  /** `<details>` does not start with whitespace (so `\s*` cannot eat into it)
      and `</details>` is not empty (so `finditer` moves on after each match). */
  predicate ValidTags(t: Tags) {
    t.detailsOpen != [] && !IsSpace(t.detailsOpen[0]) && t.detailsClose != []
  }

  lemma TopicTagsValid()
    ensures ValidTags(TopicTags)
  {
  }

  /** Where the run of whitespace starting at `a` ends (what `\s*` consumes). */
  function SkipSpace(s: string, a: nat): (d: nat)
    requires a <= |s|
    ensures a <= d <= |s|
    decreases |s| - a
  {
    if a < |s| && IsSpace(s[a]) then SkipSpace(s, a + 1) else a
  }

  /** Every character of `s[a..d]` is whitespace. */
  predicate AllSpace(s: string, a: nat, d: nat)
    decreases d - a
  {
    a <= d <= |s| && (a == d || (IsSpace(s[a]) && AllSpace(s, a + 1, d)))
  }

  /** The topic pattern can match with its opening tag at `k`, its closing tag at
      `j`, `<details>` at `d` and `</details>` at `e`. */
  predicate TopicAt(s: string, t: Tags, k: nat, j: nat, d: nat, e: nat) {
    && OccursAt(s, t.topicOpen, k) && k + |t.topicOpen| <= j
    && OccursAt(s, t.topicClose, j) && AllSpace(s, j + |t.topicClose|, d)
    && OccursAt(s, t.detailsOpen, d) && d + |t.detailsOpen| <= e
    && OccursAt(s, t.detailsClose, e)
  }

  /** `</topic>` at `j`, then whitespace, then `<details>`. */
  predicate ClosesTopic(s: string, t: Tags, j: nat) {
    OccursAt(s, t.topicClose, j) && OccursAt(s, t.detailsOpen, SkipSpace(s, j + |t.topicClose|))
  }

  /** The first `</topic>` at or after `from` that whitespace and `<details>` follow. */
  function TopicEnd(s: string, t: Tags, from: nat): (r: Option<nat>)
    ensures r.Some? ==> from <= r.value && r.value + |t.topicClose| <= |s|
    decreases |s| - from
  {
    match IndexOf(s, t.topicClose, from)
    case None => None
    case Some(j) => if ClosesTopic(s, t, j) then Some(j) else TopicEnd(s, t, j + 1)
  }

  /** Where one topic match sits: see `TopicAt`. */
  datatype TopicMatch = TopicMatch(k: nat, j: nat, d: nat, e: nat)

  /** The four tags of `m` follow each other in `s`, without overlapping. */
  predicate Ordered(s: string, t: Tags, m: TopicMatch) {
    && m.k + |t.topicOpen| <= m.j
    && m.j + |t.topicClose| <= m.d
    && m.d + |t.detailsOpen| <= m.e
    && m.e + |t.detailsClose| <= |s|
  }

  /** The next match of `finditer` from `from`: at the first `<topic>` at or
      after `from`, if the rest of the pattern follows it. */
  function NextTopic(s: string, t: Tags, from: nat): (r: Option<TopicMatch>)
    ensures r.Some? ==> from <= r.value.k && Ordered(s, t, r.value)
    decreases |s| - from
  {
    if from + |t.topicOpen| > |s| then None
    else if OccursAt(s, t.topicOpen, from) then TopicFrom(s, t, from)
    else NextTopic(s, t, from + 1)
  }

  /** The rest of a match whose opening tag is at `k`. */
  function TopicFrom(s: string, t: Tags, k: nat): (r: Option<TopicMatch>)
    ensures r.Some? ==> r.value.k == k && Ordered(s, t, r.value)
  {
    match TopicEnd(s, t, k + |t.topicOpen|)
    case None => None
    case Some(j) => DetailsFrom(s, t, k, j)
  }

  /** The rest of a match whose opening tag is at `k` and whose closing tag is at `j`. */
  function DetailsFrom(s: string, t: Tags, k: nat, j: nat): (r: Option<TopicMatch>)
    requires k + |t.topicOpen| <= j && j + |t.topicClose| <= |s|
    ensures r.Some? ==> r.value.k == k && r.value.j == j && Ordered(s, t, r.value)
  {
    var d := SkipSpace(s, j + |t.topicClose|);
    match IndexOf(s, t.detailsClose, d + |t.detailsOpen|)
    case None => None
    case Some(e) => Some(TopicMatch(k, j, d, e))
  }

  /** The two groups of a match, each stripped. */
  function TopicOf(s: string, t: Tags, m: TopicMatch): Topic
    requires Ordered(s, t, m)
  {
    Topic(Strip(s[m.k + |t.topicOpen|..m.j]), Strip(s[m.d + |t.detailsOpen|..m.e]))
  }

  /** `re.finditer` from `from`: each match searched for where the last one ended. */
  function TopicMatches(s: string, t: Tags, from: nat): (ms: seq<TopicMatch>)
    requires ValidTags(t) && from <= |s|
    ensures forall i :: 0 <= i < |ms| ==> Ordered(s, t, ms[i])
    decreases |s| - from
  {
    match NextTopic(s, t, from)
    case None => []
    case Some(m) => [m] + TopicMatches(s, t, m.e + |t.detailsClose|)
  }
}
