/** The regular-expression meaning of the topic pattern, and proofs that the
    scanner of TopicScan finds exactly its matches, left to right. */
module TopicRegex {
  import opened Wrappers
  import opened Text
  import opened TopicScan

  // ------------------------------------------------------------------ `\s*`

  /** What `\s*` consumes is whitespace. */
  lemma {:induction false} SkipSpaceAll(s: string, a: nat)
    requires a <= |s|
    ensures AllSpace(s, a, SkipSpace(s, a))
    decreases |s| - a
  {
    if a < |s| && IsSpace(s[a]) {
      SkipSpaceAll(s, a + 1);
    }
  }

  /** `\s*` stops at the first character that is not whitespace. */
  lemma {:induction false} SkipSpaceStop(s: string, a: nat)
    requires a <= |s|
    ensures SkipSpace(s, a) == |s| || !IsSpace(s[SkipSpace(s, a)])
    decreases |s| - a
  {
    if a < |s| && IsSpace(s[a]) {
      SkipSpaceStop(s, a + 1);
    }
  }

  /** The whitespace before `<details>` is all the whitespace there is. */
  lemma {:induction false} SpaceBeforeDetails(s: string, t: Tags, a: nat, d: nat)
    requires ValidTags(t)
    requires AllSpace(s, a, d) && OccursAt(s, t.detailsOpen, d)
    ensures SkipSpace(s, a) == d
    decreases d - a
  {
    if a < d {
      SpaceBeforeDetails(s, t, a + 1, d);
    }
  }

  /** `\s*` from a later position ends no earlier. */
  lemma {:induction false} SkipSpaceMonotone(s: string, a: nat, b: nat)
    requires a <= b <= |s|
    ensures SkipSpace(s, a) <= SkipSpace(s, b)
    decreases b - a
  {
    if a < b {
      SkipSpaceMonotone(s, a + 1, b);
    }
  }

  // ------------------------------------------------------- `</topic>\s*<details>`

  /** `j` is the first position at or after `from` where `</topic>\s*<details>` starts. */
  ghost predicate FirstClosing(s: string, t: Tags, from: nat, j: nat) {
    from <= j && ClosesTopic(s, t, j) && forall i: nat :: from <= i < j ==> !ClosesTopic(s, t, i)
  }

  /** `</topic>\s*<details>` starts nowhere at or after `from`. */
  ghost predicate NoClosing(s: string, t: Tags, from: nat) {
    forall i: nat :: from <= i ==> !ClosesTopic(s, t, i)
  }

  /** `TopicEnd` finds the first `</topic>` that `\s*<details>` follows, and
      nothing exactly when there is none. */
  lemma {:induction false} TopicEndFirst(s: string, t: Tags, from: nat)
    ensures TopicEnd(s, t, from).Some? ==> FirstClosing(s, t, from, TopicEnd(s, t, from).value)
    ensures TopicEnd(s, t, from).None? ==> NoClosing(s, t, from)
    decreases |s| - from
  {
    IndexOfFirst(s, t.topicClose, from);
    var r := IndexOf(s, t.topicClose, from);
    if r.None? {
      assert TopicEnd(s, t, from).None?;
    } else if ClosesTopic(s, t, r.value) {
      assert TopicEnd(s, t, from) == r;
    } else {
      assert TopicEnd(s, t, from) == TopicEnd(s, t, r.value + 1);
      TopicEndFirst(s, t, r.value + 1);
    }
  }

  /** A topic match closes its first group where `ClosesTopic` holds. */
  lemma TopicAtCloses(s: string, t: Tags, k: nat, j: nat, d: nat, e: nat)
    requires ValidTags(t) && TopicAt(s, t, k, j, d, e)
    ensures ClosesTopic(s, t, j) && d == SkipSpace(s, j + |t.topicClose|)
  {
    SpaceBeforeDetails(s, t, j + |t.topicClose|, d);
  }

  // ------------------------------------------------------------- one search

  /** `r` is what a regular-expression search for the topic pattern from `from`
      returns: the leftmost match, its first group as short as possible, then its
      second group as short as possible; None exactly when nothing matches. */
  ghost predicate FirstTopicMatch(s: string, t: Tags, from: nat, r: Option<TopicMatch>) {
    && (r.Some? ==>
          var m := r.value;
          && from <= m.k && TopicAt(s, t, m.k, m.j, m.d, m.e)
          && (forall j: nat, d: nat, e: nat :: j < m.j ==> !TopicAt(s, t, m.k, j, d, e))
          && (forall e: nat :: m.d + |t.detailsOpen| <= e < m.e ==> !OccursAt(s, t.detailsClose, e)))
    && (forall k: nat, j: nat, d: nat, e: nat :: from <= k && (r.None? || k < r.value.k) ==> !TopicAt(s, t, k, j, d, e))
  }

  /** Any match found from `from` starts at or after the first `<topic>`, and
      its `</topic>` is one that `\s*<details>` follows. */
  lemma LaterTopic(s: string, t: Tags, from: nat, k: nat, k': nat, j: nat, d: nat, e: nat)
    requires ValidTags(t) && FirstOccurrence(s, t.topicOpen, from, k)
    requires from <= k' && TopicAt(s, t, k', j, d, e)
    ensures k <= k' && k + |t.topicOpen| <= j
    ensures ClosesTopic(s, t, j) && d == SkipSpace(s, j + |t.topicClose|)
  {
    TopicAtCloses(s, t, k', j, d, e);
  }

  /** Without a `<topic>`, nothing matches. */
  lemma NoOpening(s: string, t: Tags, from: nat)
    requires NoOccurrence(s, t.topicOpen, from)
    ensures FirstTopicMatch(s, t, from, None)
  {
  }

  /** Without a `</topic>\s*<details>` after the first `<topic>`, nothing matches. */
  lemma NoClosingMatch(s: string, t: Tags, from: nat, k: nat)
    requires ValidTags(t) && FirstOccurrence(s, t.topicOpen, from, k)
    requires NoClosing(s, t, k + |t.topicOpen|)
    ensures FirstTopicMatch(s, t, from, None)
  {
    forall k': nat, j: nat, d: nat, e: nat | from <= k' && TopicAt(s, t, k', j, d, e)
      ensures false
    {
      LaterTopic(s, t, from, k, k', j, d, e);
    }
  }

  /** Without a `</details>` after the first `</topic>\s*<details>`, nothing matches. */
  lemma NoDetails(s: string, t: Tags, from: nat, k: nat, j: nat)
    requires ValidTags(t) && FirstOccurrence(s, t.topicOpen, from, k)
    requires FirstClosing(s, t, k + |t.topicOpen|, j)
    requires j + |t.topicClose| <= |s|
    requires NoOccurrence(s, t.detailsClose, SkipSpace(s, j + |t.topicClose|) + |t.detailsOpen|)
    ensures FirstTopicMatch(s, t, from, None)
  {
    forall k': nat, j': nat, d': nat, e: nat | from <= k' && TopicAt(s, t, k', j', d', e)
      ensures false
    {
      LaterTopic(s, t, from, k, k', j', d', e);
      SkipSpaceMonotone(s, j + |t.topicClose|, j' + |t.topicClose|);
    }
  }

  /** With all three searches successful, their first hits are the match. */
  lemma Found(s: string, t: Tags, from: nat, k: nat, j: nat, e: nat)
    requires ValidTags(t) && FirstOccurrence(s, t.topicOpen, from, k)
    requires FirstClosing(s, t, k + |t.topicOpen|, j)
    requires j + |t.topicClose| <= |s|
    requires FirstOccurrence(s, t.detailsClose, SkipSpace(s, j + |t.topicClose|) + |t.detailsOpen|, e)
    ensures FirstTopicMatch(s, t, from, Some(TopicMatch(k, j, SkipSpace(s, j + |t.topicClose|), e)))
  {
    SkipSpaceAll(s, j + |t.topicClose|);
    assert TopicAt(s, t, k, j, SkipSpace(s, j + |t.topicClose|), e);
    forall k': nat, j': nat, d': nat, e': nat | from <= k' && TopicAt(s, t, k', j', d', e')
      ensures k <= k' && j <= j'
    {
      LaterTopic(s, t, from, k, k', j', d', e');
    }
  }

  /** The match `DetailsFrom` completes is the one the regular expression finds. */
  lemma DetailsFromLeftmost(s: string, t: Tags, from: nat, k: nat, j: nat)
    requires ValidTags(t) && FirstOccurrence(s, t.topicOpen, from, k)
    requires FirstClosing(s, t, k + |t.topicOpen|, j)
    requires j + |t.topicClose| <= |s|
    ensures FirstTopicMatch(s, t, from, DetailsFrom(s, t, k, j))
  {
    var d := SkipSpace(s, j + |t.topicClose|);
    IndexOfFirst(s, t.detailsClose, d + |t.detailsOpen|);
    var details := IndexOf(s, t.detailsClose, d + |t.detailsOpen|);
    if details.None? {
      assert DetailsFrom(s, t, k, j).None?;
      NoDetails(s, t, from, k, j);
    } else {
      assert DetailsFrom(s, t, k, j) == Some(TopicMatch(k, j, d, details.value));
      Found(s, t, from, k, j, details.value);
    }
  }

  /** The match `TopicFrom` completes is the one the regular expression finds. */
  lemma TopicFromLeftmost(s: string, t: Tags, from: nat, k: nat)
    requires ValidTags(t) && FirstOccurrence(s, t.topicOpen, from, k)
    ensures FirstTopicMatch(s, t, from, TopicFrom(s, t, k))
  {
    TopicEndFirst(s, t, k + |t.topicOpen|);
    var close := TopicEnd(s, t, k + |t.topicOpen|);
    if close.None? {
      assert TopicFrom(s, t, k).None?;
      NoClosingMatch(s, t, from, k);
    } else {
      assert TopicFrom(s, t, k) == DetailsFrom(s, t, k, close.value);
      DetailsFromLeftmost(s, t, from, k, close.value);
    }
  }

  /** A search from `from` finds what a search from `from + 1` finds when no
      `<topic>` starts at `from`. */
  lemma SkipStart(s: string, t: Tags, from: nat, r: Option<TopicMatch>)
    requires !OccursAt(s, t.topicOpen, from) && FirstTopicMatch(s, t, from + 1, r)
    requires r.Some? ==> from < r.value.k
    ensures FirstTopicMatch(s, t, from, r)
  {
  }

  /** `NextTopic` finds what the regular expression matches. */
  lemma {:induction false} NextTopicLeftmost(s: string, t: Tags, from: nat)
    requires ValidTags(t)
    ensures FirstTopicMatch(s, t, from, NextTopic(s, t, from))
    decreases |s| - from
  {
    if from + |t.topicOpen| > |s| {
      assert NextTopic(s, t, from).None?;
      NoOpening(s, t, from);
    } else if OccursAt(s, t.topicOpen, from) {
      assert NextTopic(s, t, from) == TopicFrom(s, t, from);
      TopicFromLeftmost(s, t, from, from);
    } else {
      assert NextTopic(s, t, from) == NextTopic(s, t, from + 1);
      NextTopicLeftmost(s, t, from + 1);
      SkipStart(s, t, from, NextTopic(s, t, from + 1));
    }
  }

  // ---------------------------------------------------------------- finditer

  /** `ms` is what `re.finditer` yields from `from`: the first match, then the
      matches of a search from where it ended; nothing when the search fails. */
  ghost predicate Finditer(s: string, t: Tags, from: nat, ms: seq<TopicMatch>)
    decreases |ms|
  {
    if ms == [] then FirstTopicMatch(s, t, from, None)
    else FirstTopicMatch(s, t, from, Some(ms[0])) && Finditer(s, t, ms[0].e + |t.detailsClose|, ms[1..])
  }

  /** A match followed by the matches found after it is what `finditer` yields. */
  lemma FinditerCons(s: string, t: Tags, from: nat, r: Option<TopicMatch>, rest: seq<TopicMatch>)
    requires r.Some? && FirstTopicMatch(s, t, from, r)
    requires Finditer(s, t, r.value.e + |t.detailsClose|, rest)
    ensures Finditer(s, t, from, [r.value] + rest)
  {
    var ms := [r.value] + rest;
    assert ms[0] == r.value && ms[1..] == rest;
  }

  /** How `TopicMatches` unfolds: nothing when the search fails, otherwise the
      match found and the matches after it. */
  lemma TopicMatchesStep(s: string, t: Tags, from: nat)
    requires ValidTags(t) && from <= |s|
    ensures NextTopic(s, t, from).None? ==> TopicMatches(s, t, from) == []
    ensures NextTopic(s, t, from).Some? ==>
      var after := NextTopic(s, t, from).value.e + |t.detailsClose|;
      after <= |s| && TopicMatches(s, t, from) == [NextTopic(s, t, from).value] + TopicMatches(s, t, after)
  {
  }

  /** `TopicMatches` is `finditer`. */
  lemma {:induction false} TopicMatchesFinditer(s: string, t: Tags, from: nat)
    requires ValidTags(t) && from <= |s|
    ensures Finditer(s, t, from, TopicMatches(s, t, from))
    decreases |s| - from
  {
    TopicMatchesStep(s, t, from);
    NextTopicLeftmost(s, t, from);
    if NextTopic(s, t, from).Some? {
      var after := NextTopic(s, t, from).value.e + |t.detailsClose|;
      TopicMatchesFinditer(s, t, after);
      FinditerCons(s, t, from, NextTopic(s, t, from), TopicMatches(s, t, after));
    }
  }
}
