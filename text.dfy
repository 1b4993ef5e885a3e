/** The few Python `str` operations the report scripts use, written out on
    `seq<char>`: `isspace`, `strip`, `split('\n')`, `split()`, `lower`,
    `startswith`, the `in` substring test, `find`, `join` and decimal digits. */
module Text {
  import opened Wrappers

  /** `c.isspace()`: the characters Python treats as whitespace. */
  predicate IsSpace(c: char) {
    || c == ' '
    || '\t' <= c <= '\r'
    || '\U{1C}' <= c <= '\U{1F}'
    || c == '\U{85}' || c == '\U{A0}' || c == '\U{1680}'
    || '\U{2000}' <= c <= '\U{200A}'
    || c == '\U{2028}' || c == '\U{2029}' || c == '\U{202F}' || c == '\U{205F}' || c == '\U{3000}'
  }

  /** `s.strip() == ""`. */
  predicate IsBlank(s: string) {
    forall i :: 0 <= i < |s| ==> IsSpace(s[i])
  }

  /** `s.lstrip()`. */
  function LStrip(s: string): (r: string)
    ensures |r| <= |s|
    decreases |s|
  {
    if s != [] && IsSpace(s[0]) then LStrip(s[1..]) else s
  }

  /** `s.rstrip()`. */
  function RStrip(s: string): (r: string)
    ensures |r| <= |s|
    decreases |s|
  {
    if s != [] && IsSpace(s[|s| - 1]) then RStrip(s[..|s| - 1]) else s
  }

  /** `s.strip()`. */
  function Strip(s: string): (r: string)
    ensures |r| <= |s|
  {
    RStrip(LStrip(s))
  }

  /** `lstrip` removes a run of whitespace from the front and stops at the
      first other character. */
  lemma {:induction false} LStripFacts(s: string)
    ensures var r := LStrip(s);
      && r == s[|s| - |r|..]
      && (r == [] || !IsSpace(r[0]))
      && forall i :: 0 <= i < |s| - |r| ==> IsSpace(s[i])
    decreases |s|
  {
    if s != [] && IsSpace(s[0]) {
      LStripFacts(s[1..]);
      var r := LStrip(s);
      forall i | 1 <= i < |s| - |r|
        ensures IsSpace(s[i])
      {
        assert s[i] == s[1..][i - 1];
      }
    }
  }

  /** `rstrip` removes a run of whitespace from the back and stops at the
      last other character. */
  lemma {:induction false} RStripFacts(s: string)
    ensures var r := RStrip(s);
      && r == s[..|r|]
      && (r == [] || !IsSpace(r[|r| - 1]))
      && forall i :: |r| <= i < |s| ==> IsSpace(s[i])
    decreases |s|
  {
    if s != [] && IsSpace(s[|s| - 1]) {
      RStripFacts(s[..|s| - 1]);
    }
  }

  /** `strip()` keeps the middle of `s` between its leading and trailing
      whitespace: nothing is left exactly when `s` is blank, and what is left
      neither starts nor ends with whitespace. */
  lemma StripFacts(s: string)
    ensures var r := Strip(s);
      && (r == [] <==> IsBlank(s))
      && (r == [] || (!IsSpace(r[0]) && !IsSpace(r[|r| - 1])))
      && r == s[|s| - |LStrip(s)|..|s| - |LStrip(s)| + |r|]
  {
    var l := LStrip(s);
    LStripFacts(s);
    RStripFacts(l);
    var r := Strip(s);
    if r == [] {
      assert l == [];
    } else {
      assert l[0] == r[0];
    }
  }

  /** A string with no whitespace at either end is its own `strip()`. */
  lemma StripTrimmed(s: string)
    requires s == [] || (!IsSpace(s[0]) && !IsSpace(s[|s| - 1]))
    ensures Strip(s) == s
  {
  }

  /** `strip()` is idempotent. */
  lemma StripIdempotent(s: string)
    ensures Strip(Strip(s)) == Strip(s)
  {
    StripFacts(s);
    StripTrimmed(Strip(s));
  }

  /** `s.lstrip(c)` for one character `c`. */
  function LStripChar(s: string, c: char): (r: string)
    ensures |r| <= |s|
    decreases |s|
  {
    if s != [] && s[0] == c then LStripChar(s[1..], c) else s
  }

  /** `s.rstrip(c)` for one character `c`. */
  function RStripChar(s: string, c: char): (r: string)
    ensures |r| <= |s|
    decreases |s|
  {
    if s != [] && s[|s| - 1] == c then RStripChar(s[..|s| - 1], c) else s
  }

  /** `s.strip(c)` for one character `c`. */
  function StripChar(s: string, c: char): (r: string)
    ensures |r| <= |s|
  {
    RStripChar(LStripChar(s, c), c)
  }

  /** A string made only of `c` strips to nothing. */
  lemma {:induction false} StripCharAll(s: string, c: char)
    requires forall i :: 0 <= i < |s| ==> s[i] == c
    ensures StripChar(s, c) == ""
    decreases |s|
  {
    if s != [] {
      StripCharAll(s[1..], c);
    }
  }

  predicate StartsWith(s: string, prefix: string) {
    |prefix| <= |s| && s[..|prefix|] == prefix
  }

  predicate EndsWith(s: string, suffix: string) {
    |suffix| <= |s| && s[|s| - |suffix|..] == suffix
  }

  /** A concatenation starts with its first part and ends with its second. */
  lemma Affixes(a: string, b: string)
    ensures StartsWith(a + b, a) && EndsWith(a + b, b)
  {
    assert (a + b)[..|a|] == a;
    assert (a + b)[|a + b| - |b|..] == b;
  }

  /** `p` occurs in `s` starting at index `k`, compared character by character. */
  predicate OccursAt(s: string, p: string, k: nat)
    decreases |p|
  {
    k + |p| <= |s| && (p == [] || (s[k] == p[0] && OccursAt(s, p[1..], k + 1)))
  }

  /** `p` occurs at `k` exactly when the slice there is `p`. */
  lemma {:induction false} OccursAtSlice(s: string, p: string, k: nat)
    ensures OccursAt(s, p, k) <==> k + |p| <= |s| && s[k..k + |p|] == p
    decreases |p|
  {
    if p != [] && k + |p| <= |s| {
      OccursAtSlice(s, p[1..], k + 1);
      assert s[k..k + |p|] == [s[k]] + s[k + 1..k + 1 + |p[1..]|];
      assert p == [p[0]] + p[1..];
    }
  }

  /** `k` is the first index at or after `from` where `p` occurs. */
  ghost predicate FirstOccurrence(s: string, p: string, from: nat, k: nat) {
    from <= k && OccursAt(s, p, k) && forall i: nat :: from <= i < k ==> !OccursAt(s, p, i)
  }

  /** `p` occurs nowhere at or after `from`. */
  ghost predicate NoOccurrence(s: string, p: string, from: nat) {
    forall i: nat :: from <= i ==> !OccursAt(s, p, i)
  }

  /** `s.find(p, from)`: the first index at or after `from` where `p` occurs. */
  function IndexOf(s: string, p: string, from: nat): (r: Option<nat>)
    ensures r.Some? ==> from <= r.value && r.value + |p| <= |s|
    decreases |s| - from
  {
    if from + |p| > |s| then None
    else if OccursAt(s, p, from) then Some(from)
    else IndexOf(s, p, from + 1)
  }

  /** What `find` returns is the first occurrence, and it returns nothing exactly
      when there is none. */
  lemma {:induction false} IndexOfFirst(s: string, p: string, from: nat)
    ensures IndexOf(s, p, from).Some? ==> FirstOccurrence(s, p, from, IndexOf(s, p, from).value)
    ensures IndexOf(s, p, from).None? ==> NoOccurrence(s, p, from)
    decreases |s| - from
  {
    if from + |p| > |s| {
      assert IndexOf(s, p, from).None?;
    } else if OccursAt(s, p, from) {
      assert IndexOf(s, p, from) == Some(from);
    } else {
      assert IndexOf(s, p, from) == IndexOf(s, p, from + 1);
      IndexOfFirst(s, p, from + 1);
    }
  }

  /** Python's `p in s` on strings. */
  predicate Contains(s: string, p: string) {
    IndexOf(s, p, 0).Some?
  }

  lemma ContainsIff(s: string, p: string)
    ensures Contains(s, p) <==> exists k: nat :: OccursAt(s, p, k)
  {
    IndexOfFirst(s, p, 0);
    if Contains(s, p) {
      var k := IndexOf(s, p, 0).value;
      assert FirstOccurrence(s, p, 0, k);
      assert exists k': nat :: OccursAt(s, p, k');
    } else {
      assert NoOccurrence(s, p, 0);
    }
  }

  function LowerChar(c: char): char {
    if 'A' <= c <= 'Z' then (c as int - 'A' as int + 'a' as int) as char else c
  }

  /** `s.lower()` on the ASCII letters: no capital is left, each capital becomes
      the small letter at the same place in the alphabet, and every other
      character is kept. */
  function Lower(s: string): (r: string)
    ensures |r| == |s|
    ensures forall i :: 0 <= i < |r| ==> !('A' <= r[i] <= 'Z')
    ensures forall i :: 0 <= i < |s| && 'A' <= s[i] <= 'Z' ==>
      'a' <= r[i] <= 'z' && r[i] as int - 'a' as int == s[i] as int - 'A' as int
    ensures forall i :: 0 <= i < |s| && !('A' <= s[i] <= 'Z') ==> r[i] == s[i]
  {
    seq(|s|, i requires 0 <= i < |s| => LowerChar(s[i]))
  }

  /** Lowering twice changes nothing more. */
  lemma LowerIdempotent(s: string)
    ensures Lower(Lower(s)) == Lower(s)
  {
  }

  /** The index of the first `c` in `s`. */
  function FirstIndex(s: string, c: char): (r: nat)
    requires c in s
    ensures r < |s| && s[r] == c && c !in s[..r]
  {
    if s[0] == c then 0 else FirstIndex(s[1..], c) + 1
  }

  /** `s.split(sep)` for a one-character separator: the pieces between
      separators, empty pieces included; an empty string gives `[""]`. */
  function Split(s: string, sep: char): (r: seq<string>)
    ensures |r| >= 1
    ensures forall k :: 0 <= k < |r| ==> sep !in r[k]
    decreases |s|
  {
    if sep !in s then [s]
    else
      var i := FirstIndex(s, sep);
      [s[..i]] + Split(s[i + 1..], sep)
  }

  /** `sep.join(xs)`. */
  function Join(xs: seq<string>, sep: string): string {
    if xs == [] then ""
    else if |xs| == 1 then xs[0]
    else xs[0] + sep + Join(xs[1..], sep)
  }

  /** Splitting on a character and joining with it gives the string back. */
  lemma {:induction false} SplitJoin(s: string, sep: char)
    ensures Join(Split(s, sep), [sep]) == s
    decreases |s|
  {
    if sep in s {
      var i := FirstIndex(s, sep);
      var line, rest := s[..i], s[i + 1..];
      assert s == line + [sep] + rest;
      SplitLine(line, sep, rest);
      SplitJoin(rest, sep);
      var pieces := [line] + Split(rest, sep);
      assert pieces[1..] == Split(rest, sep);
    }
  }

  /** A piece without the separator, then the separator: the first piece of the split. */
  lemma SplitLine(line: string, sep: char, rest: string)
    requires sep !in line
    ensures Split(line + [sep] + rest, sep) == [line] + Split(rest, sep)
  {
    var s := line + [sep] + rest;
    assert s[|line|] == sep;
    var i := FirstIndex(s, sep);
    assert s[..i] == line && s[i + 1..] == rest;
  }

  /** What `strip()` keeps is part of the string, so a character absent from the
      string is absent from it. */
  lemma StripWithout(s: string, c: char)
    requires c !in s
    ensures c !in Strip(s)
  {
    StripFacts(s);
  }

  /** `"".join(parts)`. */
  function Concat(parts: seq<string>): string {
    if parts == [] then "" else parts[0] + Concat(parts[1..])
  }

  lemma {:induction false} ConcatSnoc(parts: seq<string>, part: string)
    ensures Concat(parts + [part]) == Concat(parts) + part
  {
    if parts != [] {
      ConcatSnoc(parts[1..], part);
      assert (parts + [part])[1..] == parts[1..] + [part];
    } else {
      assert [part][1..] == [];
    }
  }

  /** Where the `i`-th part starts in the concatenation. */
  lemma {:induction false} ConcatPart(parts: seq<string>, i: nat)
    requires i < |parts|
    ensures |Concat(parts[..i])| + |parts[i]| <= |Concat(parts)|
    ensures Concat(parts)[|Concat(parts[..i])|..|Concat(parts[..i])| + |parts[i]|] == parts[i]
    decreases i
  {
    var all := Concat(parts);
    assert all == parts[0] + Concat(parts[1..]);
    if i == 0 {
      assert parts[..0] == [];
    } else {
      ConcatPart(parts[1..], i - 1);
      assert parts[..i] == [parts[0]] + parts[1..][..i - 1];
      assert Concat(parts[..i]) == parts[0] + Concat(parts[1..][..i - 1]);
    }
  }

  /** The length of the run of non-whitespace characters `s` starts with. */
  function WordLength(s: string): (n: nat)
    ensures n <= |s|
    ensures forall i :: 0 <= i < n ==> !IsSpace(s[i])
    ensures n < |s| ==> IsSpace(s[n])
  {
    if s == [] || IsSpace(s[0]) then 0 else 1 + WordLength(s[1..])
  }

  /** A non-empty string without whitespace. */
  predicate IsWord(w: string) {
    w != [] && forall i :: 0 <= i < |w| ==> !IsSpace(w[i])
  }

  /** `s.split()`: the maximal runs of non-whitespace characters. */
  function Words(s: string): (r: seq<string>)
    ensures forall w <- r :: IsWord(w)
    ensures r == [] <==> IsBlank(s)
    decreases |s|
  {
    var t := LStrip(s);
    LStripFacts(s);
    if t == [] then []
    else
      assert !IsSpace(s[|s| - |t|]);
      var n := WordLength(t);
      assert n >= 1;
      var w := t[..n];
      assert IsWord(w);
      [w] + Words(t[n..])
  }

  /** The first word is the longest whitespace-free prefix of the line once its
      leading whitespace is dropped, and the other words are the words of what
      follows it. */
  lemma WordsFirst(s: string)
    ensures !IsBlank(s) ==>
      var t, w := LStrip(s), Words(s)[0];
      && w <= t
      && (|w| == |t| || IsSpace(t[|w|]))
      && Words(s)[1..] == Words(t[|w|..])
  {
  }

  predicate IsDigit(c: char) {
    '0' <= c <= '9'
  }

  predicate AllDigits(s: string) {
    forall i :: 0 <= i < |s| ==> IsDigit(s[i])
  }

  function DigitChar(d: nat): (c: char)
    requires d < 10
    ensures IsDigit(c)
  {
    ('0' as int + d) as char
  }

  function DigitValue(c: char): (d: nat)
    requires IsDigit(c)
    ensures d < 10 && DigitChar(d) == c
  {
    c as int - '0' as int
  }

  /** The number a string of decimal digits denotes. */
  function DigitsValue(s: string): nat
    requires AllDigits(s)
  {
    if s == [] then 0 else DigitsValue(s[..|s| - 1]) * 10 + DigitValue(s[|s| - 1])
  }

  /** `str(n)` for a natural number. */
  function NatToString(n: nat): (r: string)
    ensures r != [] && AllDigits(r)
    ensures |r| > 1 ==> r[0] != '0'
  {
    if n < 10 then [DigitChar(n)] else NatToString(n / 10) + [DigitChar(n % 10)]
  }

  /** `int(str(n)) == n`. */
  lemma {:induction false} NatToStringRoundTrip(n: nat)
    ensures DigitsValue(NatToString(n)) == n
  {
    if n >= 10 {
      NatToStringRoundTrip(n / 10);
      var r := NatToString(n);
      assert r[..|r| - 1] == NatToString(n / 10);
    }
  }

  function Pow10(w: nat): (p: nat)
    ensures p >= 1
  {
    if w == 0 then 1 else 10 * Pow10(w - 1)
  }

  /** The last `w` decimal digits of `n`, zero-padded (`%0wd` for `n < 10^w`). */
  function Pad(n: nat, w: nat): (r: string)
    ensures |r| == w && AllDigits(r)
  {
    if w == 0 then "" else Pad(n / 10, w - 1) + [DigitChar(n % 10)]
  }

  /** Zero-padded digits read back give the number. */
  lemma {:induction false} PadRoundTrip(n: nat, w: nat)
    requires n < Pow10(w)
    ensures DigitsValue(Pad(n, w)) == n
  {
    if w > 0 {
      assert n / 10 < Pow10(w - 1);
      PadRoundTrip(n / 10, w - 1);
      var r := Pad(n, w);
      assert r[..|r| - 1] == Pad(n / 10, w - 1);
    }
  }
}
