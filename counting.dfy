/** Days, and counters keyed by day or by sender: Python's `Counter` and `defaultdict(int)`
    as a map from key to count, the sum of a counter's values, `sorted()` of
    a set of day numbers, and the series of an activity chart. */
module Counting {

  const SecondsPerDay: int := 86400

  /** The `'%Y-%m-%d'` day of an instant in UTC (seconds since the epoch), as a
      day number: two instants share a day key exactly when they share a day
      number, and day keys sort as day numbers do. */
  function Day(t: int): int {
    t / SecondsPerDay
  }

  /** The three aligned series an activity chart is drawn from: a label, a
      message count and a participant count per day. */
  datatype Chart = Chart(labels: seq<string>, messageCounts: seq<nat>, participantCounts: seq<nat>)

  lemma SubsetCardinality<T>(a: set<T>, b: set<T>)
    requires a <= b
    ensures |a| <= |b|
  {
    assert b == a + (b - a);
  }

  /** How many times `x` occurs in `xs`. */
  function Occurrences<T(==)>(xs: seq<T>, x: T): nat {
    if xs == [] then 0
    else Occurrences(xs[..|xs| - 1], x) + (if xs[|xs| - 1] == x then 1 else 0)
  }

  lemma {:induction false} OccurrencesPositive<T>(xs: seq<T>, x: T)
    ensures Occurrences(xs, x) > 0 <==> x in xs
  {
    if xs != [] {
      OccurrencesPositive(xs[..|xs| - 1], x);
      assert xs == xs[..|xs| - 1] + [xs[|xs| - 1]];
    }
  }

  lemma OccurrencesSnoc<T>(xs: seq<T>, y: T, x: T)
    ensures Occurrences(xs + [y], x) == Occurrences(xs, x) + (if y == x then 1 else 0)
  {
    assert (xs + [y])[..|xs|] == xs;
  }

  /** The counter a loop builds by doing `count[x] += 1` for each `x` of `xs`. */
  function Histogram<T(==)>(xs: seq<T>): (h: map<T, nat>)
    ensures h.Keys == set x | x in xs
  {
    map x | x in xs :: Occurrences(xs, x)
  }

  /** One more `count[x] += 1` on a counter (a missing key counts as zero). */
  function Bump<T>(h: map<T, nat>, x: T): (h': map<T, nat>)
    ensures h'.Keys == h.Keys + {x}
  {
    h[x := (if x in h then h[x] else 0) + 1]
  }

  /** Counting one more element bumps its count and no other. */
  lemma HistogramSnoc<T>(xs: seq<T>, x: T)
    ensures Histogram(xs + [x]) == Bump(Histogram(xs), x)
  {
    var h, h' := Histogram(xs), Histogram(xs + [x]);
    forall y | y in h'
      ensures h'[y] == Bump(h, x)[y]
    {
      OccurrencesSnoc(xs, x, y);
      OccurrencesPositive(xs, y);
    }
  }

  /** The sum of the values of a counter, `sum(counter.values())`. */
  ghost function SumValues<K>(m: map<K, nat>): nat
    decreases |m|
  {
    if m == map[] then 0
    else
      var k :| k in m;
      m[k] + SumValues(m - {k})
  }

  /** The sum does not depend on which key is taken out first. */
  lemma {:induction false} SumValuesRemove<K>(m: map<K, nat>, k: K)
    requires k in m
    ensures SumValues(m) == m[k] + SumValues(m - {k})
    decreases |m|
  {
    var j :| j in m && SumValues(m) == m[j] + SumValues(m - {j});
    if j != k {
      SumValuesRemove(m - {j}, k);
      SumValuesRemove(m - {k}, j);
      assert m - {j} - {k} == m - {k} - {j};
    }
  }

  /** Bumping a counter adds one to its sum. */
  lemma SumValuesBump<K>(m: map<K, nat>, x: K)
    ensures SumValues(Bump(m, x)) == SumValues(m) + 1
  {
    var b := Bump(m, x);
    SumValuesRemove(b, x);
    if x in m {
      SumValuesRemove(m, x);
      assert b - {x} == m - {x};
    } else {
      assert b - {x} == m;
    }
  }

  /** The counts of a histogram add up to the number of elements counted. */
  lemma {:induction false} HistogramSum<T>(xs: seq<T>)
    ensures SumValues(Histogram(xs)) == |xs|
  {
    if xs == [] {
      assert Histogram(xs) == map[];
    } else {
      var init, x := xs[..|xs| - 1], xs[|xs| - 1];
      assert xs == init + [x];
      HistogramSum(init);
      HistogramSnoc(init, x);
      SumValuesBump(Histogram(init), x);
    }
  }

  /** Strictly increasing. */
  predicate Increasing(s: seq<int>) {
    forall i, j :: 0 <= i < j < |s| ==> s[i] < s[j]
  }

  /** Some element of a non-empty set. */
  lemma Elem(s: set<int>) returns (y: int)
    requires s != {}
    ensures y in s
  {
    if forall x :: x !in s {
      assert false;
    }
    y :| y in s;
  }

  /** `m` is the least element of `s`. */
  predicate IsMinimum(m: int, s: set<int>) {
    m in s && forall x :: x in s ==> m <= x
  }

  lemma {:induction false} MinimumExists(s: set<int>)
    requires s != {}
    ensures exists m :: IsMinimum(m, s)
    decreases |s|
  {
    var y := Elem(s);
    if s == {y} {
      assert IsMinimum(y, s);
    } else {
      var rest := s - {y};
      MinimumExists(rest);
      var m :| IsMinimum(m, rest);
      var low := if y < m then y else m;
      forall x | x in s
        ensures low <= x
      {
        if x != y {
          assert x in rest;
        }
      }
      assert IsMinimum(low, s);
    }
  }

  lemma MinimumUnique(s: set<int>)
    ensures forall a, b :: IsMinimum(a, s) && IsMinimum(b, s) ==> a == b
  {
  }

  /** `sorted(s)` for a set of day numbers. */
  function SortedSeq(s: set<int>): (r: seq<int>)
    ensures Increasing(r)
    ensures forall x :: x in r <==> x in s
    ensures |r| == |s|
    decreases |s|
  {
    if s == {} then []
    else
      MinimumExists(s);
      MinimumUnique(s);
      var m :| IsMinimum(m, s);
      var rest := SortedSeq(s - {m});
      assert forall i :: 0 <= i < |rest| ==> m < rest[i];
      [m] + rest
  }
}
