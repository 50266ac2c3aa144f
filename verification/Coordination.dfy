// How much of a recovery was spent in none of its phases, and how measured
// values are summarised.
//
// Times are whole ticks. A span covers the ticks from its start up to, but not
// including, its finish.

module Coordination {
  import opened Options

  datatype Span = Span(began: int, ended: int)

  predicate Covers(s: Span, t: int) {
    s.began <= t < s.ended
  }

  ghost predicate Covered(spans: seq<Span>, t: int) {
    exists i :: 0 <= i < |spans| && Covers(spans[i], t)
  }

  // The ticks of [lo, hi) that no span covers, and those that some span does.
  ghost function Uncovered(lo: int, hi: int, spans: seq<Span>): nat
    decreases hi - lo
  {
    if hi <= lo then 0 else Uncovered(lo, hi - 1, spans) + if Covered(spans, hi - 1) then 0 else 1
  }

  ghost function Union(lo: int, hi: int, spans: seq<Span>): nat
    decreases hi - lo
  {
    if hi <= lo then 0 else Union(lo, hi - 1, spans) + if Covered(spans, hi - 1) then 1 else 0
  }

  lemma {:induction false} ComplementOfUnion(lo: int, hi: int, spans: seq<Span>)
    requires lo <= hi
    ensures Uncovered(lo, hi, spans) + Union(lo, hi, spans) == hi - lo
    decreases hi - lo
  {
    if lo < hi {
      ComplementOfUnion(lo, hi - 1, spans);
    }
  }

  lemma {:induction false} GapCounts(lo: int, mid: int, hi: int, spans: seq<Span>)
    requires lo <= mid <= hi && forall t :: mid <= t < hi ==> !Covered(spans, t)
    ensures Uncovered(lo, hi, spans) == Uncovered(lo, mid, spans) + hi - mid
    decreases hi - mid
  {
    if mid < hi {
      GapCounts(lo, mid, hi - 1, spans);
    }
  }

  lemma {:induction false} CoveredCountsNothing(lo: int, mid: int, hi: int, spans: seq<Span>)
    requires lo <= mid <= hi && forall t :: mid <= t < hi ==> Covered(spans, t)
    ensures Uncovered(lo, hi, spans) == Uncovered(lo, mid, spans)
    decreases hi - mid
  {
    if mid < hi {
      CoveredCountsNothing(lo, mid, hi - 1, spans);
    }
  }

  lemma {:induction false} SameCover(lo: int, hi: int, a: seq<Span>, b: seq<Span>)
    requires forall t :: Covered(a, t) <==> Covered(b, t)
    ensures Uncovered(lo, hi, a) == Uncovered(lo, hi, b)
    decreases hi - lo
  {
    if lo < hi {
      SameCover(lo, hi - 1, a, b);
    }
  }

  // The order of the spans, or a repetition of one, does not matter.
  lemma OrderDoesNotMatter(lo: int, hi: int, a: seq<Span>, b: seq<Span>)
    requires forall s :: s in a <==> s in b
    ensures Uncovered(lo, hi, a) == Uncovered(lo, hi, b)
  {
    forall t
      ensures Covered(a, t) <==> Covered(b, t)
    {
      if Covered(a, t) {
        var i :| 0 <= i < |a| && Covers(a[i], t);
        assert a[i] in b;
      }
      if Covered(b, t) {
        var i :| 0 <= i < |b| && Covers(b[i], t);
        assert b[i] in a;
      }
    }
    SameCover(lo, hi, a, b);
  }

  // ----- sorting -----

  ghost predicate TotalOrder<T(!new)>(le: (T, T) -> bool) {
    && (forall a, b :: le(a, b) || le(b, a))
    && (forall a, b, c :: le(a, b) && le(b, c) ==> le(a, c))
  }

  ghost predicate Sorted<T>(s: seq<T>, le: (T, T) -> bool) {
    forall i, j :: 0 <= i < j < |s| ==> le(s[i], s[j])
  }

  method Insert<T(!new)>(sorted: seq<T>, x: T, le: (T, T) -> bool) returns (r: seq<T>)
    requires TotalOrder(le) && Sorted(sorted, le)
    ensures Sorted(r, le) && multiset(r) == multiset(sorted) + multiset{x}
  {
    var k := |sorted|;
    while k > 0 && !le(sorted[k - 1], x)
      invariant 0 <= k <= |sorted|
      invariant forall i :: k <= i < |sorted| ==> le(x, sorted[i])
    {
      k := k - 1;
    }
    r := sorted[..k] + [x] + sorted[k..];
    assert sorted == sorted[..k] + sorted[k..];
    InsertedIsSorted(sorted, x, k, le);
  }

  lemma InsertedIsSorted<T(!new)>(sorted: seq<T>, x: T, k: nat, le: (T, T) -> bool)
    requires TotalOrder(le) && Sorted(sorted, le) && k <= |sorted|
    requires forall i :: k <= i < |sorted| ==> le(x, sorted[i])
    requires k > 0 ==> le(sorted[k - 1], x)
    ensures Sorted(sorted[..k] + [x] + sorted[k..], le)
  {
    var r := sorted[..k] + [x] + sorted[k..];
    forall i, j | 0 <= i < j < |r|
      ensures le(r[i], r[j])
    {
      if j == k && i < k - 1 {
        assert le(sorted[i], sorted[k - 1]);
      } else if i < k < j {
        assert le(sorted[i], sorted[j - 1]);
      }
    }
  }

  method Sort<T(!new)>(s: seq<T>, le: (T, T) -> bool) returns (r: seq<T>)
    requires TotalOrder(le)
    ensures Sorted(r, le) && multiset(r) == multiset(s)
  {
    r := [];
    for i := 0 to |s|
      invariant Sorted(r, le) && multiset(r) == multiset(s[..i])
    {
      r := Insert(r, s[i], le);
      assert s[..i + 1] == s[..i] + [s[i]];
    }
    assert s[..|s|] == s;
  }

  // ----- the sweep -----

  predicate Earlier(a: Span, b: Span) {
    a.began < b.began || (a.began == b.began && a.ended <= b.ended)
  }

  predicate Inside(s: Span, start: int, finish: int) {
    start <= s.began <= s.ended <= finish
  }

  function Members(spans: seq<Span>, start: int, finish: int): (r: seq<Span>)
    ensures forall s :: s in r <==> s in spans && start <= s.began <= s.ended <= finish
  {
    if spans == [] then []
    else (if Inside(spans[0], start, finish) then [spans[0]] else []) + Members(spans[1..], start, finish)
  }

  function Max(a: int, b: int): int {
    if a < b then b else a
  }

  // One span further: the gap before it, if any, is in no span at all.
  lemma SweepStep(ordered: seq<Span>, i: nat, start: int, cursor: int)
    requires Sorted(ordered, Earlier) && i < |ordered| && start <= cursor && ordered[i].began <= ordered[i].ended
    requires forall j :: 0 <= j < i ==> ordered[j].ended <= cursor
    ensures Uncovered(start, Max(cursor, ordered[i].ended), ordered)
         == Uncovered(start, cursor, ordered) + Max(0, ordered[i].began - cursor)
  {
    var s := ordered[i];
    var mid := Max(cursor, s.began);
    forall t | cursor <= t < mid
      ensures !Covered(ordered, t)
    {
      forall j | 0 <= j < |ordered|
        ensures !Covers(ordered[j], t)
      {
        assert j > i ==> Earlier(s, ordered[j]);
      }
    }
    GapCounts(start, cursor, mid, ordered);
    if mid <= s.ended {
      forall t | mid <= t < s.ended
        ensures Covered(ordered, t)
      {
        assert Covers(ordered[i], t);
      }
      CoveredCountsNothing(start, mid, s.ended, ordered);
    }
  }

  lemma LastGap(ordered: seq<Span>, start: int, cursor: int, finish: int)
    requires start <= cursor <= finish && forall j :: 0 <= j < |ordered| ==> ordered[j].ended <= cursor
    ensures Uncovered(start, finish, ordered) == Uncovered(start, cursor, ordered) + finish - cursor
  {
    assert forall t :: cursor <= t < finish ==> !Covered(ordered, t);
    GapCounts(start, cursor, finish, ordered);
  }

  // The coordination time of one recovery: exactly the part of its span that
  // none of the phases inside it covers, in whatever order they were recorded
  // and however they overlap. A span that ends before it starts is skipped.
  method CoordinationTime(spans: seq<Span>, start: int, finish: int) returns (r: Option<nat>)
    ensures r.Some? <==> start <= finish
    ensures r.Some? ==> r.value == Uncovered(start, finish, Members(spans, start, finish))
    ensures r.Some? ==> r.value + Union(start, finish, Members(spans, start, finish)) == finish - start
  {
    if finish < start {
      return None;
    }
    var members := Members(spans, start, finish);
    var ordered := Sort(members, Earlier);
    SameMembers(ordered, members);
    var cursor, coordination := start, 0;
    for i := 0 to |ordered|
      invariant start <= cursor <= finish && coordination == Uncovered(start, cursor, ordered)
      invariant forall j :: 0 <= j < i ==> ordered[j].ended <= cursor
    {
      assert ordered[i] in members;
      SweepStep(ordered, i, start, cursor);
      coordination := coordination + Max(0, ordered[i].began - cursor);
      cursor := Max(cursor, ordered[i].ended);
    }
    LastGap(ordered, start, cursor, finish);
    OrderDoesNotMatter(start, finish, ordered, members);
    ComplementOfUnion(start, finish, members);
    return Some(coordination + Max(0, finish - cursor));
  }

  lemma SameMembers<T>(a: seq<T>, b: seq<T>)
    requires multiset(a) == multiset(b)
    ensures forall x :: x in a <==> x in b
  {
    assert forall x :: x in a <==> x in multiset(a);
    assert forall x :: x in b <==> x in multiset(b);
  }

  // ----- summaries -----

  datatype Summary = Summary(n: nat, minimum: int, median: real, p95: int, maximum: int)

  // How many of the values are at most v.
  function AtMost(values: seq<int>, v: int): nat {
    if values == [] then 0 else AtMost(values[..|values| - 1], v) + if values[|values| - 1] <= v then 1 else 0
  }

  lemma {:induction false} AtMostOfMultiset(a: seq<int>, b: seq<int>, v: int)
    requires multiset(a) == multiset(b)
    ensures AtMost(a, v) == AtMost(b, v)
  {
    if a == [] {
      assert |multiset(b)| == 0;
    } else {
      var x := a[|a| - 1];
      assert a == a[..|a| - 1] + [x];
      assert x in multiset(b);
      var i :| 0 <= i < |b| && b[i] == x;
      AtMostWithout(b, i, v);
      assert b == b[..i] + [x] + b[i + 1..];
      assert multiset(a[..|a| - 1]) == multiset(a) - multiset{x};
      assert multiset(b[..i] + b[i + 1..]) == multiset(b) - multiset{x};
      AtMostOfMultiset(a[..|a| - 1], b[..i] + b[i + 1..], v);
    }
  }

  lemma {:induction false} AtMostWithout(b: seq<int>, i: nat, v: int)
    requires i < |b|
    ensures AtMost(b, v) == AtMost(b[..i] + b[i + 1..], v) + if b[i] <= v then 1 else 0
  {
    var n := |b| - 1;
    var without := b[..i] + b[i + 1..];
    if i == n {
      assert without == b[..n];
    } else {
      AtMostWithout(b[..n], i, v);
      assert without[..|without| - 1] == b[..n][..i] + b[..n][i + 1..];
      assert without[|without| - 1] == b[n];
    }
  }

  lemma {:induction false} AtMostSorted(s: seq<int>, k: nat, v: int)
    requires Sorted(s, (a: int, b: int) => a <= b) && k <= |s|
    ensures (forall i :: 0 <= i < k ==> s[i] <= v) ==> AtMost(s, v) >= k
    ensures (forall i :: k <= i < |s| ==> v < s[i]) ==> AtMost(s, v) <= k
  {
    if s != [] {
      var n := |s| - 1;
      AtMostSorted(s[..n], if k == |s| then n else k, v);
    }
  }

  // The two middle values, or twice the one: the least value that at least half
  // of the values do not exceed, and the least that more than half do not.
  ghost predicate Middle(values: seq<int>, lower: int, upper: int) {
    && lower in values && 2 * AtMost(values, lower) >= |values|
    && (forall v :: v in values && v < lower ==> 2 * AtMost(values, v) < |values|)
    && upper in values && 2 * AtMost(values, upper) > |values|
    && (forall v :: v in values && v < upper ==> 2 * AtMost(values, v) <= |values|)
  }

  ghost predicate IsMedian(values: seq<int>, median: real) {
    exists lower, upper :: Middle(values, lower, upper) && median == (lower + upper) as real / 2.0
  }

  // The median is the mean of the middle values; the 95th percentile goes by
  // nearest rank: the least of the values that at least 95 in 100 of them do
  // not exceed.
  method Distribution(values: seq<int>) returns (r: Option<Summary>)
    ensures r.Some? <==> values != [] && forall v :: v in values ==> 0 <= v
    ensures r.Some? ==>
              && r.value.n == |values|
              && r.value.minimum in values && (forall v :: v in values ==> r.value.minimum <= v)
              && r.value.maximum in values && (forall v :: v in values ==> v <= r.value.maximum)
              && IsMedian(values, r.value.median)
              && r.value.p95 in values
              && 100 * AtMost(values, r.value.p95) >= 95 * |values|
              && forall v :: v in values && v < r.value.p95 ==> 100 * AtMost(values, v) < 95 * |values|
  {
    if values == [] {
      return None;
    }
    if i :| 0 <= i < |values| && values[i] < 0 {
      assert values[i] in values;
      return None;
    }
    var ordered := Sort(values, (a: int, b: int) => a <= b);
    var n, k := |ordered|, (95 * |ordered| + 99) / 100 - 1;
    var lower, upper := ordered[(n - 1) / 2], ordered[n / 2];
    assert |multiset(ordered)| == |multiset(values)|;
    Ranked(values, ordered, k);
    MiddleRanks(values, ordered);
    Extremes(values, ordered);
    return Some(Summary(n, ordered[0], (lower + upper) as real / 2.0, ordered[k], ordered[n - 1]));
  }

  lemma Extremes(values: seq<int>, ordered: seq<int>)
    requires multiset(ordered) == multiset(values) && Sorted(ordered, (a: int, b: int) => a <= b) && ordered != []
    ensures ordered[0] in values && ordered[|ordered| - 1] in values
    ensures forall v :: v in values ==> ordered[0] <= v <= ordered[|ordered| - 1]
  {
    SameMembers(ordered, values);
    assert forall v :: v in ordered ==> ordered[0] <= v <= ordered[|ordered| - 1];
  }

  // More than k of the values do not exceed the one of rank k; of a smaller
  // one that is true of k at most.
  lemma Ranked(values: seq<int>, ordered: seq<int>, k: nat)
    requires multiset(ordered) == multiset(values) && Sorted(ordered, (a: int, b: int) => a <= b)
    requires k < |ordered|
    ensures |ordered| == |values| && ordered[k] in values
    ensures AtMost(values, ordered[k]) > k
    ensures forall v :: v in values && v < ordered[k] ==> AtMost(values, v) <= k
  {
    assert |ordered| == |multiset(ordered)| == |multiset(values)| == |values|;
    SameMembers(ordered, values);
    AtMostSorted(ordered, k + 1, ordered[k]);
    AtMostOfMultiset(ordered, values, ordered[k]);
    forall v | v in values && v < ordered[k]
      ensures AtMost(values, v) <= k
    {
      AtMostSorted(ordered, k, v);
      AtMostOfMultiset(ordered, values, v);
    }
  }

  lemma MiddleRanks(values: seq<int>, ordered: seq<int>)
    requires multiset(ordered) == multiset(values) && Sorted(ordered, (a: int, b: int) => a <= b) && ordered != []
    ensures Middle(values, ordered[(|ordered| - 1) / 2], ordered[|ordered| / 2])
  {
    Ranked(values, ordered, (|ordered| - 1) / 2);
    Ranked(values, ordered, |ordered| / 2);
  }
}
