/** Cross-sectional percentiles twice: a Python map from each value to the share of values at or below
    it, and the SQL window `cume_dist() OVER (ORDER BY value) * 100`, where NULLs sort last. */
module Percentiles {
  import opened SqlWindows
  import opened Wrappers

  predicate Ascending(values: seq<real>) { forall i, j :: 0 <= i < j < |values| ==> values[i] <= values[j] }

  /** `ordered` is `sorted(values)`. */
  ghost predicate Sorts(values: seq<real>, ordered: seq<real>)
  {
    Ascending(ordered) && multiset(ordered) == multiset(values)
  }

  function AtMost(values: seq<real>, v: real): nat
  {
    if values == [] then 0 else AtMost(values[..|values| - 1], v) + (if values[|values| - 1] <= v then 1 else 0)
  }

  function Percent(part: nat, whole: nat): real
    requires whole > 0
  {
    part as real / whole as real * 100.0
  }

  /** The dictionary comprehension over the sorted values. */
  method PercentileMap(ordered: seq<real>) returns (percentiles: map<real, real>)
    ensures forall v :: v in percentiles <==> v in ordered
    ensures forall v :: v in ordered ==> percentiles[v] == Percent(AtMost(ordered, v), |ordered|)
  {
    percentiles := map[];
    for i := 0 to |ordered|
      invariant forall v :: v in percentiles <==> v in ordered[..i]
      invariant forall v :: v in percentiles ==> percentiles[v] == Percent(AtMost(ordered, v), |ordered|)
    {
      var count := CountAtMost(ordered, ordered[i]);
      percentiles := percentiles[ordered[i] := Percent(count, |ordered|)];
    }
  }

  method CountAtMost(values: seq<real>, v: real) returns (count: nat)
    ensures count == AtMost(values, v)
  {
    count := 0;
    assert values[..|values|] == values;
    for i := 0 to |values|
      invariant count == AtMost(values[..i], v)
    {
      assert values[..i + 1][..i] == values[..i];
      if values[i] <= v { count := count + 1; }
    }
  }

  // ---- the SQL window ----

  /** `b` sorts at or before `a`'s peers: ascending, NULLS LAST. */
  predicate UpTo(b: Option<real>, a: Option<real>) { a.None? || (b.Some? && b.value <= a.value) }

  predicate SqlOrdered(rows: seq<Option<real>>) { forall i, j :: 0 <= i < j < |rows| ==> UpTo(rows[i], rows[j]) }

  /** Ascending, equal values allowed, the NULLs last. */
  lemma {:induction false} OrderedIs(rows: seq<Option<real>>)
    ensures SqlOrdered(rows) <==>
            forall i, j :: 0 <= i < j < |rows| && rows[j].Some? ==> rows[i].Some? && rows[i].value <= rows[j].value
  {
    if forall i, j :: 0 <= i < j < |rows| && rows[j].Some? ==> rows[i].Some? && rows[i].value <= rows[j].value {
      forall i, j | 0 <= i < j < |rows| ensures UpTo(rows[i], rows[j]) {}
    }
    if SqlOrdered(rows) {
      forall i, j | 0 <= i < j < |rows| && rows[j].Some? ensures rows[i].Some? && rows[i].value <= rows[j].value {
        assert UpTo(rows[i], rows[j]);
      }
    }
  }

  /** One past the last peer of row `i`, counting from row `i` onwards. */
  function PeerEnd(rows: seq<Option<real>>, i: nat, j: nat): (end: nat)
    requires i <= j < |rows| && rows[j] == rows[i]
    ensures j < end <= |rows|
    ensures forall k :: j <= k < end ==> rows[k] == rows[i]
    ensures end < |rows| ==> rows[end] != rows[i]
    decreases |rows| - j
  {
    if j + 1 < |rows| && rows[j + 1] == rows[i] then PeerEnd(rows, i, j + 1) else j + 1
  }

  function CumeDist(rows: seq<Option<real>>, i: nat): real
    requires i < |rows|
  {
    Percent(PeerEnd(rows, i, i), |rows|)
  }

  /** The non-NULL rows come first, in ascending order. */
  lemma {:induction false} KnownIsPrefix(rows: seq<Option<real>>)
    requires SqlOrdered(rows)
    ensures |NonNull(rows)| <= |rows|
    ensures forall i :: 0 <= i < |rows| ==> (i < |NonNull(rows)| <==> rows[i].Some?)
    ensures forall i :: 0 <= i < |NonNull(rows)| ==> rows[i] == Some(NonNull(rows)[i])
    ensures Ascending(NonNull(rows))
  {
    if rows != [] {
      var front, last := rows[..|rows| - 1], |rows| - 1;
      assert forall i :: 0 <= i < last ==> front[i] == rows[i] && UpTo(rows[i], rows[last]);
      KnownIsPrefix(front);
    }
  }

  /** Among ascending values the ones at most `v` are a prefix: counting them finds its end. */
  lemma {:induction false} AtMostIsPrefix(values: seq<real>, v: real, end: nat)
    requires end <= |values|
    requires forall k :: 0 <= k < end ==> values[k] <= v
    requires forall k :: end <= k < |values| ==> values[k] > v
    ensures AtMost(values, v) == end
  {
    if values != [] {
      var front := values[..|values| - 1];
      AtMostIsPrefix(front, v, if end == |values| then end - 1 else end);
    }
  }

  /** The peers of a known row end where the values above it begin. */
  lemma {:induction false} PeersEndAtCount(rows: seq<Option<real>>, i: nat)
    requires SqlOrdered(rows) && i < |rows| && rows[i].Some?
    ensures PeerEnd(rows, i, i) == AtMost(NonNull(rows), rows[i].value)
  {
    KnownIsPrefix(rows);
    var end, known, v := PeerEnd(rows, i, i), NonNull(rows), rows[i].value;
    assert i < |known| && known[i] == v;
    assert end <= |known| by { assert rows[end - 1] == rows[i]; }
    forall k | 0 <= k < end ensures known[k] <= v {
      if k < i { assert UpTo(rows[k], rows[i]); }
    }
    if end < |known| {
      assert UpTo(rows[end - 1], rows[end]) && rows[end] != rows[i];
      forall k | end <= k < |known| ensures known[k] > v {
        if end < k { assert UpTo(rows[end], rows[k]); }
      }
    }
    AtMostIsPrefix(known, v, end);
  }

  lemma {:induction false} PercentRises(part: nat, other: nat, whole: nat)
    requires 0 < whole && part <= other
    ensures Percent(part, whole) <= Percent(other, whole)
    ensures 0 < part ==> 0.0 < Percent(part, whole)
    ensures Percent(whole, whole) == 100.0
  {
    var p, o, w := part as real, other as real, whole as real;
    assert o / w - p / w == (o - p) / w >= 0.0;
  }

  lemma {:induction false} PercentFalls(part: nat, whole: nat, larger: nat)
    requires 0 < part && 0 < whole <= larger
    ensures Percent(part, larger) <= Percent(part, whole)
    ensures Percent(part, larger) == Percent(part, whole) <==> whole == larger
  {
    var p, w, l := part as real, whole as real, larger as real;
    var x, y := p / w, p / l;
    assert x * w == p && y * l == p && y > 0.0;
    if whole < larger {
      assert y * w < y * l;
      assert (x - y) * w > 0.0;
      assert x > y;
    }
  }

  /** For a known value the SQL figure never exceeds the Python one and equals it exactly when the
      partition holds no NULL. The sector query filters NULLs out; the stock query does not. */
  lemma {:induction false} CumeDistEqualsMapExactly(rows: seq<Option<real>>, i: nat)
    requires SqlOrdered(rows) && i < |rows| && rows[i].Some?
    ensures |NonNull(rows)| > 0
    ensures var python := Percent(AtMost(NonNull(rows), rows[i].value), |NonNull(rows)|);
            CumeDist(rows, i) <= python && (CumeDist(rows, i) == python <==> None !in rows)
  {
    KnownIsPrefix(rows);
    PeersEndAtCount(rows, i);
    var end := PeerEnd(rows, i, i);
    PercentFalls(end, |NonNull(rows)|, |rows|);
    if |NonNull(rows)| < |rows| { assert rows[|rows| - 1] == None; }
  }

  /** A NULL row is a peer of every later row: its figure is always 100. */
  lemma {:induction false} NullRanksLast(rows: seq<Option<real>>, i: nat)
    requires SqlOrdered(rows) && i < |rows| && rows[i].None?
    ensures CumeDist(rows, i) == 100.0
  {
    KnownIsPrefix(rows);
    var end := PeerEnd(rows, i, i);
    assert end == |rows|;
    PercentRises(0, |rows|, |rows|);
  }

  lemma {:induction false} AtMostBounds(values: seq<real>, v: real, w: real)
    requires v <= w
    ensures AtMost(values, v) <= AtMost(values, w) <= |values|
    ensures v in values ==> AtMost(values, v) > 0
    ensures (forall x :: x in values ==> x <= v) ==> AtMost(values, v) == |values|
  {
    if values != [] {
      var front := values[..|values| - 1];
      assert values == front + [values[|values| - 1]];
      AtMostBounds(front, v, w);
      assert forall x :: x in front ==> x in values;
      assert values[|values| - 1] in values;
    }
  }

  lemma {:induction false} AtMostOfMultiset(values: seq<real>, ordered: seq<real>, v: real)
    requires multiset(values) == multiset(ordered)
    ensures AtMost(values, v) == AtMost(ordered, v) && |values| == |ordered|
    decreases |values|
  {
    assert |multiset(values)| == |multiset(ordered)|;
    if values != [] {
      var last := values[|values| - 1];
      var front := values[..|values| - 1];
      assert values == front + [last];
      assert last in multiset(ordered);
      var i :| 0 <= i < |ordered| && ordered[i] == last;
      var rest := ordered[..i] + ordered[i + 1..];
      assert ordered == ordered[..i] + [last] + ordered[i + 1..];
      AtMostWithout(ordered, i, v);
      assert multiset(front) == multiset(values) - multiset{last};
      assert multiset(rest) == multiset(ordered) - multiset{last};
      AtMostOfMultiset(front, rest, v);
    }
  }

  lemma {:induction false} AtMostWithout(values: seq<real>, i: nat, v: real)
    requires i < |values|
    ensures AtMost(values, v) == AtMost(values[..i] + values[i + 1..], v) + (if values[i] <= v then 1 else 0)
  {
    var rest := values[..i] + values[i + 1..];
    if i == |values| - 1 {
      assert rest == values[..i];
    } else {
      var front := values[..|values| - 1];
      AtMostWithout(front, i, v);
      assert rest[..|rest| - 1] == front[..i] + front[i + 1..];
      assert rest[|rest| - 1] == values[|values| - 1];
    }
  }

  /** What the percentile map means for the unsorted values: it depends on neither their order nor the
      way they were sorted, lies in (0, 100], never falls as the value rises, and is 100 at the top. */
  lemma {:induction false} PercentileMeaning(values: seq<real>, ordered: seq<real>, v: real, w: real)
    requires Sorts(values, ordered) && v in ordered && v <= w
    ensures |ordered| == |values| > 0 && AtMost(ordered, v) == AtMost(values, v)
    ensures 0.0 < Percent(AtMost(ordered, v), |ordered|) <= Percent(AtMost(ordered, w), |ordered|) <= 100.0
    ensures v == ordered[|ordered| - 1] ==> Percent(AtMost(ordered, v), |ordered|) == 100.0
  {
    AtMostOfMultiset(values, ordered, v);
    AtMostBounds(ordered, v, w);
    AtMostBounds(ordered, w, w);
    PercentRises(AtMost(ordered, v), AtMost(ordered, w), |ordered|);
    PercentRises(AtMost(ordered, w), |ordered|, |ordered|);
    if v == ordered[|ordered| - 1] {
      forall x | x in ordered ensures x <= v {
        var i :| 0 <= i < |ordered| && ordered[i] == x;
      }
    }
  }

  // ----- the figures as counts

  ghost function IndicesAtMost(values: seq<real>, v: real): set<int> { set i | 0 <= i < |values| && values[i] <= v }

  lemma {:induction false} AtMostCounts(values: seq<real>, v: real)
    ensures AtMost(values, v) == |IndicesAtMost(values, v)|
  {
    if values != [] {
      var front, n := values[..|values| - 1], |values| - 1;
      AtMostCounts(front, v);
      var last := if values[n] <= v then {n} else {};
      forall i ensures i in IndicesAtMost(values, v) <==> i in IndicesAtMost(front, v) + last {
        if 0 <= i < n { assert values[i] == front[i]; }
      }
      assert IndicesAtMost(values, v) == IndicesAtMost(front, v) + last;
    }
  }

  /** The figure of a value is the number of values at or below it, in percent of all. */
  lemma {:induction false} PercentileCounts(values: seq<real>, v: real)
    requires values != []
    ensures Percent(AtMost(values, v), |values|) * (|values| as real) == 100.0 * (|IndicesAtMost(values, v)| as real)
  {
    AtMostCounts(values, v);
    PercentTimes(AtMost(values, v), |values|);
  }

  lemma {:induction false} PercentTimes(part: nat, whole: nat)
    requires whole > 0
    ensures Percent(part, whole) * (whole as real) == 100.0 * (part as real)
  {
    var q := part as real / whole as real;
    assert q * whole as real == part as real;
    assert (q * 100.0) * whole as real == 100.0 * (q * whole as real);
  }
}
