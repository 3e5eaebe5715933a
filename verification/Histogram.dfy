/** Fixed-bucket latency histograms and the quantiles read off them. */
module Histogram {
  import opened Reals
  import opened Wrappers

  datatype Bound = Finite(ms: real) | Infinity

  /** One exposed bucket: how many observations are at most `le`, or all of them for no edge. */
  datatype Row = Row(le: Option<real>, cumulative: nat)

  predicate Increasing(edges: seq<real>) {
    forall i, j :: 0 <= i < j < |edges| ==> edges[i] < edges[j]
  }

  /** The first bucket whose edge is not below the value; past the end when there is none. */
  function Position(edges: seq<real>, ms: real): (i: nat)
    ensures i <= |edges| && (i < |edges| ==> ms <= edges[i])
    ensures forall k :: 0 <= k < i ==> edges[k] < ms
  {
    if edges == [] || ms <= edges[0] then 0 else 1 + Position(edges[1..], ms)
  }

  function Micros(ms: real): nat {
    if ms <= 0.0 then 0 else (ms * 1000.0).Floor
  }

  /** The observations that fell into bucket `i`. */
  function Landed(edges: seq<real>, seen: seq<real>, i: nat): nat {
    if seen == [] then 0
    else Landed(edges, seen[..|seen| - 1], i) + if Position(edges, seen[|seen| - 1]) == i then 1 else 0
  }

  /** The observations not above `edge`. */
  function AtMost(seen: seq<real>, edge: real): (n: nat)
    ensures n <= |seen|
  {
    if seen == [] then 0 else AtMost(seen[..|seen| - 1], edge) + if seen[|seen| - 1] <= edge then 1 else 0
  }

  function SumMicros(seen: seq<real>): nat {
    if seen == [] then 0 else SumMicros(seen[..|seen| - 1]) + Micros(seen[|seen| - 1])
  }

  /** The observations at most edge `i`, or all of them past the last edge. */
  function Covered(edges: seq<real>, seen: seq<real>, i: nat): nat {
    if i < |edges| then AtMost(seen, edges[i]) else |seen|
  }

  lemma {:induction false} CoveredGrows(edges: seq<real>, seen: seq<real>, i: nat)
    requires Increasing(edges) && i <= |edges|
    ensures Covered(edges, seen, i) == (if i == 0 then 0 else Covered(edges, seen, i - 1)) + Landed(edges, seen, i)
  {
    if seen != [] {
      CoveredGrows(edges, seen[..|seen| - 1], i);
    }
  }

  function Ceiling(x: real): int { if x.Floor as real == x then x.Floor else x.Floor + 1 }

  /** The rank the quantile looks for. A negative one is cast to zero. */
  function Rank(total: nat, q: real): nat {
    var ceiling := Ceiling(total as real * q);
    if ceiling < 0 then 0 else ceiling
  }

  /** `r` is the first edge that covers `rank` observations, or infinity when no edge does. */
  predicate FirstCovering(edges: seq<real>, seen: seq<real>, rank: nat, r: Bound) {
    match r
    case Finite(ms) =>
      exists i :: 0 <= i < |edges| && ms == edges[i] && rank <= AtMost(seen, edges[i]) &&
                  forall k :: 0 <= k < i ==> AtMost(seen, edges[k]) < rank
    case Infinity => forall k :: 0 <= k < |edges| ==> AtMost(seen, edges[k]) < rank
  }

  class Histogram {
    const buckets: seq<real>
    var counts: seq<nat>
    var sumMicros: nat
    var count: nat
    ghost var seen: seq<real>

    ghost predicate Valid()
      reads this
    {
      && Increasing(buckets)
      && |counts| == |buckets| + 1
      && (forall i :: 0 <= i <= |buckets| ==> counts[i] == Landed(buckets, seen, i))
      && sumMicros == SumMicros(seen)
      && count == |seen|
    }

    constructor (edges: seq<real>)
      requires Increasing(edges)
      ensures Valid() && buckets == edges && seen == []
    {
      buckets := edges;
      counts := seq(|edges| + 1, _ => 0);
      sumMicros := 0;
      count := 0;
      seen := [];
    }

    method Observe(ms: real)
      requires Valid()
      modifies this
      ensures Valid() && seen == old(seen) + [ms]
    {
      var index := Position(buckets, ms);
      counts := counts[index := counts[index] + 1];
      sumMicros := sumMicros + Micros(ms);
      count := count + 1;
      seen := seen + [ms];
      assert seen[..|seen| - 1] == old(seen);
    }

    /** Each row counts exactly the observations at most its edge, and the last one all of them. */
    method Render() returns (rows: seq<Row>, sum: nat, total: nat)
      requires Valid()
      ensures |rows| == |buckets| + 1
      ensures forall i :: 0 <= i < |buckets| ==> rows[i] == Row(Some(buckets[i]), AtMost(seen, buckets[i]))
      ensures rows[|buckets|] == Row(None, |seen|)
      ensures sum == SumMicros(seen) && total == |seen|
    {
      rows := [];
      var cumulative := 0;
      for i := 0 to |buckets|
        invariant |rows| == i
        invariant forall k :: 0 <= k < i ==> rows[k] == Row(Some(buckets[k]), AtMost(seen, buckets[k]))
        invariant cumulative == if i == 0 then 0 else Covered(buckets, seen, i - 1)
      {
        CoveredGrows(buckets, seen, i);
        cumulative := cumulative + counts[i];
        rows := rows + [Row(Some(buckets[i]), cumulative)];
      }
      CoveredGrows(buckets, seen, |buckets|);
      cumulative := cumulative + counts[|buckets|];
      rows := rows + [Row(None, cumulative)];
      sum, total := sumMicros, count;
    }

    /** The first edge that covers the wanted rank. */
    method Quantile(q: real) returns (r: Bound)
      requires Valid()
      ensures |seen| == 0 ==> r == Finite(0.0)
      ensures |seen| > 0 ==> FirstCovering(buckets, seen, Rank(|seen|, q), r)
    {
      if count == 0 {
        return Finite(0.0);
      }
      var target := Rank(count, q);
      var cumulative := 0;
      for i := 0 to |buckets|
        invariant cumulative == if i == 0 then 0 else Covered(buckets, seen, i - 1)
        invariant forall k :: 0 <= k < i ==> AtMost(seen, buckets[k]) < target
      {
        CoveredGrows(buckets, seen, i);
        cumulative := cumulative + counts[i];
        if cumulative >= target {
          return Finite(buckets[i]);
        }
      }
      return Infinity;
    }
  }

  // ---------------------------------------------------------------------------------------
  // Laws
  // ---------------------------------------------------------------------------------------

  predicate Ascending(s: seq<real>) {
    forall i, j :: 0 <= i < j < |s| ==> s[i] <= s[j]
  }

  /** `r` is the smallest edge at or above `ms`, or infinity when every edge is below it. */
  predicate SmallestEdgeAbove(edges: seq<real>, ms: real, r: Bound) {
    match r
    case Finite(edge) => edge in edges && ms <= edge && forall e :: e in edges && ms <= e ==> edge <= e
    case Infinity => forall e :: e in edges ==> e < ms
  }

  lemma {:induction false} AtMostRemoves(seen: seq<real>, i: nat, edge: real)
    requires i < |seen|
    ensures AtMost(seen, edge) == AtMost(seen[..i] + seen[i + 1..], edge) + if seen[i] <= edge then 1 else 0
  {
    var n := |seen| - 1;
    if i == n {
      assert seen[..i] + seen[i + 1..] == seen[..n];
    } else {
      AtMostRemoves(seen[..n], i, edge);
      var rest := seen[..i] + seen[i + 1..];
      assert rest[..|rest| - 1] == seen[..n][..i] + seen[..n][i + 1..];
    }
  }

  lemma MultisetRemoves(s: seq<real>, i: nat)
    requires i < |s|
    ensures multiset(s[..i] + s[i + 1..]) == multiset(s) - multiset{s[i]}
  {
    assert s == s[..i] + [s[i]] + s[i + 1..];
  }

  /** Counting ignores the order of the observations. */
  lemma {:induction false} AtMostOfPermutation(a: seq<real>, b: seq<real>, edge: real)
    requires multiset(a) == multiset(b)
    ensures AtMost(a, edge) == AtMost(b, edge)
  {
    if a == [] {
      assert |multiset(b)| == 0;
    } else {
      var n := |a| - 1;
      assert a[n] in multiset(b);
      var i :| 0 <= i < |b| && b[i] == a[n];
      MultisetRemoves(a, n);
      MultisetRemoves(b, i);
      assert a[..n] + a[n + 1..] == a[..n];
      AtMostOfPermutation(a[..n], b[..i] + b[i + 1..], edge);
      AtMostRemoves(b, i, edge);
    }
  }

  /** In ascending order, an edge covers `rank` observations exactly when it covers the `rank`-th. */
  lemma {:induction false} CoversRank(ordered: seq<real>, rank: nat, edge: real)
    requires Ascending(ordered) && 1 <= rank <= |ordered|
    ensures AtMost(ordered, edge) >= rank <==> ordered[rank - 1] <= edge
  {
    var n := |ordered| - 1;
    if rank <= n {
      CoversRank(ordered[..n], rank, edge);
    } else if ordered[n] <= edge {
      AllCovered(ordered, edge);
    }
  }

  lemma {:induction false} AllCovered(seen: seq<real>, edge: real)
    requires forall i :: 0 <= i < |seen| ==> seen[i] <= edge
    ensures AtMost(seen, edge) == |seen|
  {
    if seen != [] {
      AllCovered(seen[..|seen| - 1], edge);
    }
  }

  lemma CeilingInRange(x: real, n: nat)
    requires 0.0 < x <= n as real
    ensures 1 <= Ceiling(x) <= n && (Ceiling(x) - 1) as real < x <= Ceiling(x) as real
  {
  }

  lemma RankInRange(total: nat, q: real)
    requires total > 0 && 0.0 < q <= 1.0
    ensures 1 <= Rank(total, q) <= total
    ensures (Rank(total, q) - 1) as real < total as real * q <= Rank(total, q) as real
  {
    ScaledDown(total as real, q);
    CeilingInRange(total as real * q, total);
  }

  /** What `Quantile` returns is the smallest edge at or above the observation of rank
      ceiling(q * n), in whatever order the observations came, or infinity if all edges are below. */
  lemma QuantileIsSmallestEdge(edges: seq<real>, seen: seq<real>, ordered: seq<real>, q: real, r: Bound)
    requires Increasing(edges) && seen != [] && 0.0 < q <= 1.0
    requires Ascending(ordered) && multiset(ordered) == multiset(seen)
    requires FirstCovering(edges, seen, Rank(|seen|, q), r)
    ensures 1 <= Rank(|seen|, q) <= |seen| == |ordered|
    ensures SmallestEdgeAbove(edges, ordered[Rank(|seen|, q) - 1], r)
  {
    assert |multiset(ordered)| == |ordered| && |multiset(seen)| == |seen|;
    RankInRange(|seen|, q);
    var rank := Rank(|seen|, q);
    forall k | 0 <= k < |edges|
      ensures rank <= AtMost(seen, edges[k]) <==> ordered[rank - 1] <= edges[k]
    {
      AtMostOfPermutation(ordered, seen, edges[k]);
      CoversRank(ordered, rank, edges[k]);
    }
  }

  function SumMs(seen: seq<real>): real {
    if seen == [] then 0.0
    else SumMs(seen[..|seen| - 1]) + if seen[|seen| - 1] <= 0.0 then 0.0 else seen[|seen| - 1]
  }

  /** The sum is kept in whole microseconds: it never exceeds that of the observations, and falls short of it by less
      than one for each. */
  lemma {:induction false} SumWithinCount(seen: seq<real>)
    ensures var exact := SumMs(seen) * 1000.0;
            SumMicros(seen) as real <= exact && exact - SumMicros(seen) as real <= |seen| as real
  {
    if seen != [] {
      SumWithinCount(seen[..|seen| - 1]);
    }
  }
}
