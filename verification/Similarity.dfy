/** Cosine similarity over the reals, and the nearest-neighbour search of the semantic cache.
    The square root is a parameter: all that matters is that it is one. */
module Similarity {
  import opened Reals
  import opened Wrappers

  /** The gap between 1 and the next 32-bit float, 2 to the power of minus 23. */
  const EPSILON: real := 1.0 / 8_388_608.0

  predicate RootOf(root: real, square: real) { root >= 0.0 && root * root == square }

  ghost predicate IsSqrt(sqrt: real -> real) { forall x :: x >= 0.0 ==> RootOf(sqrt(x), x) }

  function Dot(a: seq<real>, b: seq<real>): real
    requires |a| == |b|
  {
    if a == [] then 0.0 else Dot(a[..|a| - 1], b[..|b| - 1]) + a[|a| - 1] * b[|b| - 1]
  }

  function SquaredNorm(a: seq<real>): real { Dot(a, a) }

  predicate Comparable(a: seq<real>, b: seq<real>) {
    |a| == |b| && SquaredNorm(a) > EPSILON && SquaredNorm(b) > EPSILON
  }

  /** The cosine of the angle between two vectors, or zero where there is none to speak of. */
  function Cosine(sqrt: real -> real, a: seq<real>, b: seq<real>): real
    requires IsSqrt(sqrt)
  {
    if Comparable(a, b) then
      NormsArePositive(sqrt, a, b);
      Dot(a, b) / (sqrt(SquaredNorm(a)) * sqrt(SquaredNorm(b)))
    else 0.0
  }

  lemma RootIsPositive(root: real, square: real)
    requires RootOf(root, square) && square > 0.0
    ensures root > 0.0
  {
  }

  lemma NormsArePositive(sqrt: real -> real, a: seq<real>, b: seq<real>)
    requires IsSqrt(sqrt) && Comparable(a, b)
    ensures sqrt(SquaredNorm(a)) * sqrt(SquaredNorm(b)) > 0.0
  {
    RootIsPositive(sqrt(SquaredNorm(a)), SquaredNorm(a));
    RootIsPositive(sqrt(SquaredNorm(b)), SquaredNorm(b));
  }

  function Clamp(x: real): real { if x < -1.0 then -1.0 else if x > 1.0 then 1.0 else x }

  /** One pass over both vectors. Over the reals the final clamp changes nothing. */
  method CosineSimilarity(sqrt: real -> real, a: seq<real>, b: seq<real>) returns (similarity: real)
    requires IsSqrt(sqrt)
    ensures similarity == Cosine(sqrt, a, b) && -1.0 <= similarity <= 1.0
  {
    if |a| != |b| || |a| == 0 {
      return 0.0;
    }
    var dot, normA, normB := 0.0, 0.0, 0.0;
    for i := 0 to |a|
      invariant dot == Dot(a[..i], b[..i]) && normA == SquaredNorm(a[..i]) && normB == SquaredNorm(b[..i])
    {
      DotStep(a, b, i);
      DotStep(a, a, i);
      DotStep(b, b, i);
      dot := dot + a[i] * b[i];
      normA := normA + a[i] * a[i];
      normB := normB + b[i] * b[i];
    }
    assert a[..|a|] == a && b[..|b|] == b;
    if normA <= EPSILON || normB <= EPSILON {
      return 0.0;
    }
    CosineIsBounded(sqrt, a, b);
    NormsArePositive(sqrt, a, b);
    assert Cosine(sqrt, a, b) == dot / (sqrt(normA) * sqrt(normB));
    similarity := Clamp(dot / (sqrt(normA) * sqrt(normB)));
  }

  lemma DotStep(a: seq<real>, b: seq<real>, i: nat)
    requires |a| == |b| && i < |a|
    ensures Dot(a[..i + 1], b[..i + 1]) == Dot(a[..i], b[..i]) + a[i] * b[i]
  {
    assert a[..i + 1][..i] == a[..i] && b[..i + 1][..i] == b[..i];
  }

  // ---------------------------------------------------------------------------------------
  // Laws of the cosine
  // ---------------------------------------------------------------------------------------

  /** How far `a` is from `t` times `b`, squared. */
  function Residual(a: seq<real>, b: seq<real>, t: real): (r: real)
    requires |a| == |b|
    ensures r >= 0.0
  {
    if a == [] then 0.0
    else
      var gap := a[|a| - 1] - t * b[|b| - 1];
      SquareNonNegative(gap);
      Residual(a[..|a| - 1], b[..|b| - 1], t) + gap * gap
  }

  lemma SquareNonNegative(x: real)
    ensures x * x >= 0.0
  {
  }

  lemma ExpandGap(x: real, y: real, t: real)
    ensures (x - t * y) * (x - t * y) == x * x - 2.0 * t * (x * y) + t * t * (y * y)
  {
  }

  lemma Collect(t: real, dot: real, xy: real, norm: real, yy: real)
    ensures 2.0 * t * (dot + xy) == 2.0 * t * dot + 2.0 * t * xy
    ensures t * t * (norm + yy) == t * t * norm + t * t * yy
  {
  }

  lemma {:induction false} ResidualExpands(a: seq<real>, b: seq<real>, t: real)
    requires |a| == |b|
    ensures Residual(a, b, t) == SquaredNorm(a) - 2.0 * t * Dot(a, b) + t * t * SquaredNorm(b)
  {
    if a != [] {
      var n := |a| - 1;
      var x, y := a[n], b[n];
      ResidualExpands(a[..n], b[..n], t);
      ExpandGap(x, y, t);
      Collect(t, Dot(a[..n], b[..n]), x * y, SquaredNorm(b[..n]), y * y);
    }
  }

  /** The least residual, at the projection of `a` on `b`. */
  lemma LeastResidual(a: seq<real>, b: seq<real>)
    requires |a| == |b| && SquaredNorm(b) > 0.0
    ensures Residual(a, b, Dot(a, b) / SquaredNorm(b)) * SquaredNorm(b) ==
            SquaredNorm(a) * SquaredNorm(b) - Dot(a, b) * Dot(a, b)
  {
    var t := Dot(a, b) / SquaredNorm(b);
    ResidualExpands(a, b, t);
    ProjectionAlgebra(SquaredNorm(a), Dot(a, b), SquaredNorm(b), t);
  }

  lemma ProjectionAlgebra(normA: real, dot: real, normB: real, t: real)
    requires normB > 0.0 && t == dot / normB
    ensures (normA - 2.0 * t * dot + t * t * normB) * normB == normA * normB - dot * dot
  {
    assert t * normB == dot;
    assert t * t * normB == t * (t * normB) == t * dot;
    assert (normA - t * dot) * normB == normA * normB - (t * normB) * dot;
  }

  lemma {:induction false} NormNonNegative(a: seq<real>)
    ensures SquaredNorm(a) >= 0.0
    ensures SquaredNorm(a) == 0.0 ==> forall i :: 0 <= i < |a| ==> a[i] == 0.0
  {
    if a != [] {
      var n := |a| - 1;
      NormNonNegative(a[..n]);
      ZeroSquare(a[n]);
      assert forall i :: 0 <= i < n ==> a[..n][i] == a[i];
    }
  }

  lemma {:induction false} DotWithZero(a: seq<real>, b: seq<real>)
    requires |a| == |b| && forall i :: 0 <= i < |b| ==> b[i] == 0.0
    ensures Dot(a, b) == 0.0
  {
    if a != [] {
      DotWithZero(a[..|a| - 1], b[..|b| - 1]);
    }
  }

  /** The Cauchy-Schwarz inequality, for vectors of any length. */
  lemma CauchySchwarz(a: seq<real>, b: seq<real>)
    requires |a| == |b|
    ensures Dot(a, b) * Dot(a, b) <= SquaredNorm(a) * SquaredNorm(b)
  {
    NormNonNegative(b);
    if SquaredNorm(b) > 0.0 {
      LeastResidual(a, b);
      ProductNonNegative(Residual(a, b, Dot(a, b) / SquaredNorm(b)), SquaredNorm(b));
    } else {
      DotWithZero(a, b);
    }
  }

  lemma SquaresOrder(x: real, y: real)
    requires y >= 0.0 && x * x <= y * y
    ensures -y <= x <= y
  {
    if x > y {
      SquareGrows(x, y);
    } else if -x > y {
      SquareGrows(-x, y);
    }
  }

  lemma SquareGrows(x: real, y: real)
    requires x > y >= 0.0
    ensures x * x > y * y
  {
    assert x * x - y * y == (x - y) * (x + y);
    ProductPositive(x - y, x + y);
  }

  lemma ZeroSquare(x: real)
    ensures x * x >= 0.0 && (x * x == 0.0 ==> x == 0.0)
  {
    if x != 0.0 {
      SquareGrows(if x > 0.0 then x else -x, 0.0);
    }
  }

  lemma RootsMultiply(rootA: real, a: real, rootB: real, b: real)
    requires RootOf(rootA, a) && RootOf(rootB, b)
    ensures RootOf(rootA * rootB, a * b)
  {
    assert (rootA * rootB) * (rootA * rootB) == (rootA * rootA) * (rootB * rootB);
  }

  /** `c` has the sign of the dot product, and its square is that of the dot product over both squared norms. */
  predicate IsCosine(c: real, dot: real, squares: real) {
    c * c * squares == dot * dot && (c > 0.0 <==> dot > 0.0)
  }

  lemma SquareOfProduct(c: real, dot: real, norms: real, squares: real)
    requires norms > 0.0 && c * norms == dot && norms * norms == squares
    ensures IsCosine(c, dot, squares)
  {
    Scale(c, 0.0, norms);
    assert c * c * (norms * norms) == c * norms * (c * norms);
  }

  lemma CosineOfComparable(sqrt: real -> real, a: seq<real>, b: seq<real>, norms: real)
    requires IsSqrt(sqrt) && Comparable(a, b) && norms == sqrt(SquaredNorm(a)) * sqrt(SquaredNorm(b))
    ensures IsCosine(Cosine(sqrt, a, b), Dot(a, b), SquaredNorm(a) * SquaredNorm(b))
  {
    NormsArePositive(sqrt, a, b);
    RootsMultiply(sqrt(SquaredNorm(a)), SquaredNorm(a), sqrt(SquaredNorm(b)), SquaredNorm(b));
    Quotient(Dot(a, b), norms);
    SquareOfProduct(Cosine(sqrt, a, b), Dot(a, b), norms, SquaredNorm(a) * SquaredNorm(b));
  }

  /** Vectors of the same length whose squared norms are above 2^-23 have the cosine of their angle as similarity; all
      others have none. */
  lemma CosineMeans(sqrt: real -> real, a: seq<real>, b: seq<real>)
    requires IsSqrt(sqrt)
    ensures if |a| == |b| && SquaredNorm(a) * 8_388_608.0 > 1.0 && SquaredNorm(b) * 8_388_608.0 > 1.0
            then IsCosine(Cosine(sqrt, a, b), Dot(a, b), SquaredNorm(a) * SquaredNorm(b))
            else Cosine(sqrt, a, b) == 0.0
  {
    if Comparable(a, b) {
      CosineOfComparable(sqrt, a, b, sqrt(SquaredNorm(a)) * sqrt(SquaredNorm(b)));
    } else {
      assert Cosine(sqrt, a, b) == 0.0;
    }
  }

  lemma CosineIsBounded(sqrt: real -> real, a: seq<real>, b: seq<real>)
    requires IsSqrt(sqrt)
    ensures -1.0 <= Cosine(sqrt, a, b) <= 1.0
  {
    if Comparable(a, b) {
      var rootA, rootB := sqrt(SquaredNorm(a)), sqrt(SquaredNorm(b));
      NormsArePositive(sqrt, a, b);
      CauchySchwarz(a, b);
      RootsMultiply(rootA, SquaredNorm(a), rootB, SquaredNorm(b));
      SquaresOrder(Dot(a, b), rootA * rootB);
      QuotientBounded(Dot(a, b), rootA * rootB);
    }
  }

  lemma {:induction false} DotCommutes(a: seq<real>, b: seq<real>)
    requires |a| == |b|
    ensures Dot(a, b) == Dot(b, a)
  {
    if a != [] {
      DotCommutes(a[..|a| - 1], b[..|b| - 1]);
    }
  }

  /** It does not matter which vector is the query and which was stored. */
  lemma CosineIsSymmetric(sqrt: real -> real, a: seq<real>, b: seq<real>)
    requires IsSqrt(sqrt)
    ensures Cosine(sqrt, a, b) == Cosine(sqrt, b, a)
  {
    if |a| == |b| {
      DotCommutes(a, b);
      assert sqrt(SquaredNorm(a)) * sqrt(SquaredNorm(b)) == sqrt(SquaredNorm(b)) * sqrt(SquaredNorm(a));
    }
  }

  /** `a` is `t` times `b`. */
  predicate Multiple(a: seq<real>, b: seq<real>, t: real) {
    |a| == |b| && forall i :: 0 <= i < |a| ==> a[i] == t * b[i]
  }

  lemma {:induction false} NoResidual(a: seq<real>, b: seq<real>, t: real)
    requires |a| == |b|
    ensures Residual(a, b, t) == 0.0 <==> Multiple(a, b, t)
  {
    if a != [] {
      var n := |a| - 1;
      NoResidual(a[..n], b[..n], t);
      ZeroSquare(a[n] - t * b[n]);
      MultipleStep(a, b, t);
    }
  }

  lemma MultipleStep(a: seq<real>, b: seq<real>, t: real)
    requires |a| == |b| && a != []
    ensures var n := |a| - 1; Multiple(a, b, t) <==> Multiple(a[..n], b[..n], t) && a[n] == t * b[n]
  {
    var n := |a| - 1;
    assert forall i :: 0 <= i < n ==> a[..n][i] == a[i] && b[..n][i] == b[i];
  }

  lemma {:induction false} DotOfMultiple(a: seq<real>, b: seq<real>, t: real, c: seq<real>)
    requires Multiple(a, b, t) && |c| == |a|
    ensures Dot(a, c) == t * Dot(b, c)
  {
    if a != [] {
      var n := |a| - 1;
      DotOfMultiple(a[..n], b[..n], t, c[..n]);
      assert t * (Dot(b[..n], c[..n]) + b[n] * c[n]) == t * Dot(b[..n], c[..n]) + (t * b[n]) * c[n];
    }
  }

  /** Similarity 1 means the same direction: exactly the positive multiples of a vector have it. */
  lemma FullSimilarity(sqrt: real -> real, a: seq<real>, b: seq<real>)
    requires IsSqrt(sqrt) && Comparable(a, b)
    ensures Cosine(sqrt, a, b) == 1.0 <==> exists t :: t > 0.0 && Multiple(a, b, t)
  {
    NormsArePositive(sqrt, a, b);
    var dot, product := Dot(a, b), sqrt(SquaredNorm(a)) * sqrt(SquaredNorm(b));
    RootsMultiply(sqrt(SquaredNorm(a)), SquaredNorm(a), sqrt(SquaredNorm(b)), SquaredNorm(b));
    QuotientIsOne(dot, product);
    if dot == product {
      AlignedIsMultiple(a, b);
    }
    if t :| t > 0.0 && Multiple(a, b, t) {
      MultipleIsAligned(a, b, t);
      SquaresOrder(dot, product);
      SquaresOrder(product, dot);
    }
  }

  lemma AlignedIsMultiple(a: seq<real>, b: seq<real>)
    requires Comparable(a, b) && Dot(a, b) > 0.0
    requires Dot(a, b) * Dot(a, b) == SquaredNorm(a) * SquaredNorm(b)
    ensures var t := Dot(a, b) / SquaredNorm(b); t > 0.0 && Multiple(a, b, t)
  {
    var t := Dot(a, b) / SquaredNorm(b);
    assert t * SquaredNorm(b) == Dot(a, b);
    LeastResidual(a, b);
    NoResidual(a, b, t);
  }

  lemma MultipleIsAligned(a: seq<real>, b: seq<real>, t: real)
    requires Comparable(a, b) && t > 0.0 && Multiple(a, b, t)
    ensures Dot(a, b) > 0.0 && Dot(a, b) * Dot(a, b) == SquaredNorm(a) * SquaredNorm(b)
  {
    DotOfMultiple(a, b, t, b);
    DotOfMultiple(a, b, t, a);
    DotCommutes(a, b);
  }

  // ---------------------------------------------------------------------------------------
  // Search
  // ---------------------------------------------------------------------------------------

  datatype Stored<E> = Stored(vector: seq<real>, entry: E)

  datatype Hit<E> = Hit(entry: E, similarity: real)

  /** The entries meeting the threshold, reduced to a greatest one; of equals the later wins. */
  function Nearest<E>(sqrt: real -> real, collection: seq<Stored<E>>, query: seq<real>, threshold: real): Option<Hit<E>>
    requires IsSqrt(sqrt)
  {
    if collection == [] then None
    else
      var last := collection[|collection| - 1];
      var best := Nearest(sqrt, collection[..|collection| - 1], query, threshold);
      var similarity := Cosine(sqrt, last.vector, query);
      if similarity < threshold || (best.Some? && best.value.similarity > similarity) then best
      else Some(Hit(last.entry, similarity))
  }

  /** A hit is a stored entry that meets the threshold; nothing stored is more similar, and nothing
      stored after it is as similar. There is none exactly when nothing meets the threshold. */
  lemma {:induction false} NearestIsBest<E>(
    sqrt: real -> real, collection: seq<Stored<E>>, query: seq<real>, threshold: real)
    requires IsSqrt(sqrt)
    ensures var r := Nearest(sqrt, collection, query, threshold);
            match r
            case None => forall i :: 0 <= i < |collection| ==> Cosine(sqrt, collection[i].vector, query) < threshold
            case Some(hit) =>
              hit.similarity >= threshold &&
              exists i :: 0 <= i < |collection| && collection[i].entry == hit.entry &&
                          Cosine(sqrt, collection[i].vector, query) == hit.similarity &&
                          (forall k :: 0 <= k < |collection| ==>
                             Cosine(sqrt, collection[k].vector, query) <= hit.similarity) &&
                          (forall k :: i < k < |collection| ==>
                             Cosine(sqrt, collection[k].vector, query) < hit.similarity)
  {
    if collection != [] {
      var n := |collection| - 1;
      NearestIsBest(sqrt, collection[..n], query, threshold);
      assert forall i :: 0 <= i < n ==> collection[..n][i] == collection[i];
    }
  }

  // ---------------------------------------------------------------------------------------
  // The store
  // ---------------------------------------------------------------------------------------

  datatype Op<E> = Upsert(org: nat, vector: seq<real>, entry: E) | Drop(org: nat)

  function Entries<E>(collections: map<nat, seq<Stored<E>>>, org: nat): seq<Stored<E>> {
    if org in collections then collections[org] else []
  }

  function After<E>(collections: map<nat, seq<Stored<E>>>, op: Op<E>): map<nat, seq<Stored<E>>> {
    match op
    case Upsert(org, vector, entry) => collections[org := Entries(collections, org) + [Stored(vector, entry)]]
    case Drop(org) => collections - {org}
  }

  class MemoryVectorStore<E> {
    var collections: map<nat, seq<Stored<E>>>

    constructor ()
      ensures collections == map[]
    {
      collections := map[];
    }

    method Upsert(org: nat, vector: seq<real>, entry: E)
      modifies this
      ensures collections == After(old(collections), Op.Upsert(org, vector, entry))
    {
      var collection := if org in collections then collections[org] else [];
      collections := collections[org := collection + [Stored(vector, entry)]];
    }

    method DropCollection(org: nat)
      modifies this
      ensures collections == After(old(collections), Drop(org))
    {
      collections := collections - {org};
    }

    method Search(sqrt: real -> real, org: nat, query: seq<real>, threshold: real) returns (best: Option<Hit<E>>)
      requires IsSqrt(sqrt)
      ensures best == Nearest(sqrt, Entries(collections, org), query, threshold)
    {
      best := None;
      if org !in collections {
        return;
      }
      var collection := collections[org];
      for i := 0 to |collection|
        invariant best == Nearest(sqrt, collection[..i], query, threshold)
      {
        var similarity := CosineSimilarity(sqrt, collection[i].vector, query);
        if similarity >= threshold && (best.None? || similarity >= best.value.similarity) {
          best := Some(Hit(collection[i].entry, similarity));
        }
        assert collection[..i + 1][..i] == collection[..i];
      }
      assert collection[..|collection|] == collection;
    }
  }

  function Run<E>(ops: seq<Op<E>>): map<nat, seq<Stored<E>>> {
    if ops == [] then map[] else After(Run(ops[..|ops| - 1]), ops[|ops| - 1])
  }

  /** What an organisation stored since it last dropped its collection. */
  function Kept<E>(ops: seq<Op<E>>, org: nat): seq<Stored<E>> {
    if ops == [] then []
    else
      var before, op := Kept(ops[..|ops| - 1], org), ops[|ops| - 1];
      if op.org != org then before
      else match op
        case Upsert(_, vector, entry) => before + [Stored(vector, entry)]
        case Drop(_) => []
  }

  /** After any run a search sees exactly what its own organisation stored and has not dropped. */
  lemma {:induction false} CollectionsAreSeparate<E>(ops: seq<Op<E>>, org: nat)
    ensures Entries(Run(ops), org) == Kept(ops, org)
  {
    if ops != [] {
      CollectionsAreSeparate(ops[..|ops| - 1], org);
    }
  }
}
