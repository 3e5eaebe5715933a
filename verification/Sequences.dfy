/** Facts about sequences that several encodings rest on. */
module Sequences {

  /** A field that avoids the separator after it can be read off the front in one way only. */
  lemma FieldUnique<T>(a: seq<T>, x: seq<T>, b: seq<T>, y: seq<T>, sep: T)
    requires sep !in a && sep !in b
    requires a + [sep] + x == b + [sep] + y
    ensures a == b && x == y
  {
    var s := a + [sep] + x;
    assert s == b + [sep] + y;
    assert forall i :: 0 <= i < |a| ==> s[i] == a[i];
    assert forall i :: 0 <= i < |b| ==> s[i] == b[i];
    assert s[|a|] == sep && s[|b|] == sep;
    assert s[..|a|] == a && s[..|b|] == b;
    assert s[|a| + 1..] == x && s[|b| + 1..] == y;
  }

  lemma Assoc<T>(a: seq<T>, b: seq<T>, c: seq<T>)
    ensures a + b + c == a + (b + c)
  {
  }

  /** The pieces one after another. */
  function Flatten<T>(pieces: seq<seq<T>>): seq<T> {
    if pieces == [] then [] else pieces[0] + Flatten(pieces[1..])
  }

  lemma {:induction false} FlattenSnoc<T>(pieces: seq<seq<T>>, piece: seq<T>)
    ensures Flatten(pieces + [piece]) == Flatten(pieces) + piece
  {
    if pieces == [] {
      assert pieces + [piece] == [piece] && [piece][1..] == [];
    } else {
      FlattenSnoc(pieces[1..], piece);
      assert (pieces + [piece])[1..] == pieces[1..] + [piece];
      Assoc(pieces[0], Flatten(pieces[1..]), piece);
    }
  }

  /** Feeding one more piece after some `front`. */
  lemma FlattenStep<T>(front: seq<T>, pieces: seq<seq<T>>, i: nat)
    requires i < |pieces|
    ensures front + Flatten(pieces[..i]) + pieces[i] == front + Flatten(pieces[..i + 1])
  {
    FlattenSnoc(pieces[..i], pieces[i]);
    assert pieces[..i + 1] == pieces[..i] + [pieces[i]];
    Assoc(front, Flatten(pieces[..i]), pieces[i]);
  }
}
