// Lists in pieces: concatenation, and cutting by size.

module Pieces {

  /** All pieces, one after the other. */
  function Flatten<T>(pieces: seq<seq<T>>): (r: seq<T>) {
    if pieces == [] then [] else Flatten(pieces[..|pieces| - 1]) + pieces[|pieces| - 1]
  }

  lemma FlattenSnoc<T>(pieces: seq<seq<T>>, last: seq<T>)
    ensures Flatten(pieces + [last]) == Flatten(pieces) + last
  {
    assert (pieces + [last])[..|pieces|] == pieces;
  }

  lemma {:induction false} FlattenConcat<T>(a: seq<seq<T>>, b: seq<seq<T>>)
    ensures Flatten(a + b) == Flatten(a) + Flatten(b)
  {
    if b == [] {
      assert a + b == a;
    } else {
      var n := |b| - 1;
      assert a + b == (a + b[..n]) + [b[n]];
      FlattenSnoc(a + b[..n], b[n]);
      FlattenConcat(a, b[..n]);
    }
  }

  lemma FlattenOne<T>(piece: seq<T>)
    ensures Flatten([piece]) == piece
  {
    assert [piece][..0] == [];
  }

  lemma FlattenCons<T>(piece: seq<T>, pieces: seq<seq<T>>)
    ensures Flatten([piece] + pieces) == piece + Flatten(pieces)
  {
    FlattenConcat([piece], pieces);
    FlattenOne(piece);
  }

  lemma FlattenFirst<T>(pieces: seq<seq<T>>)
    requires pieces != []
    ensures Flatten(pieces) == pieces[0] + Flatten(pieces[1..])
  {
    hide Flatten;
    FlattenCons(pieces[0], pieces[1..]);
    assert [pieces[0]] + pieces[1..] == pieces;
  }

  /** Cutting into pieces of `size` rows, the last one possibly shorter. */
  function CutBy<T>(rows: seq<T>, size: nat): (r: seq<seq<T>>)
    requires size > 0
  {
    if rows == [] then [] else if |rows| <= size then [rows] else [rows[..size]] + CutBy(rows[size..], size)
  }

  /** Cutting loses nothing; every piece but the last has `size` elements, and the last has between one and `size`. */
  lemma {:induction false} CutFlattens<T>(rows: seq<T>, size: nat)
    requires size > 0
    ensures Flatten(CutBy(rows, size)) == rows
    ensures forall i :: 0 <= i < |CutBy(rows, size)| ==> PieceFits(CutBy(rows, size), i, size)
  {
    if rows != [] && |rows| <= size {
      FlattenOne(rows);
    } else if |rows| > size {
      hide Flatten;
      CutFlattens(rows[size..], size);
      FlattenCons(rows[..size], CutBy(rows[size..], size));
      var all, rest := CutBy(rows, size), CutBy(rows[size..], size);
      forall i | 0 <= i < |all| ensures PieceFits(all, i, size) {
        assert i > 0 ==> PieceFits(rest, i - 1, size);
      }
    }
  }

  ghost predicate PieceFits<T>(pieces: seq<seq<T>>, i: nat, size: nat)
    requires i < |pieces|
  {
    1 <= |pieces[i]| <= size && (i + 1 < |pieces| ==> |pieces[i]| == size)
  }
}
