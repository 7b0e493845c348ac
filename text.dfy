/** String helpers shared by the link checker model: Python's `str.startswith`
    and `str.endswith`, `str()` of an optional value, and the left-to-right
    concatenation that repeated `+=` on a string builds. */
module Text {

  datatype Option<T> = None | Some(value: T)

  /** Python's `s.startswith(p)`. */
  predicate StartsWith(s: string, p: string) {
    |p| <= |s| && s[..|p|] == p
  }

  /** Python's `s.endswith(p)`. */
  predicate EndsWith(s: string, p: string) {
    |p| <= |s| && s[|s| - |p|..] == p
  }

  /** What an f-string renders for a value that may be `None`. */
  function PyStr(o: Option<string>): (r: string)
    ensures o.Some? ==> r == o.value
    ensures o.None? ==> r == "None"
  {
    match o
    case None => "None"
    case Some(s) => s
  }

  /** The string that `acc = ""; for p in pieces: acc += p` leaves behind. */
  function Concat(pieces: seq<string>): string {
    if pieces == [] then "" else Concat(pieces[..|pieces| - 1]) + pieces[|pieces| - 1]
  }

  /** Appending one more piece appends it to the concatenation. */
  lemma ConcatSnoc(pieces: seq<string>, i: nat)
    requires i < |pieces|
    ensures Concat(pieces[..i + 1]) == Concat(pieces[..i]) + pieces[i]
  {
    assert pieces[..i + 1][..i] == pieces[..i];
  }

  /** Concatenating a prefix of the pieces gives a prefix of the whole. */
  lemma {:induction false} ConcatPrefix(pieces: seq<string>, j: nat)
    requires j <= |pieces|
    ensures Concat(pieces[..j]) <= Concat(pieces)
    decreases |pieces|
  {
    if j < |pieces| {
      var n := |pieces| - 1;
      assert pieces[..n][..j] == pieces[..j];
      ConcatPrefix(pieces[..n], j);
    } else {
      assert pieces[..j] == pieces;
    }
  }

  /** Piece i sits in the concatenation right after the pieces before it. */
  lemma PieceAt(pieces: seq<string>, i: nat)
    requires i < |pieces|
    ensures |Concat(pieces[..i])| + |pieces[i]| <= |Concat(pieces)|
    ensures Concat(pieces)[|Concat(pieces[..i])|..|Concat(pieces[..i])| + |pieces[i]|] == pieces[i]
  {
    ConcatPrefix(pieces, i + 1);
    ConcatSnoc(pieces, i);
  }

  /** A later piece starts no earlier than where an earlier one ends. */
  lemma ConcatGrows(pieces: seq<string>, i: nat, j: nat)
    requires i < j <= |pieces|
    ensures |Concat(pieces[..i])| + |pieces[i]| <= |Concat(pieces[..j])|
  {
    ConcatSnoc(pieces, i);
    assert pieces[..j][..i + 1] == pieces[..i + 1];
    ConcatPrefix(pieces[..j], i + 1);
  }

  /** The concatenation is empty exactly when every piece is. */
  lemma {:induction false} ConcatEmpty(pieces: seq<string>)
    ensures Concat(pieces) == "" <==> forall i :: 0 <= i < |pieces| ==> pieces[i] == ""
    decreases |pieces|
  {
    if pieces != [] {
      var n := |pieces| - 1;
      ConcatEmpty(pieces[..n]);
      assert forall i :: 0 <= i < n ==> pieces[..n][i] == pieces[i];
    }
  }
}
