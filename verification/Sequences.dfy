/** Shared shapes: an optional value, look-ups with a default, and a sequence cut into pieces. */
module Sequences {

  datatype Option<T> = None | Some(value: T)

  /** A count, 0 if there is none. */
  function At(m: map<string, nat>, k: string): nat {
    if k in m then m[k] else 0
  }

  /** A list, empty if there is none. */
  function Lookup<T>(m: map<string, seq<T>>, k: string): seq<T> {
    if k in m then m[k] else []
  }

  ghost predicate Distinct<T>(s: seq<T>) {
    forall i, j :: 0 <= i < j < |s| ==> s[i] != s[j]
  }

  /** The first `k` pieces put back together. */
  function Flatten<T>(pieces: seq<seq<T>>, k: nat): seq<T>
    requires k <= |pieces|
  {
    if k == 0 then [] else Flatten(pieces, k - 1) + pieces[k - 1]
  }

  lemma {:induction false} FlattenExtend<T>(pieces: seq<seq<T>>, more: seq<seq<T>>, k: nat)
    requires k <= |pieces|
    ensures Flatten(pieces + more, k) == Flatten(pieces, k)
  {
    if k > 0 { FlattenExtend(pieces, more, k - 1); }
  }

  lemma {:induction false} FlattenCons<T>(head: seq<T>, pieces: seq<seq<T>>, k: nat)
    requires k <= |pieces|
    ensures Flatten([head] + pieces, k + 1) == head + Flatten(pieces, k)
  {
    if k > 0 { FlattenCons(head, pieces, k - 1); }
  }

  lemma FlattenSnoc<T>(pieces: seq<seq<T>>, piece: seq<T>)
    ensures Flatten(pieces + [piece], |pieces| + 1) == Flatten(pieces, |pieces|) + piece
  {
    FlattenExtend(pieces, [piece], |pieces|);
  }

  lemma {:induction false} PieceWithin<T>(pieces: seq<seq<T>>, i: nat, k: nat)
    requires i < k <= |pieces|
    ensures forall x :: x in pieces[i] ==> x in Flatten(pieces, k)
  {
    if i < k - 1 { PieceWithin(pieces, i, k - 1); }
  }

  lemma {:induction false} PieceAt<T>(pieces: seq<seq<T>>, i: nat, j: nat, k: nat)
    requires i < k <= |pieces| && j < |pieces[i]|
    ensures |Flatten(pieces, i)| + j < |Flatten(pieces, k)|
    ensures Flatten(pieces, k)[|Flatten(pieces, i)| + j] == pieces[i][j]
  {
    if i < k - 1 { PieceAt(pieces, i, j, k - 1); }
  }

  lemma TakeNext<T>(a: seq<T>, b: seq<T>, s: seq<T>, i: nat)
    requires i < |s| && a + b == s[..i]
    ensures a + (b + [s[i]]) == s[..i + 1]
  {
    assert a + (b + [s[i]]) == (a + b) + [s[i]];
  }

  lemma Regroup<T>(a: seq<T>, b: seq<T>, c: seq<T>)
    ensures (a + b) + c == a + (b + c)
  {
  }

  lemma MoveHead<T>(a: seq<T>, x: T, b: seq<T>)
    ensures a + ([x] + b) == (a + [x]) + b
  {
  }
}
