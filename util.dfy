/** Small helpers shared by the other modules. */
module Util {

  datatype Option<T> = None | Some(value: T)

  /** Always true. A property stated as `forall k :: Open(k) ==> P` means
      just P, but a proof draws on P only once it mentions `Open` itself, so
      large invariants stay out of proofs that merely pass them on. */
  predicate Open(k: int)
  {
    true
  }

  /** Always true, like `Open`, for what the steps of one tick of the game
      do; kept apart from `Open` so that passing these facts on does not draw
      on the invariants guarded by `Open`, and back. */
  predicate OpenTick(k: int)
  {
    true
  }

  /** No element occurs twice. The pairwise fact is stated through `Apart`,
      so that it is drawn on only where a proof asks for it (`DistinctAt`). */
  predicate Distinct<T(==)>(s: seq<T>)
  {
    forall i, j {:trigger Apart(s, i, j)} :: 0 <= i < j < |s| ==> Apart(s, i, j)
  }

  /** Positions `i` and `j` of `s` hold different elements. */
  predicate Apart<T(==)>(s: seq<T>, i: int, j: int)
    requires 0 <= i < |s| && 0 <= j < |s|
  {
    s[i] != s[j]
  }

  /** In a distinct sequence, the element at `k` occurs at no other position. */
  lemma DistinctAt<T>(s: seq<T>, k: nat)
    requires Distinct(s) && k < |s|
    ensures forall j :: 0 <= j < |s| && j != k ==> s[j] != s[k]
  {
    forall j | 0 <= j < |s| && j != k
      ensures s[j] != s[k]
    {
      if j < k {
        assert Apart(s, j, k);
      } else {
        assert Apart(s, k, j);
      }
    }
  }

  /** In a distinct sequence, the element at `k` is in neither part around
      it, and the part after it is distinct. */
  lemma DistinctSplit<T>(s: seq<T>, k: nat)
    requires Distinct(s) && k < |s|
    ensures s[k] !in s[..k] && s[k] !in s[k + 1..] && Distinct(s[k + 1..])
  {
    DistinctAt(s, k);
    var t := s[k + 1..];
    forall i, j | 0 <= i < j < |t|
      ensures Apart(t, i, j)
    {
      assert Apart(s, k + 1 + i, k + 1 + j);
    }
  }

  /** Removing one position keeps the other elements distinct and drops exactly
      the removed one. */
  lemma DistinctRemove<T>(s: seq<T>, k: nat)
    requires Distinct(s) && k < |s|
    ensures Distinct(s[..k] + s[k + 1..])
    ensures s[k] !in s[..k] + s[k + 1..]
    ensures forall x :: x in s[..k] + s[k + 1..] <==> x in s && x != s[k]
  {
    var r := s[..k] + s[k + 1..];
    assert forall i :: 0 <= i < |r| ==> r[i] == if i < k then s[i] else s[i + 1];
    forall i, j | 0 <= i < j < |r|
      ensures Apart(r, i, j)
    {
      assert Apart(s, if i < k then i else i + 1, if j < k then j else j + 1);
    }
    DistinctAt(s, k);
  }

  /** Putting an element that is not yet present in front keeps the sequence distinct. */
  lemma DistinctPrepend<T>(x: T, s: seq<T>)
    requires Distinct(s) && x !in s
    ensures Distinct([x] + s)
  {
    var r := [x] + s;
    forall i, j | 0 <= i < j < |r|
      ensures Apart(r, i, j)
    {
      if i > 0 {
        assert Apart(s, i - 1, j - 1);
      } else {
        assert r[j] == s[j - 1];
      }
    }
  }

  /** Appending an element that is not yet present keeps the sequence distinct. */
  lemma DistinctAppend<T>(s: seq<T>, x: T)
    requires Distinct(s) && x !in s
    ensures Distinct(s + [x])
  {
    var r := s + [x];
    forall i, j | 0 <= i < j < |r|
      ensures Apart(r, i, j)
    {
      if j < |s| {
        assert Apart(s, i, j);
      }
    }
  }
}
