/** Sequence helpers shared by the generation queue and the path reconstruction. */
module Sequences {

  /** No element occurs twice. */
  predicate NoDup<T(==)>(s: seq<T>) {
    forall i, j :: 0 <= i < j < |s| ==> s[i] != s[j]
  }

  /** The reverse of a sequence, peeling off the last element. */
  function Reversed<T>(s: seq<T>): (r: seq<T>)
    ensures |r| == |s|
    decreases |s|
  {
    if s == [] then [] else [s[|s| - 1]] + Reversed(s[..|s| - 1])
  }

  /** Appending at the back of a sequence puts the element at the front of its reverse. */
  lemma ReversedSnoc<T>(s: seq<T>, x: T)
    ensures Reversed(s + [x]) == [x] + Reversed(s)
  {
    assert (s + [x])[..|s|] == s;
  }

  /** Element k of the reverse is element |s| - 1 - k of the original. */
  lemma {:induction false} ReversedAt<T>(s: seq<T>, k: nat)
    requires k < |s|
    ensures Reversed(s)[k] == s[|s| - 1 - k]
    decreases |s|
  {
    if k > 0 {
      ReversedAt(s[..|s| - 1], k - 1);
    }
  }

  /** A suffix of a non-empty sequence is the same suffix of its front followed by its last element. */
  lemma SuffixOfFront<T>(q: seq<T>, k: nat)
    requires k < |q|
    ensures q[k..] == q[..|q| - 1][k..] + [q[|q| - 1]]
    ensures q[..k] == q[..|q| - 1][..k]
  {
  }

  lemma NoDupFront<T>(q: seq<T>)
    requires |q| > 0 && NoDup(q)
    ensures NoDup(q[..|q| - 1])
  {
  }
}
