/** What the other modules share. */
module Basics {

  datatype Option<+T> = None | Some(value: T)

  function Min(a: nat, b: nat): nat { if a <= b then a else b }

  function Max(a: nat, b: nat): nat { if a >= b then a else b }

  /** No element is listed twice. */
  ghost predicate Distinct<T>(s: seq<T>) {
    forall a, b :: 0 <= a < b < |s| ==> s[a] != s[b]
  }

  lemma SubsetSize<T>(a: set<T>, b: set<T>)
    requires a <= b
    ensures |a| <= |b|
  {
    assert b == a + (b - a);
  }

  /** What holds at 0 and is handed on from each number to the next holds up to `n`. */
  lemma {:induction false} HandedOn(stage: nat -> bool, n: nat)
    requires stage(0)
    requires forall k: nat, next: nat {:trigger stage(k), stage(next)} ::
               next == k + 1 <= n && stage(k) ==> stage(next)
    ensures stage(n)
  {
    if n > 0 {
      HandedOn(stage, n - 1);
      assert stage(n - 1);
    }
  }
}
