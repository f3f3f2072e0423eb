/** Every reader in the program goes through its input once, carrying a state. */
module Folds {

  function Fold<S, L>(step: (S, L) -> S, st: S, ls: seq<L>): S
    decreases |ls|
  {
    if ls == [] then st else Fold(step, step(st, ls[0]), ls[1..])
  }

  lemma {:induction false} FoldAppend<S, L>(step: (S, L) -> S, st: S, a: seq<L>, b: seq<L>)
    ensures Fold(step, st, a + b) == Fold(step, Fold(step, st, a), b)
    decreases |a|
  {
    if a == [] {
      assert a + b == b;
    } else {
      FoldAppend(step, step(st, a[0]), a[1..], b);
      assert (a + b)[1..] == a[1..] + b;
    }
  }

  // One more element is one more step: what a loop over the elements needs.
  lemma FoldNext<S, L>(step: (S, L) -> S, st: S, ls: seq<L>, i: nat)
    requires i < |ls|
    ensures Fold(step, st, ls[..i + 1]) == step(Fold(step, st, ls[..i]), ls[i])
  {
    FoldAppend(step, st, ls[..i], [ls[i]]);
    assert ls[..i + 1] == ls[..i] + [ls[i]];
    var mid := Fold(step, st, ls[..i]);
    assert Fold(step, mid, [ls[i]]) == Fold(step, step(mid, ls[i]), []);
  }
}
