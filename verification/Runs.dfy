/** Sequences of steps of any machine: where they lead, and how they are put together. */
module Runs {

  function From<S, A>(apply: (S, A) -> S, s: S, steps: seq<A>): S {
    if steps == [] then s else apply(From(apply, s, steps[..|steps| - 1]), steps[|steps| - 1])
  }

  ghost predicate OkAt<S, A>(apply: (S, A) -> S, ok: (S, A) -> bool, s: S, steps: seq<A>, k: nat)
    requires k < |steps|
  {
    ok(From(apply, s, steps[..k]), steps[k])
  }

  /** Every step is in order where it is taken. */
  ghost predicate AllOk<S, A>(apply: (S, A) -> S, ok: (S, A) -> bool, s: S, steps: seq<A>) {
    forall k: nat {:trigger OkAt(apply, ok, s, steps, k)} :: k < |steps| ==> OkAt(apply, ok, s, steps, k)
  }

  lemma {:induction false} FromAppend<S, A>(apply: (S, A) -> S, s: S, pre: seq<A>, rest: seq<A>)
    ensures From(apply, s, pre + rest) == From(apply, From(apply, s, pre), rest)
    decreases |rest|
  {
    if rest == [] {
      assert pre + rest == pre;
    } else {
      var n := |rest| - 1;
      FromAppend(apply, s, pre, rest[..n]);
      assert (pre + rest)[..|pre + rest| - 1] == pre + rest[..n];
    }
  }

  lemma AllOkAppend<S, A>(apply: (S, A) -> S, ok: (S, A) -> bool, s: S, pre: seq<A>, rest: seq<A>)
    requires AllOk(apply, ok, s, pre) && AllOk(apply, ok, From(apply, s, pre), rest)
    ensures AllOk(apply, ok, s, pre + rest)
    ensures From(apply, s, pre + rest) == From(apply, From(apply, s, pre), rest)
  {
    FromAppend(apply, s, pre, rest);
    forall k: nat | k < |pre + rest| ensures OkAt(apply, ok, s, pre + rest, k) {
      if k < |pre| {
        OkInFirst(apply, ok, s, pre, rest, k);
      } else {
        OkInSecond(apply, ok, s, pre, rest, k - |pre|);
      }
    }
  }

  lemma OkInFirst<S, A>(apply: (S, A) -> S, ok: (S, A) -> bool, s: S, pre: seq<A>, rest: seq<A>, k: nat)
    requires AllOk(apply, ok, s, pre) && k < |pre|
    ensures OkAt(apply, ok, s, pre + rest, k)
  {
    assert OkAt(apply, ok, s, pre, k);
    assert (pre + rest)[..k] == pre[..k];
  }

  lemma OkInSecond<S, A>(apply: (S, A) -> S, ok: (S, A) -> bool, s: S, pre: seq<A>, rest: seq<A>, k: nat)
    requires AllOk(apply, ok, From(apply, s, pre), rest) && k < |rest|
    ensures OkAt(apply, ok, s, pre + rest, |pre| + k)
  {
    assert OkAt(apply, ok, From(apply, s, pre), rest, k);
    assert (pre + rest)[..|pre| + k] == pre + rest[..k];
    FromAppend(apply, s, pre, rest[..k]);
  }

  lemma AllOkPrefix<S, A>(apply: (S, A) -> S, ok: (S, A) -> bool, s: S, steps: seq<A>, n: nat)
    requires AllOk(apply, ok, s, steps) && n <= |steps|
    ensures AllOk(apply, ok, s, steps[..n])
    ensures n < |steps| ==> ok(From(apply, s, steps[..n]), steps[n])
  {
    forall k: nat | k < n ensures OkAt(apply, ok, s, steps[..n], k) {
      assert steps[..n][..k] == steps[..k] && OkAt(apply, ok, s, steps, k);
    }
    assert n < |steps| ==> OkAt(apply, ok, s, steps, n);
  }

  lemma AllOkOne<S, A>(apply: (S, A) -> S, ok: (S, A) -> bool, s: S, a: A)
    ensures From(apply, s, [a]) == apply(s, a)
    ensures ok(s, a) ==> AllOk(apply, ok, s, [a])
  {
    assert [a][..0] == [];
  }

  lemma AllOkMore<S, A>(apply: (S, A) -> S, ok: (S, A) -> bool, s: S, steps: seq<A>, a: A)
    requires AllOk(apply, ok, s, steps) && ok(From(apply, s, steps), a)
    ensures AllOk(apply, ok, s, steps + [a])
    ensures From(apply, s, steps + [a]) == apply(From(apply, s, steps), a)
  {
    AllOkOne(apply, ok, From(apply, s, steps), a);
    AllOkAppend(apply, ok, s, steps, [a]);
  }

  lemma AllOkThen<S, A>(apply: (S, A) -> S, ok: (S, A) -> bool, s: S, a: A, rest: seq<A>)
    requires ok(s, a) && AllOk(apply, ok, apply(s, a), rest)
    ensures AllOk(apply, ok, s, [a] + rest)
    ensures From(apply, s, [a] + rest) == From(apply, apply(s, a), rest)
  {
    AllOkOne(apply, ok, s, a);
    AllOkAppend(apply, ok, s, [a], rest);
  }

  lemma FromThree<S, A>(apply: (S, A) -> S, s: S, a: A, b: A, c: A)
    ensures From(apply, s, [a, b]) == apply(apply(s, a), b)
    ensures From(apply, s, [a, b, c]) == apply(apply(apply(s, a), b), c)
  {
    assert [a][..0] == [] && [a, b][..1] == [a] && [a, b, c][..2] == [a, b];
    assert From(apply, s, [a]) == apply(s, a);
    assert From(apply, s, [a, b]) == apply(apply(s, a), b);
  }
}
