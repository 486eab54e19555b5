/** Sequences element by element. */
module Sequences {
  function MapSeq<A, B>(f: A -> B, xs: seq<A>): (r: seq<B>)
    ensures |r| == |xs|
  {
    seq(|xs|, i requires 0 <= i < |xs| => f(xs[i]))
  }

  predicate All<A>(p: A -> bool, xs: seq<A>) {
    forall i | 0 <= i < |xs| :: p(xs[i])
  }

  predicate Related<A, B>(r: (A, B) -> bool, xs: seq<A>, ys: seq<B>) {
    |xs| == |ys| && forall i | 0 <= i < |xs| :: r(xs[i], ys[i])
  }

  lemma MapSnoc<A, B>(f: A -> B, xs: seq<A>, x: A)
    ensures MapSeq(f, xs + [x]) == MapSeq(f, xs) + [f(x)]
  {
  }

  lemma AllSnoc<A>(p: A -> bool, xs: seq<A>, x: A)
    requires All(p, xs) && p(x)
    ensures All(p, xs + [x])
  {
  }

  lemma RelatedSnoc<A, B>(r: (A, B) -> bool, xs: seq<A>, ys: seq<B>, x: A, y: B)
    requires Related(r, xs, ys) && r(x, y)
    ensures Related(r, xs + [x], ys + [y])
  {
  }

  /** The state after doing all of `ops`, one after the other. */
  function Fold<S, O>(step: (S, O) -> S, s: S, ops: seq<O>): S {
    if ops == [] then s else step(Fold(step, s, ops[..|ops| - 1]), ops[|ops| - 1])
  }

  lemma FoldOne<S, O>(step: (S, O) -> S, s: S, op: O)
    ensures Fold(step, s, [op]) == step(s, op)
  {
    assert [op][..0] == [];
  }

  lemma FoldSnoc<S, O>(step: (S, O) -> S, s: S, ops: seq<O>, op: O)
    ensures Fold(step, s, ops + [op]) == step(Fold(step, s, ops), op)
  {
    assert (ops + [op])[..|ops|] == ops;
  }

  lemma FoldPrefix<S, O>(step: (S, O) -> S, s: S, ops: seq<O>, i: nat)
    requires i < |ops|
    ensures Fold(step, s, ops[..i + 1]) == step(Fold(step, s, ops[..i]), ops[i])
  {
    assert ops[..i + 1][..i] == ops[..i];
  }

  lemma {:induction false} FoldConcat<S, O>(step: (S, O) -> S, s: S, a: seq<O>, b: seq<O>)
    ensures Fold(step, s, a + b) == Fold(step, Fold(step, s, a), b)
  {
    if b == [] {
      assert a + b == a;
    } else {
      var n := |b| - 1;
      FoldConcat(step, s, a, b[..n]);
      assert (a + b)[..|a| + n] == a + b[..n];
    }
  }

  /** The smaller steps taken by a machine whose every step is some steps of another. */
  function Trace<S, E, O>(next: (S, E) -> S, steps: (S, E) -> seq<O>, s: S, inputs: seq<E>): seq<O> {
    if inputs == [] then []
    else
      var front := inputs[..|inputs| - 1];
      Trace(next, steps, s, front) + steps(Fold(next, s, front), inputs[|inputs| - 1])
  }

  /** A part of a machine that follows another machine step by step follows it over whole runs. */
  lemma {:induction false} FoldTrace<S(!new), T, E(!new), O>(next: (S, E) -> S, part: S -> T, step: (T, O) -> T,
                                                            steps: (S, E) -> seq<O>, s: S, inputs: seq<E>)
    requires forall r, e {:trigger next(r, e)} :: part(next(r, e)) == Fold(step, part(r), steps(r, e))
    ensures part(Fold(next, s, inputs)) == Fold(step, part(s), Trace(next, steps, s, inputs))
  {
    if inputs != [] {
      var front, e := inputs[..|inputs| - 1], inputs[|inputs| - 1];
      FoldTrace(next, part, step, steps, s, front);
      FoldConcat(step, part(s), Trace(next, steps, s, front), steps(Fold(next, s, front), e));
    }
  }

  function FlatMap<E, O>(f: E -> seq<O>, xs: seq<E>): seq<O> {
    if xs == [] then [] else FlatMap(f, xs[..|xs| - 1]) + f(xs[|xs| - 1])
  }

  lemma {:induction false} FlatMapConcat<E, O>(f: E -> seq<O>, xs: seq<E>, ys: seq<E>)
    ensures FlatMap(f, xs + ys) == FlatMap(f, xs) + FlatMap(f, ys)
  {
    if ys == [] {
      assert xs + ys == xs;
    } else {
      var n := |ys| - 1;
      FlatMapConcat(f, xs, ys[..n]);
      assert (xs + ys)[..|xs| + n] == xs + ys[..n];
    }
  }

  lemma {:induction false} TraceFlat<S(!new), E(!new), O>(next: (S, E) -> S, steps: (S, E) -> seq<O>, f: E -> seq<O>,
                                                         s: S, inputs: seq<E>)
    requires forall r, e {:trigger steps(r, e)} :: steps(r, e) == f(e)
    ensures Trace(next, steps, s, inputs) == FlatMap(f, inputs)
  {
    if inputs != [] {
      TraceFlat(next, steps, f, s, inputs[..|inputs| - 1]);
    }
  }

  predicate Distinct<T(==)>(s: seq<T>) {
    forall i, j | 0 <= i < j < |s| :: s[i] != s[j]
  }

  /** The last number below n with a property. */
  predicate Last(p: nat -> bool, n: nat, i: nat) {
    i < n && p(i) && forall j {:trigger p(j)} | i < j < n :: !p(j)
  }

  lemma LastStep(p: nat -> bool, n: nat, i: nat)
    ensures Last(p, n + 1, i) <==> if p(n) then i == n else Last(p, n, i)
  {
  }

  predicate Increasing(at: seq<nat>) {
    forall j, k | 0 <= j < k < |at| :: at[j] < at[k]
  }

  predicate Among(i: nat, at: seq<nat>) {
    i in at
  }

  /** The positions of the elements with a property: all of them, each once, in order. */
  ghost predicate Picks<A>(at: seq<nat>, p: A -> bool, xs: seq<A>) {
    && Increasing(at)
    && (forall k | 0 <= k < |at| :: at[k] < |xs| && p(xs[at[k]]))
    && (forall i: nat {:trigger Among(i, at)} | i < |xs| && p(xs[i]) :: Among(i, at))
  }

  lemma PicksTake<A>(at: seq<nat>, p: A -> bool, xs: seq<A>, x: A)
    requires Picks(at, p, xs) && p(x)
    ensures Picks(at + [|xs|], p, xs + [x])
  {
    var all, at' := xs + [x], at + [|xs|];
    forall i: nat | i < |all| && p(all[i]) ensures Among(i, at') {
      if i < |xs| {
        assert Among(i, at);
      } else {
        assert at'[|at|] == i;
      }
    }
  }

  lemma PicksSkip<A>(at: seq<nat>, p: A -> bool, xs: seq<A>, x: A)
    requires Picks(at, p, xs) && !p(x)
    ensures Picks(at, p, xs + [x])
  {
    var all := xs + [x];
    forall i: nat | i < |all| && p(all[i]) ensures Among(i, at) {
      assert Among(i, at);
    }
  }

  lemma PicksExactly<A>(at: seq<nat>, p: A -> bool, xs: seq<A>)
    requires Picks(at, p, xs)
    ensures forall i: nat {:trigger Among(i, at)} :: Among(i, at) <==> i < |xs| && p(xs[i])
  {
  }

  /** What ys says of the elements of xs that have a property, in order. */
  ghost predicate Selects<A, B>(at: seq<nat>, ys: seq<B>, p: A -> bool, of: (B, A) -> bool, xs: seq<A>) {
    Picks(at, p, xs) && |ys| == |at| && forall k | 0 <= k < |at| :: of(ys[k], xs[at[k]])
  }

  lemma SelectsTake<A, B>(at: seq<nat>, ys: seq<B>, p: A -> bool, of: (B, A) -> bool, xs: seq<A>, x: A, y: B)
    requires Selects(at, ys, p, of, xs) && p(x) && of(y, x)
    ensures Selects(at + [|xs|], ys + [y], p, of, xs + [x])
  {
    PicksTake(at, p, xs, x);
  }

  lemma SelectsSkip<A, B>(at: seq<nat>, ys: seq<B>, p: A -> bool, of: (B, A) -> bool, xs: seq<A>, x: A)
    requires Selects(at, ys, p, of, xs) && !p(x)
    ensures Selects(at, ys, p, of, xs + [x])
  {
    PicksSkip(at, p, xs, x);
  }

  /** The elements from position i on. */
  function From<T>(s: seq<T>, i: nat): set<T>
    requires i <= |s|
  {
    set x | x in s[i..]
  }

  lemma FromSnoc<T>(s: seq<T>, x: T)
    ensures From(s + [x], 0) == From(s, 0) + {x}
  {
    var t := s + [x];
    assert t[0..] == t && s[0..] == s;
    forall y ensures y in From(t, 0) <==> y in From(s, 0) + {x} {
      if y in s {
        assert y in t;
      }
      if y == x {
        assert t[|s|] == x;
      }
    }
  }

  lemma FromNext<T>(s: seq<T>, i: nat)
    requires Distinct(s) && i < |s|
    ensures s[i] in From(s, i) && s[i] !in From(s, i + 1)
    ensures From(s, i + 1) == From(s, i) - {s[i]}
  {
    assert s[i..][0] == s[i];
    forall x ensures x in From(s, i + 1) <==> x in From(s, i) && x != s[i] {
      if x in From(s, i + 1) {
        var k :| 0 <= k < |s| - i - 1 && s[i + 1..][k] == x;
        assert s[i..][k + 1] == x == s[i + 1 + k];
      }
    }
  }
}
