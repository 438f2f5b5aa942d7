/** Runs of a state machine and the ghost logs rebuilt from them. A run is a sequence of
    acts; a log is whatever a `pick` function extracts from the visits of the run, a visit
    being one act together with its position and the state it met. The lemmas are the
    induction principles the other modules instantiate. */
module Runs {
  import opened Prelude

  datatype Visit<S, A> = Visit(at: nat, before: S, act: A)

  ghost function Run<S, A>(step: (S, A) -> S, start: S, acts: seq<A>): S {
    if acts == [] then start
    else step(Run(step, start, acts[..|acts| - 1]), acts[|acts| - 1])
  }

  ghost function Visits<S, A>(step: (S, A) -> S, start: S, acts: seq<A>): (visits: seq<Visit<S, A>>)
    ensures |visits| == |acts|
  {
    if acts == [] then []
    else
      var past := acts[..|acts| - 1];
      Visits(step, start, past) + [Visit(|past|, Run(step, start, past), acts[|acts| - 1])]
  }

  function Collect<V, X>(visits: seq<V>, pick: V -> seq<X>): seq<X> {
    if visits == [] then []
    else Collect(visits[..|visits| - 1], pick) + pick(visits[|visits| - 1])
  }

  /** Collecting along a run that is one act longer. */
  lemma CollectStep<S, A, X>(step: (S, A) -> S, start: S, acts: seq<A>, pick: Visit<S, A> -> seq<X>)
    requires acts != []
    ensures
      var past := acts[..|acts| - 1];
      Collect(Visits(step, start, acts), pick) ==
      Collect(Visits(step, start, past), pick) + pick(Visit(|past|, Run(step, start, past), acts[|acts| - 1]))
  {
    var visits := Visits(step, start, acts);
    assert visits[..|visits| - 1] == Visits(step, start, acts[..|acts| - 1]);
  }

  lemma {:induction false} CollectAppend<V, X>(xs: seq<V>, ys: seq<V>, pick: V -> seq<X>)
    ensures Collect(xs + ys, pick) == Collect(xs, pick) + Collect(ys, pick)
  {
    if ys == [] {
      assert xs + ys == xs;
    } else {
      CollectAppend(xs, ys[..|ys| - 1], pick);
      assert (xs + ys)[..|xs + ys| - 1] == xs + ys[..|ys| - 1];
    }
  }

  lemma CollectFirst<V, X>(xs: seq<V>, pick: V -> seq<X>)
    requires xs != []
    ensures Collect(xs, pick) == pick(xs[0]) + Collect(xs[1..], pick)
  {
    CollectAppend([xs[0]], xs[1..], pick);
    assert [xs[0]][..0] == [] && xs == [xs[0]] + xs[1..];
  }

  lemma {:induction false} CollectSingletons<V>(xs: seq<V>, pick: V -> seq<V>)
    requires forall k :: 0 <= k < |xs| ==> pick(xs[k]) == [xs[k]]
    ensures Collect(xs, pick) == xs
  {
    if xs != [] {
      CollectSingletons(xs[..|xs| - 1], pick);
    }
  }

  /** Each visit is the state after the acts before it, and the act at its position. */
  lemma {:induction false} VisitAt<S, A>(step: (S, A) -> S, start: S, acts: seq<A>, k: nat)
    requires k < |acts|
    ensures Visits(step, start, acts)[k] == Visit(k, Run(step, start, acts[..k]), acts[k])
  {
    if k < |acts| - 1 {
      VisitAt(step, start, acts[..|acts| - 1], k);
      assert acts[..|acts| - 1][..k] == acts[..k];
    }
  }

  lemma {:induction false} RunAppend<S, A>(step: (S, A) -> S, start: S, acts: seq<A>, more: seq<A>)
    ensures Run(step, start, acts + more) == Run(step, Run(step, start, acts), more)
  {
    if more == [] {
      assert acts + more == acts;
    } else {
      RunAppend(step, start, acts, more[..|more| - 1]);
      assert (acts + more)[..|acts + more| - 1] == acts + more[..|more| - 1];
    }
  }

  lemma RunLast<S, A>(step: (S, A) -> S, start: S, past: seq<A>, last: A)
    ensures Run(step, start, past + [last]) == step(Run(step, start, past), last)
  {
    assert (past + [last])[..|past|] == past;
  }

  lemma RunOfTwo<S, A>(step: (S, A) -> S, start: S, a: A, b: A)
    ensures Run(step, start, [a]) == step(start, a)
    ensures Run(step, start, [a, b]) == step(step(start, a), b)
  {
    RunLast(step, start, [], a);
    RunLast(step, start, [a], b);
    assert [] + [a] == [a] && [a] + [b] == [a, b];
  }

  lemma RunOfThree<S, A>(step: (S, A) -> S, start: S, a: A, b: A, c: A)
    ensures Run(step, start, [a, b, c]) == step(step(step(start, a), b), c)
  {
    assert [a, b, c][..2] == [a, b] && [a, b][..1] == [a] && [a][..0] == [];
    assert Run(step, start, [a]) == step(Run(step, start, []), a);
    assert Run(step, start, [a, b]) == step(Run(step, start, [a]), b);
  }

  lemma {:induction false} Invariant<S(!new), A(!new)>(step: (S, A) -> S, start: S, acts: seq<A>, holds: S -> bool)
    requires holds(start)
    requires forall s, a :: holds(s) ==> holds(step(s, a))
    ensures holds(Run(step, start, acts))
  {
    if acts != [] {
      Invariant(step, start, acts[..|acts| - 1], holds);
    }
  }

  /** Conservation: if every step moves `released` out of what is held and `admitted` into
      it, then over the whole run all that was released, then what is still held, is all
      that was held at the start and admitted, in the same order. */
  lemma {:induction false} Conservation<S(!new), A(!new), X>(
      step: (S, A) -> S, start: S, acts: seq<A>,
      held: S -> seq<X>, released: Visit<S, A> -> seq<X>, admitted: Visit<S, A> -> seq<X>)
    requires forall v: Visit<S, A> :: released(v) + held(step(v.before, v.act)) == held(v.before) + admitted(v)
    ensures
      Collect(Visits(step, start, acts), released) + held(Run(step, start, acts)) ==
      held(start) + Collect(Visits(step, start, acts), admitted)
  {
    if acts != [] {
      var past := acts[..|acts| - 1];
      var v := Visit(|past|, Run(step, start, past), acts[|acts| - 1]);
      Conservation(step, start, past, held, released, admitted);
      CollectStep(step, start, acts, released);
      CollectStep(step, start, acts, admitted);
      MoveOn(Collect(Visits(step, start, past), released), held(v.before), held(start),
             Collect(Visits(step, start, past), admitted), released(v), held(step(v.before, v.act)), admitted(v));
    }
  }

  /** One more step of a conservation law, on sequences alone. */
  lemma MoveOn<X>(out: seq<X>, before: seq<X>, start: seq<X>, taken: seq<X>, released: seq<X>, after: seq<X>, admitted: seq<X>)
    requires out + before == start + taken
    requires released + after == before + admitted
    ensures (out + released) + after == start + (taken + admitted)
  {
    assert (out + released) + after == out + (released + after);
    assert out + (before + admitted) == (out + before) + admitted;
    assert (start + taken) + admitted == start + (taken + admitted);
  }

  ghost function Sum<V>(visits: seq<V>, weigh: V -> nat): nat {
    if visits == [] then 0
    else Sum(visits[..|visits| - 1], weigh) + weigh(visits[|visits| - 1])
  }

  /** Conservation of a quantity. */
  lemma {:induction false} Balance<S(!new), A(!new)>(
      step: (S, A) -> S, start: S, acts: seq<A>,
      level: S -> nat, outflow: Visit<S, A> -> nat, inflow: Visit<S, A> -> nat)
    requires forall v: Visit<S, A> :: outflow(v) + level(step(v.before, v.act)) == level(v.before) + inflow(v)
    ensures
      Sum(Visits(step, start, acts), outflow) + level(Run(step, start, acts)) ==
      level(start) + Sum(Visits(step, start, acts), inflow)
  {
    if acts != [] {
      var past := acts[..|acts| - 1];
      var v := Visit(|past|, Run(step, start, past), acts[|acts| - 1]);
      Balance(step, start, past, level, outflow, inflow);
      assert Visits(step, start, acts)[..|past|] == Visits(step, start, past);
    }
  }

  /** Whatever a log contains, some visit put there. */
  lemma {:induction false} CollectMember<S, A, X>(
      step: (S, A) -> S, start: S, acts: seq<A>, pick: Visit<S, A> -> seq<X>, x: X) returns (k: nat)
    requires x in Collect(Visits(step, start, acts), pick)
    ensures k < |acts|
    ensures x in pick(Visit(k, Run(step, start, acts[..k]), acts[k]))
  {
    CollectStep(step, start, acts, pick);
    var n := |acts| - 1;
    if x in pick(Visit(n, Run(step, start, acts[..n]), acts[n])) {
      k := n;
    } else {
      k := CollectMember(step, start, acts[..n], pick, x);
      assert acts[..n][..k] == acts[..k];
    }
  }

  /** A window that is trimmed after every step is the end of the untrimmed log. */
  lemma {:induction false} Window<S(!new), A(!new), X>(
      step: (S, A) -> S, start: S, acts: seq<A>, n: nat, window: S -> seq<X>, added: Visit<S, A> -> seq<X>)
    requires window(start) == []
    requires forall v: Visit<S, A> ::
      || (window(step(v.before, v.act)) == window(v.before) && added(v) == [])
      || window(step(v.before, v.act)) == LastN(window(v.before) + added(v), n)
    ensures window(Run(step, start, acts)) == LastN(Collect(Visits(step, start, acts), added), n)
  {
    if acts != [] {
      var past := acts[..|acts| - 1];
      var v := Visit(|past|, Run(step, start, past), acts[|acts| - 1]);
      Window(step, start, past, n, window, added);
      CollectStep(step, start, acts, added);
      LastNAbsorbs(Collect(Visits(step, start, past), added), added(v), n);
    }
  }

  /** What a run logs, newest first. */
  ghost function NewestFirst<V, X>(visits: seq<V>, pick: V -> seq<X>): seq<X> {
    if visits == [] then []
    else pick(visits[|visits| - 1]) + NewestFirst(visits[..|visits| - 1], pick)
  }

  lemma {:induction false} NewestFirstLength<V, X>(visits: seq<V>, pick: V -> seq<X>)
    ensures |NewestFirst(visits, pick)| == |Collect(visits, pick)|
  {
    if visits != [] {
      NewestFirstLength(visits[..|visits| - 1], pick);
    }
  }

  /** A buffer that grows at the front and is cut at the back after every step holds the
      newest items of the uncut log. */
  lemma {:induction false} FrontWindow<S(!new), A(!new), X>(
      step: (S, A) -> S, start: S, acts: seq<A>, n: nat, window: S -> seq<X>, added: Visit<S, A> -> seq<X>)
    requires |window(start)| <= n
    requires forall v: Visit<S, A> ::
      || (window(step(v.before, v.act)) == window(v.before) && added(v) == [])
      || window(step(v.before, v.act)) == FirstN(added(v) + window(v.before), n)
    ensures window(Run(step, start, acts)) == FirstN(NewestFirst(Visits(step, start, acts), added) + window(start), n)
  {
    if acts == [] {
      assert [] + window(start) == window(start);
    } else {
      var past := acts[..|acts| - 1];
      var v := Visit(|past|, Run(step, start, past), acts[|acts| - 1]);
      var older := NewestFirst(Visits(step, start, past), added) + window(start);
      FrontWindow(step, start, past, n, window, added);
      assert Visits(step, start, acts)[..|past|] == Visits(step, start, past);
      assert NewestFirst(Visits(step, start, acts), added) + window(start) == added(v) + older;
      FirstNAbsorbs(older, added(v), n);
      assert added(v) == [] ==> added(v) + older == older;
    }
  }

  ghost predicate SetBy<S, A>(step: (S, A) -> S, start: S, acts: seq<A>, sets: (S, A) -> bool) {
    exists k :: 0 <= k < |acts| && sets(Run(step, start, acts[..k]), acts[k])
  }

  lemma SetByLast<S, A>(step: (S, A) -> S, start: S, past: seq<A>, last: A, sets: (S, A) -> bool)
    ensures SetBy(step, start, past + [last], sets) <==>
      SetBy(step, start, past, sets) || sets(Run(step, start, past), last)
  {
    var acts := past + [last];
    forall k | 0 <= k < |acts|
      ensures acts[..k] == if k < |past| then past[..k] else past
    {
    }
    if SetBy(step, start, past, sets) {
      var k :| 0 <= k < |past| && sets(Run(step, start, past[..k]), past[k]);
      assert sets(Run(step, start, acts[..k]), acts[k]);
    }
    if sets(Run(step, start, past), last) {
      assert sets(Run(step, start, acts[..|past|]), acts[|past|]);
    }
  }

  /** A fact that only `sets` can make true, and nothing makes false again, holds after a run
      exactly when some visit of the run set it. */
  lemma {:induction false} Latch<S(!new), A(!new)>(
      step: (S, A) -> S, start: S, acts: seq<A>, fact: S -> bool, sets: (S, A) -> bool)
    requires !fact(start)
    requires forall s, a :: fact(step(s, a)) <==> fact(s) || sets(s, a)
    ensures fact(Run(step, start, acts)) <==> SetBy(step, start, acts, sets)
  {
    if acts != [] {
      var past, last := acts[..|acts| - 1], acts[|acts| - 1];
      Latch(step, start, past, fact, sets);
      SetByLast(step, start, past, last, sets);
      assert past + [last] == acts;
    }
  }

  /** Once true, true for the rest of the run. */
  lemma {:induction false} Persists<S(!new), A(!new)>(step: (S, A) -> S, start: S, acts: seq<A>, k: nat, fact: S -> bool)
    requires k <= |acts|
    requires fact(Run(step, start, acts[..k]))
    requires forall s, a :: fact(s) ==> fact(step(s, a))
    ensures fact(Run(step, start, acts))
  {
    if k < |acts| {
      assert acts[..|acts| - 1][..k] == acts[..k];
      Persists(step, start, acts[..|acts| - 1], k, fact);
    } else {
      assert acts[..k] == acts;
    }
  }

  /** If two logs agree on every visit once a lasting fact holds, then from that moment on
      they grow by the same items. */
  lemma {:induction false} Agreement<S(!new), A(!new), X>(
      step: (S, A) -> S, start: S, acts: seq<A>, since: nat, fact: S -> bool,
      left: Visit<S, A> -> seq<X>, right: Visit<S, A> -> seq<X>)
    requires since <= |acts|
    requires fact(Run(step, start, acts[..since]))
    requires forall s, a :: fact(s) ==> fact(step(s, a))
    requires forall v: Visit<S, A> :: fact(v.before) ==> left(v) == right(v)
    ensures Collect(Visits(step, start, acts[..since]), right) <= Collect(Visits(step, start, acts), right)
    ensures
      Collect(Visits(step, start, acts), left) ==
      Collect(Visits(step, start, acts[..since]), left) +
      Collect(Visits(step, start, acts), right)[|Collect(Visits(step, start, acts[..since]), right)|..]
  {
    if since == |acts| {
      assert acts[..since] == acts;
    } else {
      var past := acts[..|acts| - 1];
      assert past[..since] == acts[..since];
      Agreement(step, start, past, since, fact, left, right);
      Persists(step, start, past, since, fact);
      CollectStep(step, start, acts, left);
      CollectStep(step, start, acts, right);
      GrowTogether(Collect(Visits(step, start, acts[..since]), left), Collect(Visits(step, start, past), right),
                   right(Visit(|past|, Run(step, start, past), acts[|acts| - 1])), |Collect(Visits(step, start, acts[..since]), right)|);
    }
  }

  lemma GrowTogether<X>(left: seq<X>, right: seq<X>, more: seq<X>, n: nat)
    requires n <= |right|
    ensures (left + right[n..]) + more == left + (right + more)[n..]
  {
    assert (right + more)[n..] == right[n..] + more;
  }

  lemma {:induction false} FilterCollect<V(!new), X(!new)>(visits: seq<V>, pick: V -> seq<X>, kept: V -> seq<X>, keep: X -> bool)
    requires forall v :: kept(v) == Filter(pick(v), keep)
    ensures Filter(Collect(visits, pick), keep) == Collect(visits, kept)
  {
    if visits != [] {
      FilterCollect(visits[..|visits| - 1], pick, kept, keep);
      FilterAppend(Collect(visits[..|visits| - 1], pick), pick(visits[|visits| - 1]), keep);
    }
  }
}
