// Runs of a state machine, given by the relation next(s, step, s') of its steps.
module Machines {

  /** A run of steps leads from a to b. */
  ghost predicate Runs<S(!new), E>(next: (S, E, S) -> bool, a: S, steps: seq<E>, b: S)
    decreases |steps|
  {
    if steps == [] then b == a
    else
      var earlier, last := steps[..|steps|-1], steps[|steps|-1];
      exists m :: Runs(next, a, earlier, m) && next(m, last, b)
  }

  /** No step leads out of the set. */
  ghost predicate Closed<S(!new), E(!new)>(next: (S, E, S) -> bool, inside: iset<S>) {
    forall s, step, s' :: s in inside && next(s, step, s') ==> s' in inside
  }

  /** b can come after a: it is in every set that holds a and that no step leaves. */
  ghost predicate Later<S(!new), E(!new)>(next: (S, E, S) -> bool, a: S, b: S) {
    forall inside: iset<S> :: a in inside && Closed(next, inside) ==> b in inside
  }

  lemma Stay<S(!new), E(!new)>(next: (S, E, S) -> bool, a: S)
    ensures Later(next, a, a)
  {
  }

  lemma Follow<S(!new), E(!new)>(next: (S, E, S) -> bool, a: S, s: S, step: E, s': S)
    requires Later(next, a, s) && next(s, step, s')
    ensures Later(next, a, s')
  {
  }

  lemma RunSnoc<S(!new), E>(next: (S, E, S) -> bool, a: S, steps: seq<E>, s: S, step: E, s': S)
    requires Runs(next, a, steps, s) && next(s, step, s')
    ensures Runs(next, a, steps + [step], s')
  {
    var more := steps + [step];
    assert more[..|more|-1] == steps;
  }

  lemma RunOfThree<S(!new), E>(next: (S, E, S) -> bool, a: S, steps: seq<E>, b: S, c: S, d: S)
    requires |steps| == 3 && next(a, steps[0], b) && next(b, steps[1], c) && next(c, steps[2], d)
    ensures Runs(next, a, steps, d)
  {
    RunSnoc(next, a, [], a, steps[0], b);
    RunSnoc(next, a, [] + [steps[0]], b, steps[1], c);
    RunSnoc(next, a, [] + [steps[0]] + [steps[1]], c, steps[2], d);
    assert steps == [] + [steps[0]] + [steps[1]] + [steps[2]];
  }

  lemma {:induction false} RunsStayInside<S(!new), E(!new)>(
    next: (S, E, S) -> bool, a: S, steps: seq<E>, b: S, inside: iset<S>)
    requires Runs(next, a, steps, b) && a in inside && Closed(next, inside)
    ensures b in inside
    decreases |steps|
  {
    if steps != [] {
      var earlier, last := steps[..|steps|-1], steps[|steps|-1];
      var m :| Runs(next, a, earlier, m) && next(m, last, b);
      RunsStayInside(next, a, earlier, m, inside);
    }
  }

  ghost predicate RunTo<S(!new), E(!new)>(next: (S, E, S) -> bool, a: S, b: S) {
    exists steps :: Runs(next, a, steps, b)
  }

  /** What can come later is what some run of steps leads to. */
  lemma LaterByRuns<S(!new), E(!new)>(next: (S, E, S) -> bool, a: S, b: S)
    ensures Later(next, a, b) <==> RunTo(next, a, b)
  {
    if RunTo(next, a, b) {
      var steps :| Runs(next, a, steps, b);
      forall inside: iset<S> | a in inside && Closed(next, inside) ensures b in inside {
        RunsStayInside(next, a, steps, b, inside);
      }
    } else {
      var ends := iset s | RunTo(next, a, s);
      assert Runs(next, a, [], a);
      forall s, step, s' | s in ends && next(s, step, s') ensures s' in ends {
        var steps :| Runs(next, a, steps, s);
        RunSnoc(next, a, steps, s, step, s');
      }
      assert a in ends && Closed(next, ends) && b !in ends;
    }
  }
}
