// The per-container operation lock (lxcContainerOperation in lxd/container_lxc.go): who may
// start or stop a container, and who learns how it ended.
//
// Operations are named by the order of their creation, so that a name plays the part of the
// pointer that Done compares.  Each locked section is one step; createOperation has two, with a
// gap between them.
module ContainerLock {

  import opened GoStrings
  import opened Machines

  // nil, or the text of the error.
  type Error = Option<string>

  /** closes counts close(op.chanDone); err is what Wait returns once the channel is closed. */
  datatype Op = Op(container: int, action: string, reusable: bool, closes: nat, err: Error)

  datatype Creator = Creator(container: int, action: string, reusable: bool)

  /** inGap are the calls of createOperation that found no operation and have not registered
      theirs yet. */
  datatype State = State(ops: seq<Op>, registry: map<int, nat>, inGap: seq<Creator>)

  const INIT := State([], map[], [])

  datatype Step =
    | Check(container: int, action: string, reusable: bool, reuse: bool)
    | Register(i: nat)
    | Done(op: nat, err: Error)    // called by the owner, the stop hook or the timer

  predicate Enabled(s: State, step: Step) {
    match step
    case Check(_, _, _, _) => true
    case Register(i) => i < |s.inGap|
    case Done(op, _) => op < |s.ops|
  }

  predicate Registered(s: State, op: nat) {
    op < |s.ops| && s.ops[op].container in s.registry && s.registry[s.ops[op].container] == op
  }

  function Do(s: State, step: Step): State
    requires Enabled(s, step)
  {
    match step
    case Check(container, action, reusable, reuse) =>
      if container in s.registry then s
      else s.(inGap := s.inGap + [Creator(container, action, reusable)])
    case Register(i) =>
      var c := s.inGap[i];
      State(s.ops + [Op(c.container, c.action, c.reusable, 0, None)],
            s.registry[c.container := |s.ops|],
            s.inGap[..i] + s.inGap[i+1..])
    case Done(op, err) =>
      if !Registered(s, op) then s
      else s.(ops := s.ops[op := s.ops[op].(err := err, closes := s.ops[op].closes + 1)],
              registry := s.registry - {s.ops[op].container})
  }

  /** A new operation takes the place of one that is still registered. */
  predicate Displaces(s: State, step: Step) {
    step.Register? && step.i < |s.inGap| && s.inGap[step.i].container in s.registry
  }

  function Next(): (State, Step, State) -> bool {
    (s: State, step: Step, s': State) => Enabled(s, step) && s' == Do(s, step)
  }

  // ----- Never closed twice, never registered after closing --------------------------------------

  ghost predicate Inv(s: State) {
    && (forall c :: c in s.registry ==>
          s.registry[c] < |s.ops| && s.ops[s.registry[c]].container == c && s.ops[s.registry[c]].closes == 0)
    && (forall i :: 0 <= i < |s.ops| ==> s.ops[i].closes <= 1)
  }

  lemma StepKeepsInv(s: State, step: Step)
    requires Inv(s) && Enabled(s, step)
    ensures Inv(Do(s, step))
  {
  }

  lemma {:induction false} RunKeepsInv(s: State, steps: seq<Step>, s': State)
    requires Inv(s) && Runs(Next(), s, steps, s')
    ensures Inv(s')
    decreases |steps|
  {
    if steps != [] {
      var earlier, last := steps[..|steps|-1], steps[|steps|-1];
      var m :| Runs(Next(), s, earlier, m) && Next()(m, last, s');
      RunKeepsInv(s, earlier, m);
      StepKeepsInv(m, last);
    }
  }

  /** In every interleaving no channel is closed twice and no closed operation is registered. */
  lemma {:induction false} ClosedAtMostOnce(steps: seq<Step>, s: State, op: nat)
    requires Runs(Next(), INIT, steps, s) && op < |s.ops|
    ensures s.ops[op].closes <= 1
    ensures Registered(s, op) ==> s.ops[op].closes == 0
  {
    RunKeepsInv(INIT, steps, s);
  }

  // ----- What an operation can still become ---------------------------------------------------------

  /** Not registered: closed, or displaced by a later operation. */
  predicate Out(s: State, op: nat) { op < |s.ops| && !Registered(s, op) }

  lemma OutStep(s: State, step: Step, op: nat)
    requires Inv(s) && Out(s, op) && Enabled(s, step)
    ensures Out(Do(s, step), op) && Do(s, step).ops[op] == s.ops[op]
  {
  }

  /** An operation that has left the registry never changes again.  So the error of a closed one
      is the one from the first Done that took effect, whatever owner, hook and timer do later;
      and one that was displaced is never closed at all: its waiters wait for ever, and not even
      its own time-out reaches it. */
  lemma {:induction false} OutForGood(s: State, steps: seq<Step>, s': State, op: nat)
    requires Inv(s) && Out(s, op) && Runs(Next(), s, steps, s')
    ensures Out(s', op) && s'.ops[op] == s.ops[op]
    decreases |steps|
  {
    if steps != [] {
      var earlier, last := steps[..|steps|-1], steps[|steps|-1];
      var m :| Runs(Next(), s, earlier, m) && Next()(m, last, s');
      OutForGood(s, earlier, m, op);
      RunKeepsInv(s, earlier, m);
      OutStep(m, last, op);
    }
  }

  /** A Done that takes effect closes the channel with its error, and with it the first and
      last one the operation will ever have. */
  lemma FirstDoneWins(s: State, op: nat, err: Error, steps: seq<Step>, s': State)
    requires Inv(s) && Registered(s, op)
    requires Runs(Next(), Do(s, Done(op, err)), steps, s')
    ensures op < |s'.ops| && s'.ops[op].closes == 1 && s'.ops[op].err == err
  {
    StepKeepsInv(s, Done(op, err));
    OutForGood(Do(s, Done(op, err)), steps, s', op);
  }

  // ----- When operations get lost ---------------------------------------------------------------------

  /** An operation nobody can complete any more. */
  predicate Lost(s: State, op: nat) { Out(s, op) && s.ops[op].closes == 0 }

  ghost predicate NoneLost(s: State) { forall op: nat :: op < |s.ops| ==> !Lost(s, op) }

  ghost predicate NeverDisplaces(s: State, steps: seq<Step>)
    decreases |steps|
  {
    if steps == [] then true
    else
      var earlier, last := steps[..|steps|-1], steps[|steps|-1];
      NeverDisplaces(s, earlier) && forall m :: Runs(Next(), s, earlier, m) ==> !Displaces(m, last)
  }

  lemma {:induction false} SameEnd(s: State, steps: seq<Step>, a: State, b: State)
    requires Runs(Next(), s, steps, a) && Runs(Next(), s, steps, b)
    ensures a == b
    decreases |steps|
  {
    if steps != [] {
      var earlier, last := steps[..|steps|-1], steps[|steps|-1];
      var m :| Runs(Next(), s, earlier, m) && Next()(m, last, a);
      var n :| Runs(Next(), s, earlier, n) && Next()(n, last, b);
      SameEnd(s, earlier, m, n);
    }
  }

  lemma LossStep(s: State, step: Step)
    requires Inv(s) && Enabled(s, step)
    ensures NoneLost(Do(s, step)) <==> NoneLost(s) && !Displaces(s, step)
  {
    var s' := Do(s, step);
    if op: nat :| op < |s.ops| && Lost(s, op) {
      OutStep(s, step, op);
      assert Lost(s', op);
    } else if Displaces(s, step) {
      var op := s.registry[s.inGap[step.i].container];
      assert Lost(s', op);
    } else {
      forall op: nat | op < |s'.ops| ensures !Lost(s', op) {
        if op < |s.ops| {
          assert !Lost(s, op);
        }
      }
    }
  }

  /** Over any run, every operation created is registered or closed at the end if and only if no
      createOperation registered over another one that came first through the gap. */
  lemma {:induction false} LostExactlyWhenDisplaced(s: State, steps: seq<Step>, s': State)
    requires Inv(s) && NoneLost(s) && Runs(Next(), s, steps, s')
    ensures NoneLost(s') <==> NeverDisplaces(s, steps)
    decreases |steps|
  {
    if steps != [] {
      var earlier, last := steps[..|steps|-1], steps[|steps|-1];
      var m :| Runs(Next(), s, earlier, m) && Next()(m, last, s');
      LostExactlyWhenDisplaced(s, earlier, m);
      RunKeepsInv(s, earlier, m);
      LossStep(m, last);
      if !Displaces(m, last) {
        forall n | Runs(Next(), s, earlier, n) ensures !Displaces(n, last) {
          SameEnd(s, earlier, m, n);
        }
      }
    }
  }

  lemma TwoInGap(check: Step) returns (s: State)
    requires check.Check?
    ensures Runs(Next(), INIT, [] + [check] + [check], s)
    ensures var creator := Creator(check.container, check.action, check.reusable); s == State([], map[],
            [creator, creator])
  {
    var one := Do(INIT, check);
    RunSnoc(Next(), INIT, [], INIT, check, one);
    s := Do(one, check);
    RunSnoc(Next(), INIT, [] + [check], one, check, s);
  }

  /** Two calls of createOperation for one container, both in the gap, lose the operation that is
      registered first. */
  lemma OperationsGetLost(container: int, action: string) returns (steps: seq<Step>, s: State)
    ensures Runs(Next(), INIT, steps, s) && Lost(s, 0) && Registered(s, 1)
  {
    var check := Check(container, action, false, false);
    s := TwoInGap(check);
    steps := [] + [check] + [check];
    var t := Do(s, Register(0));
    RunSnoc(Next(), INIT, steps, s, Register(0), t);
    steps := steps + [Register(0)];
    s := Do(t, Register(0));
    RunSnoc(Next(), INIT, steps, t, Register(0), s);
    steps := steps + [Register(0)];
  }

  /** One creator of a container at a time in the gap is enough for that. */
  ghost predicate SoloInv(s: State) {
    && (forall i :: 0 <= i < |s.inGap| ==> s.inGap[i].container !in s.registry)
    && (forall i, j :: 0 <= i < j < |s.inGap| ==> s.inGap[i].container != s.inGap[j].container)
  }

  predicate Solo(s: State, step: Step) {
    step.Check? ==> forall i :: 0 <= i < |s.inGap| ==> s.inGap[i].container != step.container
  }

  lemma SoloNeverDisplaces(s: State, step: Step)
    requires SoloInv(s) && Solo(s, step) && Enabled(s, step)
    ensures !Displaces(s, step) && SoloInv(Do(s, step))
  {
  }

  function SoloNext(): (State, Step, State) -> bool {
    (s: State, step: Step, s': State) => Solo(s, step) && Enabled(s, step) && s' == Do(s, step)
  }

  /** Runs in which no two calls for one container are in the gap together lose nothing. */
  lemma {:induction false} SoloRunsLoseNothing(s: State, steps: seq<Step>, s': State)
    requires Inv(s) && NoneLost(s) && SoloInv(s) && Runs(SoloNext(), s, steps, s')
    ensures Inv(s') && NoneLost(s') && SoloInv(s')
    decreases |steps|
  {
    if steps != [] {
      var earlier, last := steps[..|steps|-1], steps[|steps|-1];
      var m :| Runs(SoloNext(), s, earlier, m) && SoloNext()(m, last, s');
      SoloRunsLoseNothing(s, earlier, m);
      SoloNeverDisplaces(m, last);
      LossStep(m, last);
      StepKeepsInv(m, last);
    }
  }

  // ----- The table of operations -------------------------------------------------------------------------

  datatype Got = NoOperation | OtherAction(action: string) | Found(op: nat)

  /** lxcContainerOperations with its lock. */
  class OperationTable {
    var ops: seq<Op>
    var registry: map<int, nat>
    var inGap: seq<Creator>

    function View(): State
      reads this
    {
      State(ops, registry, inGap)
    }

    constructor ()
      ensures View() == INIT
    {
      ops, registry, inGap := [], map[], [];
    }

    /** getOperation: any action, or the one asked for. */
    method Get(container: int, action: string) returns (r: Got)
      requires Inv(View())
      ensures r.NoOperation? <==> container !in registry
      ensures r.OtherAction? <==> container in registry && action != "" && ops[registry[container]].action != action
      ensures r.Found? ==> r.op < |ops| && Registered(View(), r.op) && ops[r.op].container == container
      ensures r.Found? && action != "" ==> ops[r.op].action == action
    {
      if container !in registry {
        return NoOperation;
      }
      var op := registry[container];
      if action != "" && ops[op].action != action {
        return OtherAction(ops[op].action);
      }
      return Found(op);
    }

    /** The first half of createOperation: an existing operation is shared or in the way. */
    method CheckFree(container: int, action: string, reusable: bool, reuse: bool)
      returns (shared: Option<nat>, busy: bool)
      requires Inv(View())
      modifies this
      ensures View() == Do(old(View()), Check(container, action, reusable, reuse))
      ensures busy || shared.Some? <==> container in old(registry)
      ensures shared.Some? <==> container in old(registry) && reuse && old(ops)[old(registry)[container]].reusable
      ensures shared.Some? ==> !busy && Registered(View(), shared.value)
      ensures ops == old(ops) && registry == old(registry)
      ensures inGap == old(inGap) + if busy || shared.Some? then [] else [Creator(container, action, reusable)]
    {
      shared, busy := None, false;
      var got := Get(container, "");
      if got.Found? {
        if reuse && ops[got.op].reusable {
          shared := Some(got.op);
        } else {
          busy := true;
        }
      } else {
        inGap := inGap + [Creator(container, action, reusable)];
      }
    }

    /** The second half, which does not look again. */
    method RegisterNew(i: nat) returns (op: nat)
      requires i < |inGap|
      modifies this
      ensures View() == Do(old(View()), Register(i))
      ensures op == |old(ops)| && Registered(View(), op)
      ensures var c := old(inGap)[i];
              && ops == old(ops) + [Op(c.container, c.action, c.reusable, 0, None)]
              && registry == old(registry)[c.container := op]
    {
      var c := inGap[i];
      op := |ops|;
      ops := ops + [Op(c.container, c.action, c.reusable, 0, None)];
      registry := registry[c.container := op];
      inGap := inGap[..i] + inGap[i+1..];
    }

    method Done(op: nat, err: Error)
      requires op < |ops|
      modifies this
      ensures View() == Do(old(View()), Step.Done(op, err))
      ensures var was := old(ops)[op];
              if was.container in old(registry) && old(registry)[was.container] == op then
                && ops == old(ops)[op := Op(was.container, was.action, was.reusable, was.closes + 1, err)]
                && registry == old(registry) - {was.container}
              else ops == old(ops) && registry == old(registry)
    {
      var container := ops[op].container;
      if container !in registry || registry[container] != op {
        return;
      }
      ops := ops[op := ops[op].(err := err, closes := ops[op].closes + 1)];
      registry := registry - {container};
    }
  }
}
