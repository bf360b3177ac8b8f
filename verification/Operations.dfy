// Background operations of the daemon (lxd/operations.go): one operation, the goroutine of its
// run hook, any number of Cancel and Update calls, and the timer that drops it from the
// registry.
//
// done(), Cancel and the two update calls check the status or readonly without the lock and take
// the lock afterwards to write.  Whether each of these checks counts as one step with its write
// is a parameter of the model.
module Operations {
  import opened GoStrings
  import opened Machines

  // ----- State ----------------------------------------------------------------------------------

  datatype Class = Task | Websocket | Token

  datatype Status = Pending | Running | Cancelling | Success | Failure | Cancelled

  predicate Final(s: Status) { s == Success || s == Failure || s == Cancelled }

  /** Metadata may be nil. */
  type Metadata = Option<map<string, string>>

  type Resources = map<string, seq<string>>

  datatype Data = Data(metadata: Metadata, resources: Resources)

  datatype Change = NewMetadata(metadata: Metadata) | NewResources(resources: Resources)

  /** The goroutine of the run hook.  RunnerChecked: it found readonly false, in done(). */
  datatype Runner = NoRunner | Spawned | InHook | Returned | RunnerChecked | RunnerOver

  /** One call of Cancel.  Guarded: it found the operation running and may cancel it;
      CancelChecked: it found readonly false, in done(). */
  datatype Canceller = Guarded | Armed | StatusSet | CancelChecked | CancelOver

  /** hasRun: there is a run hook.  offers: the run hook installs a canceler (image downloads).
      atomic: every check counts as one step with the write that follows it. */
  datatype Config = Config(cls: Class, hasRun: bool, offers: bool, atomic: bool)

  /** operationCreate rejects token operations with a run hook. */
  predicate Creatable(c: Config) { c.cls == Token ==> !c.hasRun }

  datatype State = State(
    status: Status,
    readonly: bool,
    closes: nat,          // how often close(op.chanDone) was executed
    data: Data,
    runner: Runner,
    hook: Option<bool>,   // what the run hook returned
    cancelable: bool,     // the canceler has a request to cancel
    cancels: seq<Canceller>,
    updates: seq<Change>, // update calls that passed their checks and have not written yet
    timers: nat,          // armed by done(), not yet fired
    registered: bool)

  function Created(data: Data): State {
    State(Pending, false, 0, data, NoRunner, None, false, [], [], 0, true)
  }

  // ----- Steps -----------------------------------------------------------------------------------

  datatype Step =
    | Run
    | HookStarts
    | HookOffers(on: bool)
    | HookReturns(ok: bool)
    | HookWrites(text: string)
    | RunnerDone
    | RunnerCheck
    | RunnerClose
    | Cancel
    | CancelGuard
    | CancelStarts(i: nat)
    | CancelFails(i: nat)
    | CancelSets(i: nat)
    | CancelDone(i: nat)
    | CancelCheck(i: nat)
    | CancelClose(i: nat)
    | Update(change: Change)
    | UpdateGuard(change: Change)
    | UpdateWrite(i: nat)
    | Expire

  predicate MayCancel(c: Config, s: State) { c.cls == Token || s.cancelable }

  /** The guard of Cancel. */
  predicate Cancellable(c: Config, s: State) { s.status == Running && MayCancel(c, s) }

  /** The guard of both update calls. */
  predicate Updatable(s: State) { (s.status == Pending || s.status == Running) && !s.readonly }

  predicate At(s: State, i: nat, pc: Canceller) { i < |s.cancels| && s.cancels[i] == pc }

  predicate Enabled(c: Config, s: State, step: Step) {
    match step
    case Run => s.status == Pending
    case HookStarts => s.runner == Spawned
    case HookOffers(_) => s.runner == InHook && c.offers
    case HookReturns(_) => s.runner == InHook
    case HookWrites(_) => s.runner == InHook && c.offers && s.data.metadata.Some?
    case RunnerDone => s.runner == Returned && c.atomic
    case RunnerCheck => s.runner == Returned && !c.atomic
    case RunnerClose => s.runner == RunnerChecked
    case Cancel => Cancellable(c, s) && c.atomic
    case CancelGuard => Cancellable(c, s) && !c.atomic
    case CancelStarts(i) => At(s, i, Guarded)
    case CancelFails(i) => At(s, i, Armed) && c.cls != Token
    case CancelSets(i) => At(s, i, Armed)
    case CancelDone(i) => At(s, i, StatusSet) && c.atomic
    case CancelCheck(i) => At(s, i, StatusSet) && !c.atomic
    case CancelClose(i) => At(s, i, CancelChecked)
    case Update(_) => Updatable(s) && c.atomic
    case UpdateGuard(_) => Updatable(s) && !c.atomic
    case UpdateWrite(i) => i < |s.updates|
    case Expire => 0 < s.timers
  }

  /** The locked section of done(). */
  function Shut(s: State): State {
    s.(readonly := true, closes := s.closes + 1, timers := s.timers + 1)
  }

  function Done(s: State): State {
    if s.readonly then s else Shut(s)
  }

  function Moved(s: State, i: nat, pc: Canceller): State
    requires i < |s.cancels|
  {
    s.(cancels := s.cancels[i := pc])
  }

  function Changed(d: Data, change: Change): Data {
    match change
    case NewMetadata(m) => d.(metadata := m)
    case NewResources(r) => d.(resources := r)
  }

  const PROGRESS := "download_progress"

  /** The progress callback of an image download writes into the map that the operation holds. */
  function Progressed(d: Data, text: string): Data
    requires d.metadata.Some?
  {
    d.(metadata := Some(d.metadata.value[PROGRESS := text]))
  }

  function Do(c: Config, s: State, step: Step): State
    requires Enabled(c, s, step)
  {
    match step
    case Run => s.(status := Running, runner := if c.hasRun then Spawned else NoRunner)
    case HookStarts => s.(runner := InHook)
    case HookOffers(on) => s.(cancelable := on)
    case HookReturns(ok) => s.(status := if ok then Success else Failure, runner := Returned, hook := Some(ok))
    case HookWrites(text) => s.(data := Progressed(s.data, text))
    case RunnerDone => Done(s).(runner := RunnerOver)
    case RunnerCheck => s.(runner := if s.readonly then RunnerOver else RunnerChecked)
    case RunnerClose => Shut(s).(runner := RunnerOver)
    case Cancel => s.(status := Cancelling, cancels := s.cancels + [Armed])
    case CancelGuard => s.(cancels := s.cancels + [Guarded])
    case CancelStarts(i) => Moved(s.(status := Cancelling), i, Armed)
    case CancelFails(i) => Moved(s, i, CancelOver)
    case CancelSets(i) => Moved(s.(status := Cancelled), i, StatusSet)
    case CancelDone(i) => Moved(Done(s), i, CancelOver)
    case CancelCheck(i) => Moved(s, i, if s.readonly then CancelOver else CancelChecked)
    case CancelClose(i) => Moved(Shut(s), i, CancelOver)
    case Update(change) => s.(data := Changed(s.data, change))
    case UpdateGuard(change) => s.(updates := s.updates + [change])
    case UpdateWrite(i) => s.(data := Changed(s.data, s.updates[i]), updates := s.updates[..i] + s.updates[i + 1..])
    case Expire => s.(timers := s.timers - 1, registered := false)
  }

  function Next(c: Config): (State, Step, State) -> bool {
    (s: State, step: Step, s': State) => Enabled(c, s, step) && s' == Do(c, s, step)
  }

  ghost predicate Reachable(c: Config, s: State) { exists data :: Later(Next(c), Created(data), s) }

  lemma Take(c: Config, a: State, s: State, step: Step) returns (s': State)
    requires Later(Next(c), a, s) && Enabled(c, s, step)
    ensures s' == Do(c, s, step) && Later(Next(c), a, s')
  {
    s' := Do(c, s, step);
    Follow(Next(c), a, s, step, s');
  }

  // ----- Checks as steps of their own ------------------------------------------------------------------

  predicate Split(c: Config, one: Config) { !c.atomic && one == c.(atomic := true) }

  /** An update that nothing interrupts does what it does as a single step. */
  lemma UpdateUninterrupted(c: Config, one: Config, s: State, change: Change)
    requires Split(c, one)
    ensures Enabled(c, s, UpdateGuard(change)) <==> Enabled(one, s, Update(change))
    ensures Enabled(one, s, Update(change)) ==>
              var s1 := Do(c, s, UpdateGuard(change));
              && Enabled(c, s1, UpdateWrite(|s.updates|))
              && Do(c, s1, UpdateWrite(|s.updates|)) == Do(one, s, Update(change))
  {
    if Enabled(one, s, Update(change)) {
      var s1 := Do(c, s, UpdateGuard(change));
      var n := |s.updates|;
      assert s1.updates[..n] + s1.updates[n + 1..] == s.updates;
    }
  }

  /** So does the guard of Cancel with its write, */
  lemma CancelUninterrupted(c: Config, one: Config, s: State)
    requires Split(c, one)
    ensures Enabled(c, s, CancelGuard) <==> Enabled(one, s, Cancel)
    ensures Enabled(one, s, Cancel) ==>
              var s1 := Do(c, s, CancelGuard);
              && Enabled(c, s1, CancelStarts(|s.cancels|))
              && Do(c, s1, CancelStarts(|s.cancels|)) == Do(one, s, Cancel)
  {
    if Enabled(one, s, Cancel) {
      var s1 := Do(c, s, CancelGuard);
      assert s1.cancels[|s.cancels| := Armed] == s.cancels + [Armed];
    }
  }

  /** done() at the end of a Cancel, */
  lemma CancelDoneUninterrupted(c: Config, one: Config, s: State, i: nat)
    requires Split(c, one)
    ensures Enabled(c, s, CancelCheck(i)) <==> Enabled(one, s, CancelDone(i))
    ensures Enabled(one, s, CancelDone(i)) ==>
              var s1 := Do(c, s, CancelCheck(i));
              && (Enabled(c, s1, CancelClose(i)) <==> !s.readonly)
              && (if s.readonly then s1 else Do(c, s1, CancelClose(i))) == Do(one, s, CancelDone(i))
  {
    if Enabled(one, s, CancelDone(i)) {
      assert s.cancels[i := CancelChecked][i := CancelOver] == s.cancels[i := CancelOver];
    }
  }

  /** and done() at the end of the run hook. */
  lemma RunnerDoneUninterrupted(c: Config, one: Config, s: State)
    requires Split(c, one)
    ensures Enabled(c, s, RunnerCheck) <==> Enabled(one, s, RunnerDone)
    ensures Enabled(one, s, RunnerDone) ==>
              var s1 := Do(c, s, RunnerCheck);
              && (Enabled(c, s1, RunnerClose) <==> !s.readonly)
              && (if s.readonly then s1 else Do(c, s1, RunnerClose)) == Do(one, s, RunnerDone)
  {
  }

  // ----- What every step keeps, atomic or not ---------------------------------------------------------

  /** The goroutine is past its hook. */
  predicate HookOver(r: Runner) { r == Returned || r == RunnerChecked || r == RunnerOver }

  /** Running is left for good when a cancel starts or the hook returns.  Only operations that may
      be cancelled have cancels, and only after their hook started. */
  predicate StatusInv(c: Config, s: State) {
    && (s.status == Pending ==> s.runner == NoRunner && s.cancels == [])
    && (s.status == Running ==>
          !HookOver(s.runner) && forall i :: 0 <= i < |s.cancels| ==> s.cancels[i] == Guarded)
    && (!c.hasRun ==> s.runner == NoRunner)
    && (c.hasRun && s.status != Pending ==> s.runner != NoRunner)
    && (s.cancelable ==> c.offers && (s.runner == InHook || HookOver(s.runner)))
    && (HookOver(s.runner) <==> s.hook.Some?)
    && (s.cancels != [] ==> c.cls == Token || (c.hasRun && c.offers && (s.runner == InHook || HookOver(s.runner))))
  }

  /** A final status tells what happened. */
  predicate TruthInv(s: State) {
    && (s.status == Success ==> s.hook == Some(true))
    && (s.status == Failure ==> s.hook == Some(false))
    && (s.status == Cancelled || s.status == Cancelling ==> s.cancels != [])
    && (s.cancels == [] && s.hook.Some? ==> s.status == if s.hook.value then Success else Failure)
  }

  /** Whoever closed the channel had a final status written before. */
  predicate CloseInv(c: Config, s: State) {
    && (s.readonly <==> 0 < s.closes)
    && (0 < s.timers || !s.registered ==> s.readonly)
    && (s.runner == RunnerOver ==> s.readonly)
    && (s.readonly ==> s.status != Pending && s.status != Running)
    && (s.readonly ==> HookOver(s.runner) || s.cancels != [])
    && (s.readonly ==> c.hasRun || c.cls == Token)
  }

  predicate Inv(c: Config, s: State) { StatusInv(c, s) && CloseInv(c, s) && TruthInv(s) }

  lemma StepKeepsStatus(c: Config, s: State, step: Step)
    requires Creatable(c) && StatusInv(c, s) && Enabled(c, s, step)
    ensures StatusInv(c, Do(c, s, step))
  {
  }

  lemma StepKeepsClose(c: Config, s: State, step: Step)
    requires Creatable(c) && Inv(c, s) && Enabled(c, s, step)
    ensures CloseInv(c, Do(c, s, step))
  {
  }

  lemma StepKeepsTruth(c: Config, s: State, step: Step)
    requires Creatable(c) && Inv(c, s) && Enabled(c, s, step)
    ensures TruthInv(Do(c, s, step))
  {
  }

  lemma ReachableInv(c: Config, s: State)
    requires Creatable(c) && Reachable(c, s)
    ensures Inv(c, s)
  {
    var data :| Later(Next(c), Created(data), s);
    var inside := iset x | Inv(c, x);
    forall x, step, x' | x in inside && Next(c)(x, step, x') ensures x' in inside {
      StepKeepsStatus(c, x, step);
      StepKeepsClose(c, x, step);
      StepKeepsTruth(c, x, step);
    }
    assert Created(data) in inside && Closed(Next(c), inside);
  }

  /** Over every interleaving, atomic or not: the channel is closed if and only if the operation is
      readonly, only readonly operations leave the registry, a readonly operation is past Pending
      and Running, and the goroutine never finds its hook already cleared. */
  lemma ClosedMeansReadonly(c: Config, s: State)
    requires Creatable(c) && Reachable(c, s)
    ensures s.readonly <==> 0 < s.closes
    ensures !s.registered ==> s.readonly
    ensures s.readonly ==> s.status != Pending && s.status != Running
    ensures Enabled(c, s, HookStarts) ==> !s.readonly
  {
    ReachableInv(c, s);
  }

  /** In every run: Success means that the hook returned without an error, Failure that it returned
      one, and Cancelled that somebody called Cancel.  An operation that nobody cancels and that has
      a run hook ends with what the hook returned. */
  lemma StatusTells(c: Config, s: State)
    requires Creatable(c) && Reachable(c, s)
    ensures s.status == Success ==> s.hook == Some(true)
    ensures s.status == Failure ==> s.hook == Some(false)
    ensures s.status == Cancelled ==> s.cancels != []
    ensures s.readonly && s.cancels == [] ==> s.hook.Some? && (s.status == Success <==> s.hook == Some(true))
                                              && (s.status == Failure <==> s.hook == Some(false))
  {
    ReachableInv(c, s);
  }

  /** The status is written by the hook's return and by nothing but that and Cancel. */
  lemma HookDecides(c: Config, s: State, step: Step, s': State)
    requires Next(c)(s, step, s')
    ensures step == HookReturns(true) ==> s'.status == Success && s'.hook == Some(true)
    ensures step == HookReturns(false) ==> s'.status == Failure && s'.hook == Some(false)
    ensures !step.HookReturns? ==> s'.hook == s.hook
  {
  }

  // ----- Closed once, and with a final status ---------------------------------------------------------

  /** Two calls may race for one operation: two Cancels of a token, or a Cancel and the end of
      the run hook. */
  predicate Contended(c: Config) { !c.atomic && (c.cls == Token || (c.hasRun && c.offers)) }

  /** Without such a race there is at most one cancel, and every close follows a final status. */
  predicate OnceInv(c: Config, s: State) {
    && s.closes <= 1
    && |s.cancels| <= 1
    && (!c.atomic ==> s.cancels == [])
    && (s.runner == RunnerChecked ==> !c.atomic && s.closes == 0)
    && !At(s, 0, Guarded) && !At(s, 0, CancelChecked)
    && (At(s, 0, StatusSet) || HookOver(s.runner) || s.readonly ==> Final(s.status))
    && (s.readonly ==> HookOver(s.runner) || At(s, 0, CancelOver))
    && (At(s, 0, Armed) ==> s.status != Cancelled)
  }

  lemma StepKeepsOnce(c: Config, s: State, step: Step)
    requires Creatable(c) && !Contended(c) && Inv(c, s) && OnceInv(c, s) && Enabled(c, s, step)
    ensures OnceInv(c, Do(c, s, step))
  {
  }

  lemma ReachableOnce(c: Config, s: State)
    requires Creatable(c) && !Contended(c) && Reachable(c, s)
    ensures Inv(c, s) && OnceInv(c, s)
  {
    var data :| Later(Next(c), Created(data), s);
    var inside := iset x: State | Inv(c, x) && OnceInv(c, x);
    forall x, step, x' | x in inside && Next(c)(x, step, x') ensures x' in inside {
      StepKeepsStatus(c, x, step);
      StepKeepsClose(c, x, step);
      StepKeepsTruth(c, x, step);
      StepKeepsOnce(c, x, step);
    }
    assert Created(data) in inside && Closed(Next(c), inside);
  }

  const NOTHING := Created(Data(None, map[]))

  /** Two Cancels of a token operation that both found it running. */
  lemma TokenRace(c: Config) returns (s: State)
    requires c.cls == Token && !c.hasRun && !c.atomic
    ensures Later(Next(c), NOTHING, s)
    ensures s == NOTHING.(status := Running, cancels := [Guarded, Guarded])
  {
    Stay(Next(c), NOTHING);
    s := Take(c, NOTHING, NOTHING, Run);
    s := Take(c, NOTHING, s, CancelGuard);
    s := Take(c, NOTHING, s, CancelGuard);
    assert s.cancels == [Guarded, Guarded];
  }

  /** A download under way, after its first progress callback. */
  const DOWNLOADING := NOTHING.(status := Running, runner := InHook, cancelable := true,
                                data := Data(Some(map[PROGRESS := "some"]), map[]))

  lemma Downloads(c: Config) returns (s: State)
    requires c.hasRun && c.offers
    ensures Later(Next(c), NOTHING, s) && s == DOWNLOADING
  {
    var first := NewMetadata(DOWNLOADING.data.metadata);
    Stay(Next(c), NOTHING);
    s := Take(c, NOTHING, NOTHING, Run);
    s := Take(c, NOTHING, s, HookStarts);
    s := Take(c, NOTHING, s, HookOffers(true));
    if c.atomic {
      s := Take(c, NOTHING, s, Update(first));
    } else {
      s := Take(c, NOTHING, s, UpdateGuard(first));
      s := Take(c, NOTHING, s, UpdateWrite(0));
    }
    assert s.updates == [];
  }

  /** A canceler that fails leaves a running operation in Cancelling, with nobody to cancel it. */
  lemma CancelFailed(c: Config) returns (s: State)
    requires Creatable(c) && c.hasRun && c.offers
    ensures Reachable(c, s) && s.status == Cancelling && s.runner == InHook && !s.readonly
    ensures s.cancels == [CancelOver] && !Cancellable(c, s)
  {
    s := Downloads(c);
    if c.atomic {
      s := Take(c, NOTHING, s, Cancel);
    } else {
      s := Take(c, NOTHING, s, CancelGuard);
      s := Take(c, NOTHING, s, CancelStarts(0));
    }
    s := Take(c, NOTHING, s, CancelFails(0));
    assert s.cancels == [CancelOver];
  }

  /** A Cancel that found the operation running while its hook is at work. */
  lemma HookRace(c: Config) returns (s: State)
    requires c.hasRun && c.offers && !c.atomic
    ensures Later(Next(c), NOTHING, s) && s == DOWNLOADING.(cancels := [Guarded])
  {
    s := Downloads(c);
    s := Take(c, NOTHING, s, CancelGuard);
    assert s.cancels == [Guarded];
  }

  /** A cancel during the run hook closes the operation under the hook's feet, atomic or not. */
  lemma ClosedInHook(c: Config) returns (s: State)
    requires c.hasRun && c.offers
    ensures Reachable(c, s) && s.readonly && s.runner == InHook && s.data == DOWNLOADING.data
  {
    if c.atomic {
      s := Downloads(c);
      s := Take(c, NOTHING, s, Cancel);
      s := Take(c, NOTHING, s, CancelSets(0));
      s := Take(c, NOTHING, s, CancelDone(0));
    } else {
      s := HookRace(c);
      s := CancelWrites(c, NOTHING, s, 0);
      s := Take(c, NOTHING, s, CancelCheck(0));
      s := Take(c, NOTHING, s, CancelClose(0));
    }
  }

  /** A Cancel that passed its guard goes on to the check in done(). */
  lemma CancelWrites(c: Config, a: State, s: State, i: nat) returns (s': State)
    requires Later(Next(c), a, s) && At(s, i, Guarded)
    ensures Later(Next(c), a, s')
    ensures s' == s.(status := Cancelled, cancels := s.cancels[i := StatusSet])
  {
    s' := Take(c, a, s, CancelStarts(i));
    s' := Take(c, a, s', CancelSets(i));
    assert s'.cancels == s.cancels[i := StatusSet];
  }

  lemma DoubleClose(c: Config) returns (s: State)
    requires Contended(c) && Creatable(c)
    ensures Reachable(c, s) && s.closes == 2
  {
    if c.cls == Token {
      s := TokenRace(c);
      s := CancelWrites(c, NOTHING, s, 0);
      s := CancelWrites(c, NOTHING, s, 1);
      s := Take(c, NOTHING, s, CancelCheck(0));
      s := Take(c, NOTHING, s, CancelCheck(1));
      s := Take(c, NOTHING, s, CancelClose(0));
      s := Take(c, NOTHING, s, CancelClose(1));
    } else {
      s := HookRace(c);
      s := CancelWrites(c, NOTHING, s, 0);
      s := Take(c, NOTHING, s, HookReturns(true));
      s := Take(c, NOTHING, s, RunnerCheck);
      s := Take(c, NOTHING, s, CancelCheck(0));
      s := Take(c, NOTHING, s, RunnerClose);
      s := Take(c, NOTHING, s, CancelClose(0));
    }
  }

  /** A Cancel writes Cancelling after the operation was closed. */
  lemma LateCancelling(c: Config) returns (s: State)
    requires Contended(c) && Creatable(c)
    ensures Reachable(c, s) && s.readonly && s.status == Cancelling
  {
    if c.cls == Token {
      s := TokenClosed(c);
      s := Take(c, NOTHING, s, CancelStarts(1));
    } else {
      s := HookRace(c);
      s := Take(c, NOTHING, s, HookReturns(true));
      s := Take(c, NOTHING, s, RunnerCheck);
      s := Take(c, NOTHING, s, RunnerClose);
      s := Take(c, NOTHING, s, CancelStarts(0));
    }
  }

  lemma TokenClosed(c: Config) returns (s: State)
    requires c.cls == Token && !c.hasRun && !c.atomic
    ensures Later(Next(c), NOTHING, s) && s.readonly && At(s, 1, Guarded)
  {
    s := TokenRace(c);
    s := CancelWrites(c, NOTHING, s, 0);
    s := Take(c, NOTHING, s, CancelCheck(0));
    s := Take(c, NOTHING, s, CancelClose(0));
  }

  /** No run closes the channel twice: exactly when no two calls race for the operation. */
  lemma ClosedOnceExactly(c: Config)
    requires Creatable(c)
    ensures (forall s :: Reachable(c, s) ==> s.closes <= 1) <==> !Contended(c)
  {
    if Contended(c) {
      var s := DoubleClose(c);
    } else {
      forall s | Reachable(c, s) ensures s.closes <= 1 {
        ReachableOnce(c, s);
      }
    }
  }

  /** In every run a readonly operation has a final status: exactly under the same condition. */
  lemma ReadonlyMeansFinal(c: Config)
    requires Creatable(c)
    ensures (forall s :: Reachable(c, s) && s.readonly ==> Final(s.status)) <==> !Contended(c)
  {
    if Contended(c) {
      var s := LateCancelling(c);
    } else {
      forall s | Reachable(c, s) && s.readonly ensures Final(s.status) {
        ReachableOnce(c, s);
      }
    }
  }

  // ----- Metadata and resources freeze --------------------------------------------------------------

  /** Something can close the operation. */
  predicate Closable(c: Config) { c.hasRun || c.cls == Token }

  /** The run hook writes into the metadata on its own. */
  predicate WritesInPlace(c: Config) { c.hasRun && c.offers }

  lemma StepKeepsData(c: Config, s: State, step: Step)
    requires c.atomic && s.readonly && s.updates == [] && Enabled(c, s, step)
    ensures var s' := Do(c, s, step); s'.readonly && s'.updates == [] && s'.data.resources == s.data.resources
    ensures !step.HookWrites? ==> Do(c, s, step).data == s.data
  {
  }

  lemma FrozenWhenAtomic(c: Config, s: State, s': State)
    requires Creatable(c) && c.atomic && Reachable(c, s) && s.readonly && Later(Next(c), s, s')
    ensures s'.data.resources == s.data.resources
    ensures !WritesInPlace(c) ==> s'.data == s.data
  {
    NoPendingUpdates(c, s);
    ReachableInv(c, s);
    var inside := iset x: State | Frozen(c, s, x);
    forall x, step, x' | x in inside && Next(c)(x, step, x') ensures x' in inside {
      StepKeepsData(c, x, step);
      StepKeepsStatus(c, x, step);
    }
    assert s in inside && Closed(Next(c), inside);
    assert s' in inside;
  }

  predicate Frozen(c: Config, s: State, x: State) {
    && StatusInv(c, x) && x.readonly && x.updates == [] && x.data.resources == s.data.resources
    && (!WritesInPlace(c) ==> x.data == s.data)
  }

  lemma AtomicUpdates(c: Config, s: State, step: Step)
    requires c.atomic && s.updates == [] && Enabled(c, s, step)
    ensures Do(c, s, step).updates == []
  {
  }

  lemma NoPendingUpdates(c: Config, s: State)
    requires c.atomic && Reachable(c, s)
    ensures s.updates == []
  {
    var data :| Later(Next(c), Created(data), s);
    var inside := iset x: State | x.updates == [];
    forall x, step, x' | x in inside && Next(c)(x, step, x') ensures x' in inside {
      AtomicUpdates(c, x, step);
    }
    assert Created(data) in inside && Closed(Next(c), inside);
  }

  const SOME_RESOURCES := NewResources(map["" := []])

  /** An update that passed its checks before the operation was closed. */
  lemma ClosedDuringUpdate(c: Config) returns (s: State)
    requires Creatable(c) && !c.atomic && Closable(c)
    ensures Later(Next(c), NOTHING, s) && s.readonly && s.updates == [SOME_RESOURCES] && s.data == NOTHING.data
  {
    Stay(Next(c), NOTHING);
    s := Take(c, NOTHING, NOTHING, Run);
    s := Take(c, NOTHING, s, UpdateGuard(SOME_RESOURCES));
    if c.hasRun {
      s := Take(c, NOTHING, s, HookStarts);
      s := Take(c, NOTHING, s, HookReturns(true));
      s := Take(c, NOTHING, s, RunnerCheck);
      s := Take(c, NOTHING, s, RunnerClose);
    } else {
      s := Take(c, NOTHING, s, CancelGuard);
      s := CancelWrites(c, NOTHING, s, 0);
      s := Take(c, NOTHING, s, CancelCheck(0));
      s := Take(c, NOTHING, s, CancelClose(0));
    }
  }

  lemma LateUpdate(c: Config) returns (s: State, s': State)
    requires Creatable(c) && !c.atomic && Closable(c)
    ensures Reachable(c, s) && s.readonly && Later(Next(c), s, s') && s'.data.resources != s.data.resources
  {
    s := ClosedDuringUpdate(c);
    Stay(Next(c), s);
    s' := Take(c, s, s, UpdateWrite(0));
    assert "" in s'.data.resources;
  }

  /** A progress callback of a download that was cancelled, atomic or not. */
  lemma LateProgress(c: Config) returns (s: State, s': State)
    requires WritesInPlace(c)
    ensures Reachable(c, s) && s.readonly && Later(Next(c), s, s') && s'.data != s.data
  {
    s := ClosedInHook(c);
    Stay(Next(c), s);
    s' := Take(c, s, s, HookWrites("more"));
    assert s'.data.metadata.value[PROGRESS] == "more";
    assert s.data.metadata.value[PROGRESS] == "some";
    assert |"more"| == 4 && "more"[0] != "some"[0];
  }

  /** Resources never change again once the operation is readonly, in any run: exactly when the
      checks of the update calls are atomic, or nothing closes the operation. */
  lemma ResourcesFrozenExactly(c: Config)
    requires Creatable(c)
    ensures (forall s, s' :: Reachable(c, s) && s.readonly && Later(Next(c), s, s') ==>
              s'.data.resources == s.data.resources) <==>
            c.atomic || !Closable(c)
  {
    if c.atomic || !Closable(c) {
      forall s, s' | Reachable(c, s) && s.readonly && Later(Next(c), s, s')
        ensures s'.data.resources == s.data.resources
      {
        ReachableInv(c, s);
        FrozenWhenAtomic(c, s, s');
      }
    } else {
      var s, s' := LateUpdate(c);
    }
  }

  /** Metadata and resources never change again once the operation is readonly, in any run:
      exactly when nothing closes the operation, or the checks of the update calls are atomic and
      the run hook does not write into the metadata on its own. */
  lemma DataFrozenExactly(c: Config)
    requires Creatable(c)
    ensures (forall s, s' :: Reachable(c, s) && s.readonly && Later(Next(c), s, s') ==> s'.data == s.data)
            <==> !Closable(c) || (c.atomic && !WritesInPlace(c))
  {
    if !Closable(c) || (c.atomic && !WritesInPlace(c)) {
      forall s, s' | Reachable(c, s) && s.readonly && Later(Next(c), s, s') ensures s'.data == s.data {
        ReachableInv(c, s);
        FrozenWhenAtomic(c, s, s');
      }
    } else if WritesInPlace(c) {
      var s, s' := LateProgress(c);
    } else {
      var s, s' := LateUpdate(c);
    }
  }

  // ----- When the status settles ----------------------------------------------------------------------

  /** Nobody is left who would still write another status. */
  predicate Settled(s: State) {
    && s.readonly && s.runner != InHook
    && (forall i :: 0 <= i < |s.cancels| ==> s.cancels[i] != Guarded)
    && (s.status != Cancelled ==> forall i :: 0 <= i < |s.cancels| ==> s.cancels[i] != Armed)
  }

  lemma StepKeepsSettled(c: Config, s: State, step: Step)
    requires Creatable(c) && Inv(c, s) && Settled(s) && Enabled(c, s, step)
    ensures Do(c, s, step).status == s.status && Settled(Do(c, s, step))
  {
  }

  lemma SettledStays(c: Config, s: State, s': State)
    requires Creatable(c) && Inv(c, s) && Settled(s) && Later(Next(c), s, s')
    ensures s'.status == s.status
  {
    var inside := iset x: State | Inv(c, x) && Settled(x) && x.status == s.status;
    forall x, step, x' | x in inside && Next(c)(x, step, x') ensures x' in inside {
      StepKeepsStatus(c, x, step);
      StepKeepsClose(c, x, step);
      StepKeepsTruth(c, x, step);
      StepKeepsSettled(c, x, step);
    }
    assert s in inside && Closed(Next(c), inside);
  }

  lemma UnsettledChanges(c: Config, s: State) returns (s': State)
    requires s.readonly && !Settled(s)
    ensures Later(Next(c), s, s') && s'.status != s.status
  {
    Stay(Next(c), s);
    if s.runner == InHook {
      s' := Take(c, s, s, HookReturns(s.status != Success));
    } else if i :| 0 <= i < |s.cancels| && s.cancels[i] == Guarded {
      s' := Take(c, s, s, CancelStarts(i));
      if s.status == Cancelling {
        s' := Take(c, s, s', CancelSets(i));
      }
    } else {
      var i :| 0 <= i < |s.cancels| && s.cancels[i] == Armed;
      s' := Take(c, s, s, CancelSets(i));
    }
  }

  /** The status that a waiter finds when the channel is closed can still change afterwards:
      exactly while the run hook has not returned, or a cancel that has passed its guard has not
      written its result. */
  lemma StatusSettlesExactly(c: Config, s: State)
    requires Creatable(c) && Reachable(c, s) && s.readonly
    ensures (forall s' :: Later(Next(c), s, s') ==> s'.status == s.status) <==> Settled(s)
  {
    ReachableInv(c, s);
    if Settled(s) {
      forall s' | Later(Next(c), s, s') ensures s'.status == s.status {
        SettledStays(c, s, s');
      }
    } else {
      var s' := UnsettledChanges(c, s);
    }
  }

  /** A readonly operation is settled in every run: exactly when its run hook cannot be cancelled
      and it is no token that two Cancels may race for. */
  lemma AlwaysSettledExactly(c: Config)
    requires Creatable(c)
    ensures (forall s :: Reachable(c, s) && s.readonly ==> Settled(s)) <==>
            !(c.hasRun && c.offers) && (c.atomic || c.cls != Token)
  {
    if c.hasRun && c.offers {
      var s := ClosedInHook(c);
    } else if !c.atomic && c.cls == Token {
      var s := TokenClosed(c);
    } else {
      forall s | Reachable(c, s) && s.readonly ensures Settled(s) {
        ReachableOnce(c, s);
      }
    }
  }

  // ----- The object and its methods -----------------------------------------------------------------------

  /** An operation and its goroutines, with atomic checks.  Every method is one step of the
      machine above, or refuses and changes nothing. */
  class Operation {
    const config: Config
    var status: Status
    var readonly: bool
    var closes: nat
    var metadata: Metadata
    var resources: Resources
    var runner: Runner
    var hook: Option<bool>
    var cancelable: bool
    var cancels: seq<Canceller>
    var timers: nat
    var registered: bool

    function View(): State
      reads this
    {
      State(status, readonly, closes, Data(metadata, resources), runner, hook, cancelable, cancels, [], timers,
            registered)
    }

    constructor (config: Config, data: Data)
      requires Creatable(config) && config.atomic
      ensures this.config == config && View() == Created(data)
      ensures status == Pending && !readonly && closes == 0 && registered
      ensures metadata == data.metadata && resources == data.resources
    {
      this.config := config;
      status, readonly, closes := Pending, false, 0;
      metadata, resources := data.metadata, data.resources;
      runner, hook, cancelable, cancels := NoRunner, None, false, [];
      timers, registered := 0, true;
    }

    method CallDone()
      modifies this
      ensures View() == Done(old(View()))
      ensures readonly && status == old(status) && metadata == old(metadata) && resources == old(resources)
      ensures closes == old(closes) + (if old(readonly) then 0 else 1)
      ensures timers == old(timers) + (if old(readonly) then 0 else 1)
    {
      if readonly {
        return;
      }
      readonly := true;
      closes := closes + 1;
      timers := timers + 1;
    }

    method Run() returns (ok: bool)
      modifies this
      ensures ok <==> Enabled(config, old(View()), Step.Run)
      ensures View() == if ok then Do(config, old(View()), Step.Run) else old(View())
      ensures ok <==> old(status) == Pending
      ensures ok ==> status == Running && runner == if config.hasRun then Spawned else NoRunner
    {
      if status != Pending {
        return false;
      }
      status := Running;
      if config.hasRun {
        runner := Spawned;
      } else {
        runner := NoRunner;
      }
      return true;
    }

    /** The goroutine after the hook returned: write the status, then, as a second step, done(). */
    method HookReturned(success: bool)
      requires runner == InHook
      modifies this
      ensures View() == Do(config, old(View()), HookReturns(success))
      ensures status == (if success then Success else Failure) && runner == Returned && hook == Some(success)
    {
      status := if success then Success else Failure;
      hook := Some(success);
      runner := Returned;
    }

    method FinishRunner()
      requires runner == Returned && config.atomic
      modifies this
      ensures View() == Do(config, old(View()), RunnerDone)
      ensures readonly && status == old(status) && runner == RunnerOver
    {
      CallDone();
      runner := RunnerOver;
    }

    /** The guard of Cancel together with the write of Cancelling. */
    method StartCancel() returns (ok: bool)
      requires config.atomic
      modifies this
      ensures ok <==> Enabled(config, old(View()), Step.Cancel)
      ensures View() == if ok then Do(config, old(View()), Step.Cancel) else old(View())
      ensures ok <==> old(status) == Running && (config.cls == Token || old(cancelable))
      ensures ok ==> status == Cancelling && cancels == old(cancels) + [Armed]
    {
      if status != Running || !(config.cls == Token || cancelable) {
        return false;
      }
      status := Cancelling;
      cancels := cancels + [Armed];
      return true;
    }

    method SetCancelled(i: nat)
      requires At(View(), i, Armed)
      modifies this
      ensures View() == Do(config, old(View()), CancelSets(i))
      ensures status == Cancelled && cancels == old(cancels)[i := StatusSet]
    {
      status := Cancelled;
      cancels := cancels[i := StatusSet];
    }

    method FinishCancel(i: nat)
      requires At(View(), i, StatusSet) && config.atomic
      modifies this
      ensures View() == Do(config, old(View()), Step.CancelDone(i))
      ensures readonly && status == old(status) && cancels == old(cancels)[i := CancelOver]
    {
      CallDone();
      cancels := cancels[i := CancelOver];
    }

    method UpdateMetadata(metadata: Metadata) returns (ok: bool)
      requires config.atomic
      modifies this
      ensures ok <==> (old(status) == Pending || old(status) == Running) && !old(readonly)
      ensures View() == if ok then Do(config, old(View()), Update(NewMetadata(metadata))) else old(View())
      ensures this.metadata == (if ok then metadata else old(this.metadata)) && resources == old(resources)
    {
      if (status != Pending && status != Running) || readonly {
        return false;
      }
      this.metadata := metadata;
      return true;
    }

    /** The progress callback of an image download: a map that is there is written to before
        UpdateMetadata checks anything, a new one only counts if UpdateMetadata takes it. */
    method ReportProgress(text: string)
      requires runner == InHook && config.offers && config.atomic
      modifies this
      ensures old(metadata).Some? ==> View() == Do(config, old(View()), HookWrites(text))
      ensures old(metadata).Some? ==> metadata == Some(old(metadata).value["download_progress" := text])
      ensures old(metadata).None? ==>
                var first := NewMetadata(Some(map[PROGRESS := text]));
                View() == if Updatable(old(View())) then Do(config, old(View()), Update(first)) else old(View())
    {
      var meta := if metadata.Some? then metadata.value else map[];
      assert PROGRESS in meta && meta[PROGRESS] == text ==> meta[PROGRESS := text] == meta;
      if PROGRESS !in meta || meta[PROGRESS] != text {
        meta := meta[PROGRESS := text];
        if metadata.Some? {
          metadata := Some(meta);
        }
        var _ := UpdateMetadata(Some(meta));
      }
    }

    method UpdateResources(resources: Resources) returns (ok: bool)
      requires config.atomic
      modifies this
      ensures ok <==> (old(status) == Pending || old(status) == Running) && !old(readonly)
      ensures View() == if ok then Do(config, old(View()), Update(NewResources(resources))) else old(View())
      ensures this.resources == (if ok then resources else old(this.resources)) && metadata == old(metadata)
    {
      if (status != Pending && status != Running) || readonly {
        return false;
      }
      this.resources := resources;
      return true;
    }

    method TimerFires()
      requires 0 < timers
      modifies this
      ensures View() == Do(config, old(View()), Step.Expire)
      ensures !registered && timers == old(timers) - 1
    {
      timers := timers - 1;
      if registered {
        registered := false;
      }
    }
  }
}
