/** The lifecycle read off its histories: what has to have happened for a run to be where it is. */
module LifecycleHistory {
  import opened Prelude
  import opened StatusTracking
  import opened Lifecycle
  import opened LifecycleSafety

  /** Everything that happened in a sequence of actions. */
  function Events(acts: seq<Action>): set<Action> {
    set a | a in acts
  }

  // ---------------------------------------------------------------------------------------
  // A run's fields record its events
  // ---------------------------------------------------------------------------------------

  /** Up to the launch. */
  ghost predicate Prepares(past: set<Action>, p: Phase, i: nat) {
    && (p.Began? <==> SetPulling(i) !in past)
    && (p.Preparing? ==> PrepareOk(i) !in past)
    && (p.Prepared? ==> PrepareOk(i) in past && SetStarting(i) !in past)
    && (p.Launching? ==> SetStarting(i) in past)
  }

  /** And in this order. */
  ghost predicate InTurn(past: set<Action>, i: nat) {
    && (PrepareOk(i) in past ==> SetPulling(i) in past)
    && (SetStarting(i) in past ==> PrepareOk(i) in past)
    && (LaunchOk(i) in past ==> SetStarting(i) in past)
  }

  /** From the launch on. */
  ghost predicate Watched(backend: Backend, past: set<Action>, r: RunCall, i: nat) {
    && (UnderWatch(r.phase) <==> LaunchOk(i) in past && WaitReturns(i) !in past && LogsEnd(i) !in past)
    && (r.phase in {Began, Preparing, Prepared, Launching, Checking, Reporting} ==> LaunchOk(i) !in past)
    && (r.interrupted <==> Interrupt(i) in past)
    && (r.graceOver <==> GraceExpires(i) in past)
    && (r.killed <==> Kill(i) in past)
    && (GraceExpires(i) in past && Kill(i) !in past ==> r.phase.GraceOver?)
    && (Interrupt(i) in past ==> LaunchOk(i) in past && backend.System?)
    && (WaitReturns(i) in past ==> LaunchOk(i) in past && backend.System?)
    && (LogsEnd(i) in past ==> LaunchOk(i) in past && backend.Docker?)
  }

  /** A process is alive from the successful launch to its exit, and gone for good once it has been waited for. */
  ghost predicate ProcessRecords(past: set<Action>, p: Process, i: nat) {
    && (p.NotStarted? <==> LaunchOk(i) !in past)
    && (p.Alive? <==> LaunchOk(i) in past && ProcessExits(i) !in past)
    && (p.Exited? <==> ProcessExits(i) in past && WaitReturns(i) !in past)
    && (p.Reaped? <==> WaitReturns(i) in past)
  }

  /** The end. */
  ghost predicate Ends(past: set<Action>, r: RunCall, i: nat) {
    && (InHandshake(r.phase) <==> Clear(i) !in past)
    && (r.settledAs.Some? <==> Settle(i) in past)
    && (r.phase.Done? <==> CloseRan(i) in past)
    && (r.phase.Ending? || !InHandshake(r.phase) ==>
          LaunchFails(i) in past || Check(i) in past || WaitReturns(i) in past || LogsEnd(i) in past)
  }

  /** What can fail, and when: a launch without report (system), any step before it, images and containers only on docker. */
  ghost predicate Fails(backend: Backend, past: set<Action>, p: Phase, i: nat) {
    && (p.Began? || p.Preparing? || p.Prepared? || p.Launching? || UnderWatch(p) ==>
          LaunchFails(i) !in past && StepFails(i) !in past)
    && (LaunchFails(i) in past ==> backend.System? && SetStarting(i) in past && LaunchOk(i) !in past)
    && (StepFails(i) in past ==> LaunchOk(i) !in past && (PrepareOk(i) in past ==> backend.Docker?))
    && (p.Checking? || p.Reporting? || Check(i) in past ==> StepFails(i) in past)
    && (p.Reporting? ==> Check(i) in past)
  }

  ghost predicate Records(backend: Backend, past: set<Action>, r: RunCall, i: nat) {
    && Prepares(past, r.phase, i) && InTurn(past, i)
    && Watched(backend, past, r, i)
    && (backend.System? ==> ProcessRecords(past, r.process, i))
    && Ends(past, r, i)
    && Fails(backend, past, r.phase, i)
  }

  lemma PreparesStep(backend: Backend, past: set<Action>, s: Status, r: RunCall, a: Action, i: nat)
    requires RunReady(backend, r, a) && RunOf(a) == Some(i) && RunInv(backend, r)
    requires Prepares(past, r.phase, i) && InTurn(past, i)
    ensures Prepares(past + {a}, RunAfter(backend, s, r, a).phase, i)
  {
  }

  lemma InTurnStep(backend: Backend, past: set<Action>, r: RunCall, a: Action, i: nat)
    requires RunReady(backend, r, a) && RunOf(a) == Some(i)
    requires Prepares(past, r.phase, i) && InTurn(past, i)
    ensures InTurn(past + {a}, i)
  {
  }

  lemma WatchedStep(backend: Backend, past: set<Action>, s: Status, r: RunCall, a: Action, i: nat)
    requires RunReady(backend, r, a) && RunOf(a) == Some(i) && RunInv(backend, r)
    requires Watched(backend, past, r, i)
    ensures Watched(backend, past + {a}, RunAfter(backend, s, r, a), i)
  {
  }

  lemma ProcessStep(past: set<Action>, s: Status, r: RunCall, a: Action, i: nat)
    requires RunReady(System, r, a) && RunOf(a) == Some(i) && RunInv(System, r)
    requires Watched(System, past, r, i) && ProcessRecords(past, r.process, i)
    ensures ProcessRecords(past + {a}, RunAfter(System, s, r, a).process, i)
  {
  }

  lemma EndsStep(backend: Backend, past: set<Action>, s: Status, r: RunCall, a: Action, i: nat)
    requires RunReady(backend, r, a) && RunOf(a) == Some(i) && RunInv(backend, r)
    requires Fails(backend, past, r.phase, i) && Ends(past, r, i)
    ensures Ends(past + {a}, RunAfter(backend, s, r, a), i)
  {
  }

  lemma FailsStep(backend: Backend, past: set<Action>, s: Status, r: RunCall, a: Action, i: nat)
    requires RunReady(backend, r, a) && RunOf(a) == Some(i) && RunInv(backend, r)
    requires Prepares(past, r.phase, i) && Watched(backend, past, r, i) && Fails(backend, past, r.phase, i)
    ensures Fails(backend, past + {a}, RunAfter(backend, s, r, a).phase, i)
  {
  }

  lemma RecordsStep(backend: Backend, past: set<Action>, s: Status, r: RunCall, a: Action, i: nat)
    requires RunReady(backend, r, a) && RunOf(a) == Some(i) && RunInv(backend, r)
    requires Records(backend, past, r, i)
    ensures Records(backend, past + {a}, RunAfter(backend, s, r, a), i)
  {
    PreparesStep(backend, past, s, r, a, i);
    InTurnStep(backend, past, r, a, i);
    WatchedStep(backend, past, s, r, a, i);
    EndsStep(backend, past, s, r, a, i);
    FailsStep(backend, past, s, r, a, i);
    if backend.System? { ProcessStep(past, s, r, a, i); }
  }

  /** What others do, or a cancellation, leaves the record as it is. */
  lemma RecordsAside(backend: Backend, past: set<Action>, r: RunCall, a: Action, i: nat, cancelled: bool)
    requires RunOf(a) != Some(i) && Records(backend, past, r, i)
    ensures Records(backend, past + {a}, r.(cancelled := cancelled), i)
  {
  }

  lemma RecordsNew(backend: Backend, past: set<Action>, i: nat)
    requires forall a :: a in past ==> RunOf(a) != Some(i)
    ensures Records(backend, past, NewRun, i)
  {
  }

  ghost predicate AllRecord(w: World, past: set<Action>) {
    && (forall i :: 0 <= i < |w.runs| ==> Records(w.backend, past, w.runs[i], i))
    && (forall a :: a in past && RunOf(a).Some? ==> RunOf(a).value < |w.runs|)
  }

  lemma RunStepRecords(w: World, a: Action, past: set<Action>, j: nat)
    requires Inv(w) && Enabled(w, a) && AllRecord(w, past) && RunOf(a) == Some(j)
    ensures AllRecord(Do(w, a), past + {a})
  {
    RunStepLocal(w, a, j);
    RecordsStep(w.backend, past, w.status, w.runs[j], a, j);
    forall i | 0 <= i < |w.runs| && i != j ensures Records(w.backend, past + {a}, Do(w, a).runs[i], i) {
      assert Do(w, a).runs[i] == w.runs[i].(cancelled := w.runs[i].cancelled);
      RecordsAside(w.backend, past, w.runs[i], a, i, w.runs[i].cancelled);
    }
  }

  lemma CallerStepRuns(w: World, a: Action)
    requires Enabled(w, a) && RunOf(a).None?
    ensures Do(w, a).backend == w.backend && |w.runs| <= |Do(w, a).runs|
    ensures forall i :: 0 <= i < |w.runs| ==> Do(w, a).runs[i] == w.runs[i].(cancelled := Do(w, a).runs[i].cancelled)
    ensures forall i :: |w.runs| <= i < |Do(w, a).runs| ==> Do(w, a).runs[i] == NewRun
  {
  }

  lemma CallerStepRecords(w: World, a: Action, past: set<Action>)
    requires Enabled(w, a) && AllRecord(w, past) && RunOf(a).None?
    ensures AllRecord(Do(w, a), past + {a})
  {
    CallerStepRuns(w, a);
    forall i | 0 <= i < |Do(w, a).runs| ensures Records(w.backend, past + {a}, Do(w, a).runs[i], i) {
      if i < |w.runs| {
        RecordsAside(w.backend, past, w.runs[i], a, i, Do(w, a).runs[i].cancelled);
      } else {
        RecordsNew(w.backend, past + {a}, i);
      }
    }
  }

  // ---------------------------------------------------------------------------------------
  // Stop, Remove and Start calls likewise
  // ---------------------------------------------------------------------------------------

  /** The Stop call an action is a step of. */
  function StopOf(a: Action): Option<nat> {
    match a
    case CallCancel(k) => Some(k)
    case StopReturns(k) => Some(k)
    case StopGivesUp(k) => Some(k)
    case SetRemoving(k) => Some(k)
    case RemoveFails(k) => Some(k)
    case SetRemoved(k) => Some(k)
    case _ => None
  }

  function StartOf(a: Action): Option<nat> {
    match a
    case StartRuns(j) => Some(j)
    case StartFails(j) => Some(j)
    case _ => None
  }

  ghost predicate StopRecords(past: set<Action>, s: StopRun, k: nat) {
    && (s.phase.Captured? <==> CallCancel(k) !in past)
    && (s.phase.StopErr? <==> StopGivesUp(k) in past)
    && (ReturnedNil(s.phase) <==> StopReturns(k) in past)
    && (PastRemoving(s.phase) <==> SetRemoving(k) in past)
    && (s.phase.RemoveErr? <==> RemoveFails(k) in past)
    && (s.phase.RemovedSet? <==> SetRemoved(k) in past)
    && (SetRemoving(k) in past ==> s.kind.RemoveCall?)
  }

  /** A Start may go on exactly if it saw the agent stopped or failed, and it goes on once. */
  ghost predicate StartRecords(past: set<Action>, s: StartCall, j: nat) {
    && (s.pending <==> s.seen in {Stopped, Failed} && StartRuns(j) !in past && StartFails(j) !in past)
    && (StartRuns(j) in past || StartFails(j) in past ==> s.seen in {Stopped, Failed})
    && !(StartRuns(j) in past && StartFails(j) in past)
  }

  ghost predicate CallsRecord(w: World, past: set<Action>) {
    && (forall k :: 0 <= k < |w.stops| ==> StopRecords(past, w.stops[k], k))
    && (forall j :: 0 <= j < |w.starts| ==> StartRecords(past, w.starts[j], j))
    && (forall a :: a in past && StopOf(a).Some? ==> StopOf(a).value < |w.stops|)
    && (forall a :: a in past && StartOf(a).Some? ==> StartOf(a).value < |w.starts|)
  }

  lemma StopStepOwn(w: World, a: Action, past: set<Action>, k: nat)
    requires Enabled(w, a) && StopOf(a) == Some(k) && k < |w.stops| && StopRecords(past, w.stops[k], k)
    ensures k < |Do(w, a).stops| && StopRecords(past + {a}, Do(w, a).stops[k], k)
  {
  }

  lemma StopRecordsAside(past: set<Action>, s: StopRun, a: Action, k: nat)
    requires StopOf(a) != Some(k) && StopRecords(past, s, k)
    ensures StopRecords(past + {a}, s, k)
  {
  }

  lemma StopStepOthers(w: World, a: Action)
    requires Enabled(w, a)
    ensures |w.stops| <= |Do(w, a).stops|
    ensures StopOf(a).Some? ==> StopOf(a).value < |w.stops|
    ensures forall k :: 0 <= k < |w.stops| && StopOf(a) != Some(k) ==> Do(w, a).stops[k] == w.stops[k]
    ensures forall k :: |w.stops| <= k < |Do(w, a).stops| ==> Do(w, a).stops[k].phase.Captured?
  {
  }

  lemma StopsStep(w: World, a: Action, past: set<Action>)
    requires Enabled(w, a) && forall k :: 0 <= k < |w.stops| ==> StopRecords(past, w.stops[k], k)
    requires forall b :: b in past && StopOf(b).Some? ==> StopOf(b).value < |w.stops|
    ensures forall k :: 0 <= k < |Do(w, a).stops| ==> StopRecords(past + {a}, Do(w, a).stops[k], k)
    ensures forall b :: b in past + {a} && StopOf(b).Some? ==> StopOf(b).value < |Do(w, a).stops|
  {
    StopStepOthers(w, a);
    forall k | 0 <= k < |Do(w, a).stops| ensures StopRecords(past + {a}, Do(w, a).stops[k], k) {
      if StopOf(a) == Some(k) {
        StopStepOwn(w, a, past, k);
      } else if k < |w.stops| {
        StopRecordsAside(past, w.stops[k], a, k);
      }
    }
  }

  lemma StartsStep(w: World, a: Action, past: set<Action>)
    requires Enabled(w, a) && forall j :: 0 <= j < |w.starts| ==> StartRecords(past, w.starts[j], j)
    requires forall a :: a in past && StartOf(a).Some? ==> StartOf(a).value < |w.starts|
    ensures forall j :: 0 <= j < |Do(w, a).starts| ==> StartRecords(past + {a}, Do(w, a).starts[j], j)
    ensures forall b :: b in past + {a} && StartOf(b).Some? ==> StartOf(b).value < |Do(w, a).starts|
  {
  }

  lemma {:induction false} PerformCalls(w: World, acts: seq<Action>, past: set<Action>)
    requires CallsRecord(w, past) && Perform(w, acts).Some?
    ensures CallsRecord(Perform(w, acts).value, past + Events(acts))
    decreases |acts|
  {
    if acts == [] {
      assert past + Events(acts) == past;
    } else {
      var a, rest := acts[0], acts[1..];
      assert acts == [a] + rest;
      StopsStep(w, a, past);
      StartsStep(w, a, past);
      PerformCalls(Do(w, a), rest, past + {a});
      assert (past + {a}) + Events(rest) == past + Events(acts);
    }
  }

  /** What every Stop, Remove and Start has done, and that a Start went on only from Stopped or Failed. */
  lemma HistoryCalls(w: World, acts: seq<Action>)
    requires ComesFrom(w, acts)
    ensures forall k :: 0 <= k < |w.stops| ==> StopRecords(Events(acts), w.stops[k], k)
    ensures forall j :: 0 <= j < |w.starts| ==> StartRecords(Events(acts), w.starts[j], j)
  {
    PerformCalls(NewWorld(w.backend), acts, {});
    assert {} + Events(acts) == Events(acts);
  }

  lemma {:induction false} PerformRecords(w: World, acts: seq<Action>, past: set<Action>)
    requires Inv(w) && AllRecord(w, past) && Perform(w, acts).Some?
    ensures AllRecord(Perform(w, acts).value, past + Events(acts))
    decreases |acts|
  {
    if acts == [] {
      assert past + Events(acts) == past;
    } else {
      var a, rest := acts[0], acts[1..];
      assert acts == [a] + rest;
      DoKeeps(w, a);
      if RunOf(a).Some? { RunStepRecords(w, a, past, RunOf(a).value); } else { CallerStepRecords(w, a, past); }
      PerformRecords(Do(w, a), rest, past + {a});
      assert (past + {a}) + Events(rest) == past + Events(acts);
    }
  }

  /** w is what these actions lead to from the beginning. */
  ghost predicate ComesFrom(w: World, acts: seq<Action>) {
    Perform(NewWorld(w.backend), acts) == Some(w)
  }

  /** In every interleaving each run's fields say exactly what has happened to it. */
  lemma HistoryRecords(w: World, acts: seq<Action>, i: nat)
    requires ComesFrom(w, acts) && i < |w.runs|
    ensures Records(w.backend, Events(acts), w.runs[i], i)
  {
    PerformRecords(NewWorld(w.backend), acts, {});
    assert {} + Events(acts) == Events(acts);
  }

  lemma HistoryRuns(w: World, acts: seq<Action>, a: Action)
    requires ComesFrom(w, acts) && a in acts && RunOf(a).Some?
    ensures RunOf(a).value < |w.runs|
  {
    PerformRecords(NewWorld(w.backend), acts, {});
    assert a in {} + Events(acts);
  }

  lemma HistoryInv(w: World, acts: seq<Action>)
    requires ComesFrom(w, acts)
    ensures Inv(w)
  {
    ReachableInv(w);
  }

  /**
   Once a run of the system backend has launched its process, the process is alive until it exits,
   the run stays under watch until it has waited for it, and nothing else takes it out: a run that
   is no longer under watch has its process reaped.
   */
  lemma LaunchedIsWatched(w: World, acts: seq<Action>, i: nat)
    requires ComesFrom(w, acts) && w.backend.System? && LaunchOk(i) in acts
    ensures i < |w.runs|
    ensures UnderWatch(w.runs[i].phase) <==> WaitReturns(i) !in acts
    ensures w.runs[i].process == if ProcessExits(i) !in acts then Alive else if WaitReturns(i) !in acts then Exited else Reaped
    ensures !UnderWatch(w.runs[i].phase) ==> w.runs[i].process.Reaped?
  {
    HistoryRuns(w, acts, LaunchOk(i));
    HistoryRecords(w, acts, i);
    HistoryInv(w, acts);
    assert RunInv(w.backend, w.runs[i]);
  }

  /**
   A Stop that returned nil did so after the run it captured had cleared the handshake, settled and
   closed its channel; and if that run had launched a process, after waiting for it to exit (system)
   or after its log stream had ended (docker).
   */
  lemma StopWaited(w: World, acts: seq<Action>, k: nat)
    requires ComesFrom(w, acts) && k < |w.stops| && ReturnedNil(w.stops[k].phase) && w.stops[k].ran.Some?
    ensures var i := w.stops[k].ran.value;
            && Clear(i) in acts && Settle(i) in acts && CloseRan(i) in acts
            && (LaunchOk(i) in acts ==> (if w.backend.System? then WaitReturns(i) in acts else LogsEnd(i) in acts))
  {
    HistoryInv(w, acts);
    assert StopInv(w, w.stops[k]);
    HistoryRecords(w, acts, w.stops[k].ran.value);
  }

  /** A force-kill comes only after the grace period, that after an interrupt, that after a launch and a cancellation. */
  lemma KilledInOrder(w: World, acts: seq<Action>, i: nat)
    requires ComesFrom(w, acts)
    ensures Kill(i) in acts ==> GraceExpires(i) in acts
    ensures GraceExpires(i) in acts ==> Interrupt(i) in acts
    ensures Interrupt(i) in acts ==> LaunchOk(i) in acts && i < |w.runs| && w.runs[i].cancelled && w.backend.System?
    ensures LaunchOk(i) in acts ==> SetStarting(i) in acts && PrepareOk(i) in acts && SetPulling(i) in acts
  {
    HistoryInv(w, acts);
    if i < |w.runs| {
      HistoryRecords(w, acts, i);
      assert RunInv(w.backend, w.runs[i]);
    } else {
      NoEvents(w, acts, i);
    }
  }

  lemma NoEvents(w: World, acts: seq<Action>, i: nat)
    requires ComesFrom(w, acts) && i >= |w.runs|
    ensures forall a :: RunOf(a) == Some(i) ==> a !in acts
  {
    forall a | RunOf(a) == Some(i) ensures a !in acts {
      if a in acts { HistoryRuns(w, acts, a); }
    }
  }

  // ---------------------------------------------------------------------------------------
  // No deadlock: a waiting Stop can always still return
  // ---------------------------------------------------------------------------------------

  /** A step run i can take next of its own accord, the process exiting when it is its turn. */
  function Onward(backend: Backend, r: RunCall, i: nat): Action {
    match r.phase
    case Began => SetPulling(i)
    case Preparing => PrepareOk(i)
    case Prepared => SetStarting(i)
    case Launching => LaunchOk(i)
    case Checking => Check(i)
    case Reporting => Report(i, PullFailure)
    case Serving => if backend.Docker? then LogsEnd(i) else if r.process.Alive? then ProcessExits(i) else WaitReturns(i)
    case Interrupted => if r.process.Alive? then ProcessExits(i) else WaitReturns(i)
    case GraceOver => Kill(i)
    case Killed => if r.process.Alive? then ProcessExits(i) else WaitReturns(i)
    case Ending => Clear(i)
    case Cleared => Settle(i)
    case Settled => CloseRan(i)
    case Done => CancelContext(i)
  }

  /** A process was started for the run: it is under watch or has been waited for. */
  predicate Started(backend: Backend, r: RunCall) {
    backend.System? && (UnderWatch(r.phase) || r.process.Reaped?)
  }

  /** How many such steps are left at most. */
  function Left(r: RunCall): nat {
    match r.phase
    case Began => 12
    case Preparing => 11
    case Prepared => 10
    case Launching => 9
    case GraceOver => 8
    case Checking => 6
    case Reporting => 5
    case Ending => 3
    case Cleared => 2
    case Settled => 1
    case Done => 0
    case _ => if r.process.Alive? then 7 else 4
  }

  lemma OnwardStep(backend: Backend, s: Status, r: RunCall, i: nat)
    requires RunInv(backend, r) && !r.phase.Done?
    ensures var a := Onward(backend, r, i);
            && RunOf(a) == Some(i) && RunReady(backend, r, a)
            && var r' := RunAfter(backend, s, r, a);
               Left(r') < Left(r) && (Started(backend, r) ==> Started(backend, r'))
               && r'.interrupted == r.interrupted && r'.graceOver == r.graceOver
               && (r'.killed || r'.phase.GraceOver? <==> r.killed || r.phase.GraceOver?)
  {
  }

  /** Some sequence of steps leads from w to v. */
  ghost predicate LeadsTo(w: World, v: World) {
    exists acts :: Perform(w, acts) == Some(v)
  }

  lemma LeadsToAfter(w: World, a: Action, v: World)
    requires Enabled(w, a) && LeadsTo(Do(w, a), v)
    ensures LeadsTo(w, v)
  {
    var acts :| Perform(Do(w, a), acts) == Some(v);
    assert ([a] + acts)[1..] == acts;
    assert Perform(w, [a] + acts) == Some(v);
  }

  lemma LeadsNowhere(w: World)
    ensures LeadsTo(w, w)
  {
    assert Perform(w, []) == Some(w);
  }

  /** Left to itself, a run comes to its end, and is killed on the way only if its grace is over already. */
  lemma RunCanFinish(w: World, i: nat) returns (v: World)
    requires Inv(w) && i < |w.runs|
    ensures LeadsTo(w, v) && Inv(v) && At(v, i, Done) && v.stops == w.stops && v.backend == w.backend
    ensures v.runs[i].interrupted == w.runs[i].interrupted && v.runs[i].graceOver == w.runs[i].graceOver
    ensures v.runs[i].killed <==> w.runs[i].killed || w.runs[i].phase.GraceOver?
    ensures Started(w.backend, w.runs[i]) ==> v.runs[i].process.Reaped?
    decreases Left(w.runs[i])
  {
    if w.runs[i].phase.Done? {
      v := w;
      LeadsNowhere(w);
    } else {
      var a := Onward(w.backend, w.runs[i], i);
      OnwardStep(w.backend, w.status, w.runs[i], i);
      RunStepLocal(w, a, i);
      DoKeeps(w, a);
      v := RunCanFinish(Do(w, a), i);
      LeadsToAfter(w, a, v);
    }
  }

  /** In every reachable world a Stop that is waiting can still return nil; it never waits for what cannot happen. */
  lemma StopCanReturn(w: World, k: nat)
    requires Reachable(w) && StopAt(w, k, Awaiting)
    ensures exists v :: LeadsTo(w, v) && StopAt(v, k, StopOk)
  {
    var v := StopFreed(w, k);
    LeadsThen(w, v, StopReturns(k));
    assert StopAt(Do(v, StopReturns(k)), k, StopOk);
  }

  lemma StopFreed(w: World, k: nat) returns (v: World)
    requires Reachable(w) && StopAt(w, k, Awaiting)
    ensures LeadsTo(w, v) && StopAt(v, k, Awaiting) && (v.stops[k].ran.None? || At(v, v.stops[k].ran.value, Done))
  {
    ReachableInv(w);
    assert StopInv(w, w.stops[k]);
    v := w;
    LeadsNowhere(w);
    if w.stops[k].ran.Some? { v := RunCanFinish(w, w.stops[k].ran.value); }
  }

  lemma LeadsThen(w: World, v: World, a: Action)
    requires LeadsTo(w, v) && Enabled(v, a)
    ensures LeadsTo(w, Do(v, a))
  {
    var acts :| Perform(w, acts) == Some(v);
    PerformSnoc(w, acts, a);
  }

  lemma {:induction false} PerformAppend(w: World, acts: seq<Action>, more: seq<Action>)
    requires Perform(w, acts).Some?
    ensures Perform(w, acts + more) == Perform(Perform(w, acts).value, more)
    decreases |acts|
  {
    if acts == [] {
      assert acts + more == more;
    } else {
      assert (acts + more)[1..] == acts[1..] + more;
      PerformAppend(Do(w, acts[0]), acts[1..], more);
    }
  }

  lemma ReachesOn(w: World, v: World)
    requires Reachable(w) && LeadsTo(w, v) && v.backend == w.backend
    ensures Reachable(v)
  {
    var acts :| Perform(NewWorld(w.backend), acts) == Some(w);
    var more :| Perform(w, more) == Some(v);
    PerformAppend(NewWorld(w.backend), acts, more);
  }

  /** A Stop returned nil after the first run was done and the process started for it, if any, waited for. */
  ghost predicate StopReturnedNil(w: World) {
    && Reachable(w) && StopAt(w, 0, StopOk) && w.stops[0].ran == Some(0) && At(w, 0, Done)
    && (w.backend.System? ==> w.runs[0].process.Reaped?)
  }

  /** An agent whose one run was started and is being stopped. */
  ghost predicate BeingStopped(w: World) {
    && Reachable(w) && |w.runs| > 0 && StopAt(w, 0, Awaiting) && w.stops[0].ran == Some(0)
    && w.runs[0].cancelled && UnderWatch(w.runs[0].phase)
  }

  lemma StopsAtLast(w: World) returns (v: World)
    requires BeingStopped(w)
    ensures StopReturnedNil(v) && v.backend == w.backend
    ensures v.runs[0].interrupted == w.runs[0].interrupted && v.runs[0].graceOver == w.runs[0].graceOver
    ensures v.runs[0].killed <==> w.runs[0].killed || w.runs[0].phase.GraceOver?
  {
    ReachableInv(w);
    var u := RunCanFinish(w, 0);
    ReachesOn(w, u);
    v := LastReturn(u);
  }

  lemma LastReturn(u: World) returns (v: World)
    requires Reachable(u) && StopAt(u, 0, Awaiting) && u.stops[0].ran == Some(0) && At(u, 0, Done)
    ensures Reachable(v) && v.backend == u.backend && v.runs == u.runs
    ensures StopAt(v, 0, StopOk) && v.stops[0].ran == Some(0)
  {
    v := Then(u, StopReturns(0));
  }

  lemma Served(backend: Backend) returns (w: World)
    ensures Reachable(w) && At(w, 0, Serving) && w.backend == backend && w.h == Installed(0) && w.stops == []
    ensures !w.runs[0].interrupted
  {
    w := FirstLaunching(backend);
    w := Then(w, LaunchOk(0));
  }

  lemma StopBegun(backend: Backend) returns (w: World)
    ensures Reachable(w) && At(w, 0, Serving) && w.backend == backend && !w.runs[0].interrupted
    ensures StopAt(w, 0, Captured) && w.stops[0].cancel == w.stops[0].ran == Some(0)
  {
    w := Served(backend);
    w := Then(w, Snapshot(StopCall));
  }

  lemma StopCalled(backend: Backend) returns (w: World)
    ensures BeingStopped(w) && At(w, 0, Serving) && w.backend == backend && !w.runs[0].interrupted
  {
    w := StopBegun(backend);
    w := Then(w, CallCancel(0));
  }

  /** A Stop whose context ends first gives up on a run that goes on. */
  lemma StopGaveUp(backend: Backend) returns (w: World)
    ensures Reachable(w) && w.backend == backend && StopAt(w, 0, StopErr) && At(w, 0, Serving)
  {
    w := StopCalled(backend);
    w := Then(w, StopGivesUp(0));
  }

  /** On docker the container may fail to be created or started after Starting was recorded. */
  lemma ContainerFailed() returns (w: World)
    ensures Reachable(w) && w.backend.Docker? && w.status == Starting && At(w, 0, Checking)
  {
    w := FirstLaunching(Docker);
    w := Then(w, StepFails(0));
  }

  lemma WasInterrupted() returns (w: World)
    ensures BeingStopped(w) && w.backend.System? && At(w, 0, Interrupted)
    ensures w.runs[0].interrupted && !w.runs[0].graceOver
  {
    var w0 := StopCalled(System);
    RunStepLocal(w0, Interrupt(0), 0);
    w := Then(w0, Interrupt(0));
    ReachableInv(w0);
    assert RunInv(w0.backend, w0.runs[0]);
  }

  lemma GraceExpired() returns (w: World)
    ensures BeingStopped(w) && w.backend.System? && At(w, 0, GraceOver)
    ensures w.runs[0].interrupted && w.runs[0].graceOver
  {
    var w0 := WasInterrupted();
    RunStepLocal(w0, GraceExpires(0), 0);
    w := Then(w0, GraceExpires(0));
  }

  /** The process exits, or the log stream ends, by itself and Stop returns nil. */
  lemma StoppedOnExit(backend: Backend) returns (w: World)
    ensures StopReturnedNil(w) && w.backend == backend && !w.runs[0].interrupted
  {
    w := StopCalled(backend);
    w := StopsAtLast(w);
  }

  /** The process exits on the interrupt, within the grace period, and Stop returns nil. */
  lemma StoppedWithinGrace() returns (w: World)
    ensures StopReturnedNil(w) && w.backend.System? && w.runs[0].interrupted && !w.runs[0].graceOver
  {
    w := WasInterrupted();
    w := StopsAtLast(w);
  }

  /** The process outlives the grace period and is killed, and Stop returns nil. */
  lemma StoppedByKill() returns (w: World)
    ensures StopReturnedNil(w) && w.backend.System? && w.runs[0].interrupted && w.runs[0].graceOver && w.runs[0].killed
  {
    w := GraceExpired();
    w := StopsAtLast(w);
  }
}
