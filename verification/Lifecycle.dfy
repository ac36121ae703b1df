/**
 The agent lifecycle as a step relation (executor/system/agent.go, executor/system/process.go and
 executor/docker/agent.go). Any number of Run, Start, Stop and Remove calls and a supervisor
 interleave; each mutex-guarded critical section, each tracker call, each channel operation and
 each process event is one atomic step.
 */
module Lifecycle {
  import opened Prelude
  import opened StatusTracking

  datatype Backend = System | Docker

  // ---------------------------------------------------------------------------------------
  // The running/cancel/ran handshake
  // ---------------------------------------------------------------------------------------

  /** cancel and ran name the run whose context and channel they are. */
  datatype Handshake = Handshake(running: bool, cancel: Option<nat>, ran: Option<nat>)

  const Idle := Handshake(false, None, None)

  function Installed(run: nat): Handshake { Handshake(true, Some(run), Some(run)) }

  /** running, cancel and ran are set together, for one run, or cleared together. */
  ghost predicate Whole(h: Handshake) {
    h == Idle || exists i: nat :: h == Installed(i)
  }

  /** The agent's fields and the critical sections that touch them. */
  class AgentState {
    var running: bool
    var cancel: Option<nat>
    var ran: Option<nat>

    ghost function Value(): Handshake
      reads this
    {
      Handshake(running, cancel, ran)
    }

    ghost predicate Valid()
      reads this
    {
      Whole(Value())
    }

    constructor ()
      ensures Valid() && Value() == Idle
    {
      running, cancel, ran := false, None, None;
    }

    /** beginRun: reject a second run, or install this one. */
    method BeginRun(run: nat) returns (ok: bool)
      requires Valid()
      modifies this
      ensures Valid()
      ensures ok <==> old(Value()) == Idle
      ensures Value() == if ok then Installed(run) else old(Value())
    {
      if running { return false; }
      running := true;
      cancel := Some(run);
      ran := Some(run);
      assert Value() == Installed(run);
      return true;
    }

    /** The critical section of endRun. */
    method ClearRun()
      modifies this
      ensures Valid() && Value() == Idle
    {
      running := false;
      cancel := None;
      ran := None;
    }

    /** The critical section of Stop: the cancel and the ran it captures are those of one and the same run. */
    method Snapshot() returns (c: Option<nat>, r: Option<nat>)
      requires Valid()
      ensures c == r && (c.Some? <==> running)
      ensures c.Some? ==> Value() == Installed(c.value)
    {
      c, r := cancel, ran;
    }
  }

  // ---------------------------------------------------------------------------------------
  // Threads
  // ---------------------------------------------------------------------------------------

  /** Where a Run call is. The phases up to Ending are inside the handshake. */
  datatype Phase =
    | Began        // handshake installed
    | Preparing    // Pulling recorded; materialising
    | Prepared     // materialised (docker: pulling images)
    | Launching    // Starting recorded
    | Checking     // something failed: about to look at ctx.Err()
    | Reporting    // ctx was live: about to record the failure
    | Serving      // process or container started
    | Interrupted  // SIGINT sent
    | GraceOver    // grace elapsed
    | Killed       // process group force-killed
    | Ending       // body returned: endRun next
    | Cleared      // handshake cleared, lock released
    | Settled      // status settled
    | Done         // ran closed

  predicate InHandshake(p: Phase) {
    !p.Cleared? && !p.Settled? && !p.Done?
  }

  datatype Process = NotStarted | Alive | Exited | Reaped

  datatype RunCall = RunCall(
    phase: Phase, cancelled: bool, process: Process,
    interrupted: bool, graceOver: bool, killed: bool,
    reported: bool, settledAs: Option<Status>, closes: nat)

  const NewRun := RunCall(Began, false, NotStarted, false, false, false, false, None, 0)

  datatype Kind = StopCall | RemoveCall

  datatype StopPhase =
    | Captured        // snapshot taken
    | Awaiting        // cancel called (if any)
    | StopOk          // Stop returned nil
    | StopErr         // Stop returned its ctx error
    | RemovingSet     // Remove recorded Removing
    | RemoveErr       // deleting the workspace or container failed
    | RemovedSet      // Remove recorded Removed

  datatype StopRun = StopRun(kind: Kind, phase: StopPhase, cancel: Option<nat>, ran: Option<nat>)

  predicate PastRemoving(p: StopPhase) {
    p.RemovingSet? || p.RemoveErr? || p.RemovedSet?
  }

  /** A Start call after its unsynchronised look at the status. */
  datatype StartCall = StartCall(seen: Status, pending: bool)

  datatype World = World(
    backend: Backend, h: Handshake, status: Status, failure: FailureReason,
    runs: seq<RunCall>, stops: seq<StopRun>, starts: seq<StartCall>)

  function NewWorld(backend: Backend): World {
    World(backend, Idle, Pulling, NoFailure, [], [], [])
  }

  datatype Action =
    | Begin                      // beginRun by a Run call
    | SetPulling(i: nat)
    | PrepareOk(i: nat)
    | SetStarting(i: nat)
    | LaunchOk(i: nat)
    | LaunchFails(i: nat)        // system: cmd.Start failed, returned without recording a failure
    | StepFails(i: nat)          // materialise, image pull, container create or container start failed
    | Check(i: nat)              // ctx.Err()
    | Report(i: nat, reason: FailureReason)
    | ProcessExits(i: nat)
    | WaitReturns(i: nat)
    | Interrupt(i: nat)
    | GraceExpires(i: nat)
    | Kill(i: nat)
    | LogsEnd(i: nat)            // docker: the followed log stream ended
    | CancelContext(i: nat)      // the caller's own context is cancelled
    | Clear(i: nat)
    | Settle(i: nat)
    | CloseRan(i: nat)
    | Snapshot(kind: Kind)
    | CallCancel(k: nat)
    | StopReturns(k: nat)
    | StopGivesUp(k: nat)
    | SetRemoving(k: nat)
    | RemoveFails(k: nat)
    | SetRemoved(k: nat)
    | StartLooks                 // Start reads the status
    | StartRuns(j: nat)          // beginRun by a Start that passed its check
    | StartFails(j: nat)         // credentials could not be re-resolved
    | SuperviseSet(s: Status)
    | SuperviseFail(reason: FailureReason)

  predicate At(w: World, i: nat, p: Phase) {
    i < |w.runs| && w.runs[i].phase == p
  }

  predicate StopAt(w: World, k: nat, p: StopPhase) {
    k < |w.stops| && w.stops[k].phase == p
  }

  // ---------------------------------------------------------------------------------------
  // Steps of one run
  // ---------------------------------------------------------------------------------------

  /** The run an action is a step of, for the actions that are steps of one run. */
  function RunOf(a: Action): Option<nat> {
    match a
    case SetPulling(i) => Some(i)
    case PrepareOk(i) => Some(i)
    case SetStarting(i) => Some(i)
    case LaunchOk(i) => Some(i)
    case LaunchFails(i) => Some(i)
    case StepFails(i) => Some(i)
    case Check(i) => Some(i)
    case Report(i, _) => Some(i)
    case ProcessExits(i) => Some(i)
    case WaitReturns(i) => Some(i)
    case Interrupt(i) => Some(i)
    case GraceExpires(i) => Some(i)
    case Kill(i) => Some(i)
    case LogsEnd(i) => Some(i)
    case CancelContext(i) => Some(i)
    case Clear(i) => Some(i)
    case Settle(i) => Some(i)
    case CloseRan(i) => Some(i)
    case _ => None
  }

  /** The process can exit, or be seen to have exited, in any of these phases. */
  predicate UnderWatch(p: Phase) {
    p.Serving? || p.Interrupted? || p.GraceOver? || p.Killed?
  }

  predicate RunReady(backend: Backend, r: RunCall, a: Action) {
    match a
    case SetPulling(_) => r.phase.Began?
    case PrepareOk(_) => r.phase.Preparing?
    case SetStarting(_) => r.phase.Prepared?
    case LaunchOk(_) => r.phase.Launching?
    case LaunchFails(_) => r.phase.Launching? && backend.System?
    case StepFails(_) => r.phase.Preparing? || (backend.Docker? && (r.phase.Prepared? || r.phase.Launching?))
    case Check(_) => r.phase.Checking?
    case Report(_, _) => r.phase.Reporting?
    case ProcessExits(_) => UnderWatch(r.phase) && r.process.Alive?
    case WaitReturns(_) => UnderWatch(r.phase) && !r.phase.GraceOver? && r.process.Exited?
    case Interrupt(_) => r.phase.Serving? && backend.System? && r.cancelled
    case GraceExpires(_) => r.phase.Interrupted?
    case Kill(_) => r.phase.GraceOver?
    case LogsEnd(_) => r.phase.Serving? && backend.Docker?
    case CancelContext(_) => true
    case Clear(_) => r.phase.Ending?
    case Settle(_) => r.phase.Cleared?
    case CloseRan(_) => r.phase.Settled?
    case _ => false
  }

  /** SetUnless(Stopped, Failed, Removing, Removed). */
  function SettledStatus(s: Status): Status {
    if s == Failed || s == Removing || s == Removed then s else Stopped
  }

  /** The run's own fields after its step, taken while the status reads s. */
  function RunAfter(backend: Backend, s: Status, r: RunCall, a: Action): RunCall {
    match a
    case SetPulling(_) => r.(phase := Preparing)
    case PrepareOk(_) => r.(phase := Prepared)
    case SetStarting(_) => r.(phase := Launching)
    case LaunchOk(_) => r.(phase := Serving, process := if backend.System? then Alive else NotStarted)
    case LaunchFails(_) => r.(phase := Ending)
    case StepFails(_) => r.(phase := Checking)
    case Check(_) => r.(phase := if r.cancelled then Ending else Reporting)
    case Report(_, _) => r.(phase := Ending, reported := true)
    case ProcessExits(_) => r.(process := Exited)
    case WaitReturns(_) => r.(phase := Ending, process := Reaped)
    case Interrupt(_) => r.(phase := Interrupted, interrupted := true)
    case GraceExpires(_) => r.(phase := GraceOver, graceOver := true)
    case Kill(_) => r.(phase := Killed, killed := true)
    case LogsEnd(_) => r.(phase := Ending)
    case CancelContext(_) => r.(cancelled := true)
    case Clear(_) => r.(phase := Cleared)
    case Settle(_) => r.(phase := Settled, settledAs := Some(SettledStatus(s)))
    case CloseRan(_) => r.(phase := Done, closes := r.closes + 1)
    case _ => r
  }

  // ---------------------------------------------------------------------------------------
  // Steps of the whole system
  // ---------------------------------------------------------------------------------------

  /** The status an action leaves behind when it finds s. */
  function StatusAfter(s: Status, a: Action): Status {
    match a
    case SetPulling(_) => Pulling
    case SetStarting(_) => Starting
    case Report(_, _) => Failed
    case Settle(_) => SettledStatus(s)
    case SetRemoving(_) => Removing
    case SetRemoved(_) => Removed
    case StartFails(_) => Failed
    case SuperviseSet(s') => s'
    case SuperviseFail(_) => Failed
    case _ => s
  }

  /** The failure reason an action leaves behind: every write replaces it, and only Failed keeps one. */
  function FailureAfter(s: Status, f: FailureReason, a: Action): FailureReason {
    match a
    case SetPulling(_) => NoFailure
    case SetStarting(_) => NoFailure
    case Report(_, reason) => ReasonFor(Failed, reason)
    case Settle(_) => if s == Failed || s == Removing || s == Removed then f else NoFailure
    case SetRemoving(_) => NoFailure
    case SetRemoved(_) => NoFailure
    case StartFails(_) => ReasonFor(Failed, ModelFailure)
    case SuperviseSet(_) => NoFailure
    case SuperviseFail(reason) => ReasonFor(Failed, reason)
    case _ => f
  }

  predicate Enabled(w: World, a: Action) {
    if RunOf(a).Some? then RunOf(a).value < |w.runs| && RunReady(w.backend, w.runs[RunOf(a).value], a)
    else
      match a
      case CallCancel(k) => StopAt(w, k, Captured)
      case StopReturns(k) => StopAt(w, k, Awaiting) && (w.stops[k].ran.None? || At(w, w.stops[k].ran.value, Done))
      case StopGivesUp(k) => StopAt(w, k, Awaiting) && w.stops[k].ran.Some?
      case SetRemoving(k) => StopAt(w, k, StopOk) && w.stops[k].kind.RemoveCall?
      case RemoveFails(k) => StopAt(w, k, RemovingSet)
      case SetRemoved(k) => StopAt(w, k, RemovingSet)
      case StartRuns(j) => j < |w.starts| && w.starts[j].pending
      case StartFails(j) => j < |w.starts| && w.starts[j].pending && w.backend.System?
      case _ => true
  }

  function StopTo(stops: seq<StopRun>, k: nat, p: StopPhase): seq<StopRun>
    requires k < |stops|
  {
    stops[k := stops[k].(phase := p)]
  }

  function CancelRun(runs: seq<RunCall>, run: Option<nat>): seq<RunCall> {
    if run.Some? && run.value < |runs| then runs[run.value := runs[run.value].(cancelled := true)] else runs
  }

  function RunsAfter(w: World, a: Action): seq<RunCall>
    requires Enabled(w, a)
  {
    match RunOf(a)
    case Some(i) => w.runs[i := RunAfter(w.backend, w.status, w.runs[i], a)]
    case None =>
      match a
      case Begin => if w.h.running then w.runs else w.runs + [NewRun]
      case StartRuns(_) => if w.h.running then w.runs else w.runs + [NewRun]
      case CallCancel(k) => CancelRun(w.runs, w.stops[k].cancel)
      case _ => w.runs
  }

  function StopsAfter(w: World, a: Action): seq<StopRun>
    requires Enabled(w, a)
  {
    match a
    case Snapshot(kind) => w.stops + [StopRun(kind, Captured, w.h.cancel, w.h.ran)]
    case CallCancel(k) => StopTo(w.stops, k, Awaiting)
    case StopReturns(k) => StopTo(w.stops, k, StopOk)
    case StopGivesUp(k) => StopTo(w.stops, k, StopErr)
    case SetRemoving(k) => StopTo(w.stops, k, RemovingSet)
    case RemoveFails(k) => StopTo(w.stops, k, RemoveErr)
    case SetRemoved(k) => StopTo(w.stops, k, RemovedSet)
    case _ => w.stops
  }

  function StartsAfter(w: World, a: Action): seq<StartCall>
    requires Enabled(w, a)
  {
    match a
    case StartLooks => w.starts + [StartCall(w.status, w.status == Stopped || w.status == Failed)]
    case StartRuns(j) => w.starts[j := w.starts[j].(pending := false)]
    case StartFails(j) => w.starts[j := w.starts[j].(pending := false)]
    case _ => w.starts
  }

  function HandshakeAfter(w: World, a: Action): Handshake {
    if (a.Begin? || a.StartRuns?) && !w.h.running then Installed(|w.runs|)
    else if a.Clear? then Idle
    else w.h
  }

  function Do(w: World, a: Action): World
    requires Enabled(w, a)
  {
    World(w.backend, HandshakeAfter(w, a), StatusAfter(w.status, a), FailureAfter(w.status, w.failure, a),
          RunsAfter(w, a), StopsAfter(w, a), StartsAfter(w, a))
  }

  /**
   The object refines the step relation: entering the critical section that an action stands for
   takes the object's fields from the handshake before the step to the one after it, admits a run
   exactly when the step adds one, and captures exactly what the step's new Stop call holds.
   */
  method EnterSection(agent: AgentState, w: World, a: Action) returns (admitted: bool, c: Option<nat>, r: Option<nat>)
    requires Enabled(w, a) && agent.Valid() && agent.Value() == w.h
    modifies agent
    ensures agent.Valid() && agent.Value() == Do(w, a).h
    ensures admitted <==> |Do(w, a).runs| > |w.runs|
    ensures a.Snapshot? ==> Do(w, a).stops == w.stops + [StopRun(a.kind, Captured, c, r)]
  {
    admitted, c, r := false, None, None;
    match a {
      case Begin => admitted := agent.BeginRun(|w.runs|);
      case StartRuns(_) => admitted := agent.BeginRun(|w.runs|);
      case Clear(_) => agent.ClearRun();
      case Snapshot(_) => c, r := agent.Snapshot();
      case _ =>
    }
  }

  // ---------------------------------------------------------------------------------------
  // Runs of the whole system
  // ---------------------------------------------------------------------------------------

  /** Perform a sequence of actions; None if one of them was not possible when its turn came. */
  function Perform(w: World, acts: seq<Action>): Option<World>
    decreases |acts|
  {
    if acts == [] then Some(w)
    else if Enabled(w, acts[0]) then Perform(Do(w, acts[0]), acts[1..])
    else None
  }

  /** A world some interleaving can reach. */
  ghost predicate Reachable(w: World) {
    exists acts :: Perform(NewWorld(w.backend), acts) == Some(w)
  }
}
