/** What every interleaving of the lifecycle keeps, and what its races do and do not allow. */
module LifecycleSafety {
  import opened Prelude
  import opened StatusTracking
  import opened Lifecycle
  import StatusHistory

  // ---------------------------------------------------------------------------------------
  // The inductive invariant
  // ---------------------------------------------------------------------------------------

  ghost predicate HandshakeInv(w: World) {
    && Whole(w.h)
    && (w.h.ran.Some? ==> w.h.ran.value < |w.runs| && InHandshake(w.runs[w.h.ran.value].phase))
    && (forall i :: 0 <= i < |w.runs| && InHandshake(w.runs[i].phase) ==> w.h.ran == Some(i))
  }

  /** What a single Run call carries in each phase. */
  ghost predicate RunInv(backend: Backend, r: RunCall) {
    && r.closes == (if r.phase.Done? then 1 else 0)
    && (r.settledAs.Some? <==> r.phase.Settled? || r.phase.Done?)
    && (r.killed ==> r.interrupted && r.graceOver)
    && (r.graceOver ==> r.interrupted)
    && (r.interrupted ==> r.cancelled)
    && (r.phase.Interrupted? ==> r.interrupted)
    && (r.phase.GraceOver? ==> r.graceOver)
    && (r.phase.Began? || r.phase.Preparing? || r.phase.Prepared? || r.phase.Launching? || r.phase.Checking? || r.phase.Reporting?
        ==> r.process.NotStarted? && !r.interrupted)
    && (UnderWatch(r.phase) && backend.System? ==> r.process.Alive? || r.process.Exited?)
    && (backend.Docker? ==> r.process.NotStarted? && !r.phase.Interrupted? && !r.phase.GraceOver? && !r.phase.Killed?)
    && (!UnderWatch(r.phase) ==> r.process.NotStarted? || r.process.Reaped?)
    && (r.reported ==> r.phase.Ending? || !InHandshake(r.phase))
  }

  /** The Stop, by itself or within a Remove, has returned nil. */
  predicate ReturnedNil(p: StopPhase) {
    p.StopOk? || PastRemoving(p)
  }

  ghost predicate StopInv(w: World, s: StopRun) {
    && s.cancel == s.ran
    && (s.ran.Some? ==> s.ran.value < |w.runs|)
    && (!s.phase.Captured? && s.ran.Some? ==> w.runs[s.ran.value].cancelled)
    && (ReturnedNil(s.phase) && s.ran.Some? ==> w.runs[s.ran.value].phase.Done?)
  }

  ghost predicate Inv(w: World) {
    && HandshakeInv(w)
    && (forall i :: 0 <= i < |w.runs| ==> RunInv(w.backend, w.runs[i]))
    && (forall k :: 0 <= k < |w.stops| ==> StopInv(w, w.stops[k]))
    && (w.failure != NoFailure ==> w.status == Failed)
  }

  /** A run's own step touches no other run, and only Clear touches the handshake. */
  lemma RunStepLocal(w: World, a: Action, i: nat)
    requires Enabled(w, a) && RunOf(a) == Some(i)
    ensures i < |w.runs| && RunReady(w.backend, w.runs[i], a)
    ensures Do(w, a).runs == w.runs[i := RunAfter(w.backend, w.status, w.runs[i], a)]
    ensures Do(w, a).h == if a.Clear? then Idle else w.h
    ensures Do(w, a).backend == w.backend && Do(w, a).stops == w.stops
  {
  }

  lemma RunStepKeeps(backend: Backend, s: Status, r: RunCall, a: Action)
    requires RunReady(backend, r, a) && RunInv(backend, r)
    ensures RunInv(backend, RunAfter(backend, s, r, a))
    ensures InHandshake(RunAfter(backend, s, r, a).phase) == (InHandshake(r.phase) && !a.Clear?)
  {
  }

  lemma RunStepInv(w: World, a: Action, i: nat)
    requires Inv(w) && Enabled(w, a) && RunOf(a) == Some(i)
    ensures HandshakeInv(Do(w, a))
    ensures forall j :: 0 <= j < |Do(w, a).runs| ==> RunInv(w.backend, Do(w, a).runs[j])
  {
    RunStepLocal(w, a, i);
    RunStepKeeps(w.backend, w.status, w.runs[i], a);
    var runs' := Do(w, a).runs;
    assert forall j :: 0 <= j < |runs'| && j != i ==> runs'[j] == w.runs[j];
  }

  lemma CallerStepInv(w: World, a: Action)
    requires Inv(w) && Enabled(w, a) && RunOf(a) == None
    ensures HandshakeInv(Do(w, a))
    ensures forall j :: 0 <= j < |Do(w, a).runs| ==> RunInv(w.backend, Do(w, a).runs[j])
  {
  }

  lemma RunAfterMonotone(backend: Backend, s: Status, r: RunCall, a: Action)
    requires RunReady(backend, r, a)
    ensures r.cancelled ==> RunAfter(backend, s, r, a).cancelled
    ensures r.phase.Done? ==> RunAfter(backend, s, r, a).phase.Done?
  {
  }

  /** Runs are never removed, never un-cancelled and never leave Done. */
  lemma DoMonotone(w: World, a: Action)
    requires Enabled(w, a)
    ensures |w.runs| <= |Do(w, a).runs| && |w.stops| <= |Do(w, a).stops|
    ensures forall i :: 0 <= i < |w.runs| ==>
              && (w.runs[i].cancelled ==> Do(w, a).runs[i].cancelled)
              && (w.runs[i].phase.Done? ==> Do(w, a).runs[i].phase.Done?)
    ensures Do(w, a).backend == w.backend
  {
    if RunOf(a).Some? {
      var i := RunOf(a).value;
      RunStepLocal(w, a, i);
      RunAfterMonotone(w.backend, w.status, w.runs[i], a);
    }
  }

  lemma DoStops(w: World, a: Action)
    requires Inv(w) && Enabled(w, a)
    ensures forall k :: 0 <= k < |Do(w, a).stops| ==> StopInv(Do(w, a), Do(w, a).stops[k])
  {
    DoMonotone(w, a);
    forall k | 0 <= k < |Do(w, a).stops| ensures StopInv(Do(w, a), Do(w, a).stops[k]) {
      if k < |w.stops| { assert StopInv(w, w.stops[k]); }
    }
  }

  lemma DoKeeps(w: World, a: Action)
    requires Inv(w) && Enabled(w, a)
    ensures Inv(Do(w, a))
  {
    if RunOf(a).Some? { RunStepInv(w, a, RunOf(a).value); } else { CallerStepInv(w, a); }
    DoMonotone(w, a);
    DoStops(w, a);
  }

  lemma {:induction false} PerformKeeps(w: World, acts: seq<Action>)
    requires Inv(w) && Perform(w, acts).Some?
    ensures Inv(Perform(w, acts).value)
    decreases |acts|
  {
    if acts != [] {
      DoKeeps(w, acts[0]);
      PerformKeeps(Do(w, acts[0]), acts[1..]);
    }
  }

  lemma ReachableInv(w: World)
    requires Reachable(w)
    ensures Inv(w)
  {
    var acts :| Perform(NewWorld(w.backend), acts) == Some(w);
    PerformKeeps(NewWorld(w.backend), acts);
  }

  // ---------------------------------------------------------------------------------------
  // The status writes are tracker calls
  // ---------------------------------------------------------------------------------------

  /** The tracker call an action makes, if any. */
  function TrackerCall(a: Action): Option<StatusHistory.Action> {
    match a
    case SetPulling(_) => Some(StatusHistory.Set(Pulling))
    case SetStarting(_) => Some(StatusHistory.Set(Starting))
    case Report(_, reason) => Some(StatusHistory.SetFailure(reason))
    case Settle(_) => Some(StatusHistory.SetUnless(Stopped, [Failed, Removing, Removed]))
    case SetRemoving(_) => Some(StatusHistory.Set(Removing))
    case SetRemoved(_) => Some(StatusHistory.Set(Removed))
    case StartFails(_) => Some(StatusHistory.SetFailure(ModelFailure))
    case SuperviseSet(s) => Some(StatusHistory.Set(s))
    case SuperviseFail(reason) => Some(StatusHistory.SetFailure(reason))
    case _ => None
  }

  /** A step leaves the status and reason that its tracker call leaves, and without a call leaves them alone. */
  lemma StatusIsTracked(t: Tracker, a: Action)
    ensures var t' := if TrackerCall(a).Some? then StatusHistory.Act(t, TrackerCall(a).value) else t;
            t'.status == StatusAfter(t.status, a) && t'.failure == FailureAfter(t.status, t.failure, a)
  {
    assert forall s: Status :: s in [Failed, Removing, Removed] <==> s == Failed || s == Removing || s == Removed;
  }

  // ---------------------------------------------------------------------------------------
  // Handshake safety
  // ---------------------------------------------------------------------------------------

  /**
   In every interleaving, whatever Start's unlocked look at the status saw: running, cancel and ran
   are set together (for one and the same run) or cleared together; at most one run is inside the
   handshake; each ran channel is closed at most once, and only by a run that has settled; a process
   is force-killed only after an interrupt and the grace period; and a Stop that returned nil did so
   after the run it captured had settled and its process, if one was started, had been waited for.
   */
  lemma HandshakeSafe(w: World)
    requires Reachable(w)
    ensures w.h == Idle || exists i: nat :: w.h == Installed(i) && i < |w.runs| && InHandshake(w.runs[i].phase)
    ensures forall i, j | 0 <= i < |w.runs| && 0 <= j < |w.runs| ::
              InHandshake(w.runs[i].phase) && InHandshake(w.runs[j].phase) ==> i == j
    ensures forall i :: 0 <= i < |w.runs| ==>
              && w.runs[i].closes <= 1
              && (w.runs[i].closes == 1 <==> w.runs[i].phase.Done?)
              && (w.runs[i].closes == 1 ==> w.runs[i].settledAs.Some?)
              && (w.runs[i].killed ==> w.runs[i].interrupted && w.runs[i].graceOver && w.runs[i].cancelled)
    ensures forall k :: 0 <= k < |w.stops| && ReturnedNil(w.stops[k].phase) && w.stops[k].ran.Some? ==>
              && w.stops[k].ran.value < |w.runs|
              && w.runs[w.stops[k].ran.value].settledAs.Some?
              && w.runs[w.stops[k].ran.value].closes == 1
              && (w.runs[w.stops[k].ran.value].process.NotStarted? || w.runs[w.stops[k].ran.value].process.Reaped?)
  {
    ReachableInv(w);
    forall k | 0 <= k < |w.stops| && ReturnedNil(w.stops[k].phase) && w.stops[k].ran.Some?
      ensures w.stops[k].ran.value < |w.runs| && w.runs[w.stops[k].ran.value].phase.Done?
      ensures RunInv(w.backend, w.runs[w.stops[k].ran.value])
    {
      assert StopInv(w, w.stops[k]);
    }
  }

  // ---------------------------------------------------------------------------------------
  // Conditions on a stretch of execution
  // ---------------------------------------------------------------------------------------

  /** Every action of the stretch satisfies `ok` in the world it is performed in. */
  ghost predicate Throughout(w: World, acts: seq<Action>, ok: (World, Action) -> bool)
    requires Perform(w, acts).Some?
    decreases |acts|
  {
    acts == [] || (ok(w, acts[0]) && Throughout(Do(w, acts[0]), acts[1..], ok))
  }

  /** A Run, or a Start that passed its check, is admitted. */
  predicate NewRunBegins(w: World, a: Action) {
    (a.Begin? || a.StartRuns?) && !w.h.running
  }

  /** No new run begins and no supervisor writes the status: what is left are steps of the agent's own calls. */
  predicate Quiet(w: World, a: Action) {
    !NewRunBegins(w, a) && !a.SuperviseSet? && !a.SuperviseFail?
  }

  /** A status write that belongs to neither a run nor a removal: a supervisor's, or that of a Start
      whose credentials cannot be re-resolved. */
  predicate Intrudes(a: Action) {
    a.SuperviseSet? || a.SuperviseFail? || a.StartFails?
  }

  /** No new run begins, and from the k-th Stop call's Removing on nobody intrudes. */
  function Undisturbed(k: nat): (World, Action) -> bool {
    (w: World, a: Action) =>
      !NewRunBegins(w, a) && (k < |w.stops| && PastRemoving(w.stops[k].phase) ==> !Intrudes(a))
  }

  /** No new run begins and nobody but a run records a failure: no supervisor, and no other Start call. */
  predicate NoOutsideFailure(w: World, a: Action) {
    !NewRunBegins(w, a) && !(a.SuperviseSet? && a.s == Failed) && !a.SuperviseFail? && !a.StartFails?
  }

  // ---------------------------------------------------------------------------------------
  // Removal sticks
  // ---------------------------------------------------------------------------------------

  /** Every run still inside the handshake is the one this Remove's Stop captured. */
  ghost predicate Removal(w: World, k: nat) {
    && k < |w.stops|
    && (forall i :: 0 <= i < |w.runs| && InHandshake(w.runs[i].phase) ==> w.stops[k].ran == Some(i))
    && (PastRemoving(w.stops[k].phase) ==> w.status == Removing || w.status == Removed)
  }

  lemma RemovalRunStep(w: World, a: Action, k: nat)
    requires Inv(w) && Enabled(w, a) && RunOf(a).Some? && Removal(w, k)
    ensures Removal(Do(w, a), k)
  {
    var i := RunOf(a).value;
    RunStepLocal(w, a, i);
    RunStepKeeps(w.backend, w.status, w.runs[i], a);
    assert StopInv(w, w.stops[k]);
    assert forall j :: 0 <= j < |w.runs| && j != i ==> Do(w, a).runs[j] == w.runs[j];
  }

  lemma RemovalCallerStep(w: World, a: Action, k: nat)
    requires Inv(w) && Enabled(w, a) && RunOf(a).None? && Removal(w, k) && Undisturbed(k)(w, a)
    ensures Removal(Do(w, a), k)
  {
  }

  lemma {:induction false} RemovalKeeps(w: World, acts: seq<Action>, k: nat)
    requires Inv(w) && Removal(w, k)
    requires Perform(w, acts).Some? && Throughout(w, acts, Undisturbed(k))
    ensures Removal(Perform(w, acts).value, k)
    decreases |acts|
  {
    if acts != [] {
      DoKeeps(w, acts[0]);
      if RunOf(acts[0]).Some? { RemovalRunStep(w, acts[0], k); } else { RemovalCallerStep(w, acts[0], k); }
      RemovalKeeps(Do(w, acts[0]), acts[1..], k);
    }
  }

  /** From a Remove's snapshot on, undisturbed, every run inside the handshake is the one it captured. */
  lemma AfterSnapshot(w: World, acts: seq<Action>) returns (u: World, k: nat)
    requires Reachable(w)
    requires var w1 := Do(w, Snapshot(RemoveCall));
             Perform(w1, acts).Some? && Throughout(w1, acts, Undisturbed(|w.stops|))
    ensures Perform(Do(w, Snapshot(RemoveCall)), acts) == Some(u) && k == |w.stops|
    ensures Inv(u) && Removal(u, k)
  {
    ReachableInv(w);
    var w1 := Do(w, Snapshot(RemoveCall));
    k := |w.stops|;
    DoKeeps(w, Snapshot(RemoveCall));
    assert Removal(w1, k);
    RemovalKeeps(w1, acts, k);
    PerformKeeps(w1, acts);
    u := Perform(w1, acts).value;
  }

  /**
   Once a Remove has recorded Removing, the status stays Removing or Removed, in every interleaving
   in which no new run begins after that Remove's Stop took its snapshot and, from its Removing on,
   no supervisor writes the status and no Start fails to refresh its credentials. Runs that had
   already cleared the handshake but not yet settled are covered.
   */
  lemma RemovalSticks(w: World, acts: seq<Action>)
    requires Reachable(w)
    requires var w1 := Do(w, Snapshot(RemoveCall));
             Perform(w1, acts).Some? && Throughout(w1, acts, Undisturbed(|w.stops|))
    ensures var v := Perform(Do(w, Snapshot(RemoveCall)), acts).value;
            && |w.stops| < |v.stops|
            && (PastRemoving(v.stops[|w.stops|].phase) ==> v.status == Removing || v.status == Removed)
  {
    var v, k := AfterSnapshot(w, acts);
  }

  // ---------------------------------------------------------------------------------------
  // A cancelled run does not fail
  // ---------------------------------------------------------------------------------------

  /** Run i was cancelled without having been seen live by its failure check. */
  ghost predicate CancelledInTime(w: World, i: nat) {
    i < |w.runs| && w.runs[i].cancelled && !w.runs[i].reported && !w.runs[i].phase.Reporting?
  }

  lemma CancelledStep(w: World, a: Action, i: nat)
    requires Enabled(w, a) && CancelledInTime(w, i)
    ensures CancelledInTime(Do(w, a), i)
  {
    if RunOf(a).Some? { RunStepLocal(w, a, RunOf(a).value); }
  }

  lemma {:induction false} CancelledNeverReports(w: World, acts: seq<Action>, i: nat)
    requires CancelledInTime(w, i) && Perform(w, acts).Some?
    ensures CancelledInTime(Perform(w, acts).value, i)
    decreases |acts|
  {
    if acts != [] {
      CancelledStep(w, acts[0], i);
      CancelledNeverReports(Do(w, acts[0]), acts[1..], i);
    }
  }

  /** From its Pulling on, a status of Failed is this run's own report, and it settles as one of four. */
  ghost predicate OwnReport(r: RunCall, s: Status) {
    && (!r.phase.Began? && r.settledAs.None? && s == Failed ==> r.reported)
    && (r.settledAs == Some(Failed) ==> r.reported)
    && (r.settledAs.Some? ==> r.settledAs.value in {Stopped, Failed, Removing, Removed})
  }

  ghost predicate OwnFailure(w: World, i: nat) {
    i < |w.runs| && OwnReport(w.runs[i], w.status) && (w.runs[i].phase.Cleared? ==> w.h == Idle)
  }

  lemma OwnReportStep(backend: Backend, s: Status, r: RunCall, a: Action)
    requires RunReady(backend, r, a) && RunInv(backend, r) && OwnReport(r, s)
    ensures OwnReport(RunAfter(backend, s, r, a), StatusAfter(s, a))
    ensures RunAfter(backend, s, r, a).phase.Cleared? ==> a.Clear? || r.phase.Cleared?
  {
  }

  lemma OwnFailureOwnStep(w: World, a: Action, i: nat)
    requires Inv(w) && Enabled(w, a) && RunOf(a) == Some(i) && OwnFailure(w, i)
    ensures OwnFailure(Do(w, a), i)
  {
    RunStepLocal(w, a, i);
    OwnReportStep(w.backend, w.status, w.runs[i], a);
  }

  lemma OwnFailureOtherRun(w: World, a: Action, i: nat)
    requires Inv(w) && Enabled(w, a) && OwnFailure(w, i)
    requires RunOf(a).Some? && RunOf(a).value != i
    ensures OwnFailure(Do(w, a), i)
  {
    var j := RunOf(a).value;
    RunStepLocal(w, a, j);
    assert Do(w, a).runs[i] == w.runs[i];
    if InHandshake(w.runs[j].phase) { assert w.h.ran == Some(j); }
  }

  lemma OwnFailureCaller(w: World, a: Action, i: nat)
    requires Inv(w) && Enabled(w, a) && OwnFailure(w, i)
    requires RunOf(a).None? && NoOutsideFailure(w, a)
    ensures OwnFailure(Do(w, a), i)
  {
  }

  lemma OwnFailureStep(w: World, a: Action, i: nat)
    requires Inv(w) && Enabled(w, a) && OwnFailure(w, i) && NoOutsideFailure(w, a)
    ensures OwnFailure(Do(w, a), i)
  {
    if RunOf(a).None? { OwnFailureCaller(w, a, i); }
    else if RunOf(a).value == i { OwnFailureOwnStep(w, a, i); }
    else { OwnFailureOtherRun(w, a, i); }
  }

  lemma {:induction false} OwnFailureKeeps(w: World, acts: seq<Action>, i: nat)
    requires Inv(w) && OwnFailure(w, i)
    requires Perform(w, acts).Some? && Throughout(w, acts, NoOutsideFailure)
    ensures OwnFailure(Perform(w, acts).value, i)
    decreases |acts|
  {
    if acts != [] {
      var a := acts[0];
      DoKeeps(w, a);
      OwnFailureStep(w, a, i);
      OwnFailureKeeps(Do(w, a), acts[1..], i);
    }
  }

  /**
   A run whose context is cancelled before its failure check never settles as Failed: if nobody else
   records a failure (no supervisor, and no other Start call that cannot refresh its credentials) and
   no later run begins, it settles Stopped (or leaves Removing/Removed), even when the agent was Failed
   as the run began. w is the world just after its beginRun; v a later one, in which it is cancelled; u
   any world after that.
   */
  lemma CancelledRunSettlesStopped(w: World, before: seq<Action>, after: seq<Action>, i: nat)
    requires Reachable(w) && At(w, i, Began)
    requires Perform(w, before).Some? && Throughout(w, before, NoOutsideFailure)
    requires CancelledInTime(Perform(w, before).value, i)
    requires Perform(Perform(w, before).value, after).Some?
    requires Throughout(Perform(w, before).value, after, NoOutsideFailure)
    ensures var u := Perform(Perform(w, before).value, after).value;
            && i < |u.runs| && !u.runs[i].reported
            && (u.runs[i].settledAs.Some? ==> u.runs[i].settledAs.value in {Stopped, Removing, Removed})
  {
    ReachableInv(w);
    var v := Perform(w, before).value;
    PerformKeeps(w, before);
    OwnFailureKeeps(w, before, i);
    OwnFailureKeeps(v, after, i);
    CancelledNeverReports(v, after, i);
  }

  // ---------------------------------------------------------------------------------------
  // Exactly when a cancelled run can still settle as Failed
  // ---------------------------------------------------------------------------------------

  /** Some stretch in which nobody else records a failure ends with run i settled as Failed. */
  ghost predicate CanSettleFailed(w: World, i: nat) {
    exists acts :: Perform(w, acts).Some? && Throughout(w, acts, NoOutsideFailure)
                   && SettledFailed(Perform(w, acts).value, i)
  }

  predicate SettledFailed(w: World, i: nat) {
    i < |w.runs| && w.runs[i].settledAs == Some(Failed)
  }

  /** Past its failure check with a live context, or its report recorded and still standing, or settled so already. */
  predicate BoundToFail(r: RunCall, s: Status) {
    || r.phase.Reporting?
    || (r.reported && r.settledAs.None? && s == Failed)
    || r.settledAs == Some(Failed)
  }

  /** The opposite of being bound to fail, for a cancelled run. */
  predicate Spared(r: RunCall, s: Status) {
    r.cancelled && !BoundToFail(r, s)
  }

  lemma SparedStep(backend: Backend, s: Status, r: RunCall, a: Action)
    requires RunReady(backend, r, a) && RunInv(backend, r) && OwnReport(r, s) && Spared(r, s)
    ensures Spared(RunAfter(backend, s, r, a), StatusAfter(s, a))
  {
  }

  /** While a reported run has yet to settle, nobody else is inside the handshake to report. */
  lemma NoOtherReport(w: World, a: Action, i: nat)
    requires Inv(w) && Enabled(w, a) && OwnFailure(w, i) && RunOf(a) != Some(i)
    ensures a.Report? ==> !w.runs[i].reported || w.runs[i].settledAs.Some?
  {
    if a.Report? { assert w.h.ran == Some(a.i); }
  }

  lemma SparedOtherStep(w: World, a: Action, i: nat)
    requires Inv(w) && Enabled(w, a) && OwnFailure(w, i) && NoOutsideFailure(w, a)
    requires RunOf(a) != Some(i) && Spared(w.runs[i], w.status)
    ensures i < |Do(w, a).runs| && Spared(Do(w, a).runs[i], Do(w, a).status)
  {
    NoOtherReport(w, a, i);
    assert Do(w, a).runs[i] == w.runs[i];
  }

  lemma {:induction false} SparedKeeps(w: World, acts: seq<Action>, i: nat)
    requires Inv(w) && OwnFailure(w, i) && Spared(w.runs[i], w.status)
    requires Perform(w, acts).Some? && Throughout(w, acts, NoOutsideFailure)
    ensures !SettledFailed(Perform(w, acts).value, i)
    decreases |acts|
  {
    if acts != [] {
      var a := acts[0];
      DoKeeps(w, a);
      OwnFailureStep(w, a, i);
      if RunOf(a) == Some(i) {
        RunStepLocal(w, a, i);
        SparedStep(w.backend, w.status, w.runs[i], a);
      } else {
        SparedOtherStep(w, a, i);
      }
      SparedKeeps(Do(w, a), acts[1..], i);
    }
  }

  /** One step first. */
  lemma SettlesFailedAfter(w: World, a: Action, i: nat)
    requires Enabled(w, a) && NoOutsideFailure(w, a) && CanSettleFailed(Do(w, a), i)
    ensures CanSettleFailed(w, i)
  {
    var acts :| Perform(Do(w, a), acts).Some? && Throughout(Do(w, a), acts, NoOutsideFailure)
                && SettledFailed(Perform(Do(w, a), acts).value, i);
    var all := [a] + acts;
    assert all[0] == a && all[1..] == acts;
    assert Perform(w, all) == Perform(Do(w, a), acts);
    assert Throughout(w, all, NoOutsideFailure);
  }

  lemma SettledAlready(w: World, i: nat)
    requires SettledFailed(w, i)
    ensures CanSettleFailed(w, i)
  {
    assert Perform(w, []) == Some(w) && Throughout(w, [], NoOutsideFailure);
  }

  lemma BoundSettles(w: World, i: nat)
    requires Inv(w) && i < |w.runs| && BoundToFail(w.runs[i], w.status)
    ensures CanSettleFailed(w, i)
    decreases if w.runs[i].phase.Reporting? then 3 else if w.runs[i].phase.Ending? then 2
              else if w.runs[i].phase.Cleared? then 1 else 0
  {
    var r := w.runs[i];
    if r.settledAs == Some(Failed) {
      SettledAlready(w, i);
    } else {
      var a := if r.phase.Reporting? then Report(i, PullFailure) else if r.phase.Ending? then Clear(i) else Settle(i);
      RunStepLocal(w, a, i);
      DoKeeps(w, a);
      BoundSettles(Do(w, a), i);
      SettlesFailedAfter(w, a, i);
    }
  }

  /**
   For a run that has been cancelled, at whatever point of a stretch since its beginRun in which
   nobody else recorded a failure (a supervisor, or another Start call whose credential refresh
   fails: either can make any run settle as Failed), and for either backend: it can still settle as Failed exactly when
   it had passed its failure check before the cancellation and is about to report, or has reported
   and the status still says so (or it has settled so already).
   */
  lemma CancelledRunFailsExactly(w: World, before: seq<Action>, i: nat)
    requires Reachable(w) && At(w, i, Began)
    requires Perform(w, before).Some? && Throughout(w, before, NoOutsideFailure)
    requires var v := Perform(w, before).value; i < |v.runs| && v.runs[i].cancelled
    ensures var v := Perform(w, before).value;
            CanSettleFailed(v, i) <==> BoundToFail(v.runs[i], v.status)
  {
    ReachableInv(w);
    var v := Perform(w, before).value;
    PerformKeeps(w, before);
    OwnFailureKeeps(w, before, i);
    if BoundToFail(v.runs[i], v.status) {
      BoundSettles(v, i);
    } else {
      forall acts | Perform(v, acts).Some? && Throughout(v, acts, NoOutsideFailure)
        ensures !SettledFailed(Perform(v, acts).value, i)
      {
        SparedKeeps(v, acts, i);
      }
    }
  }

  // ---------------------------------------------------------------------------------------
  // What the races do allow
  // ---------------------------------------------------------------------------------------

  lemma {:induction false} PerformSnoc(w: World, acts: seq<Action>, a: Action)
    requires Perform(w, acts).Some? && Enabled(Perform(w, acts).value, a)
    ensures Perform(w, acts + [a]) == Some(Do(Perform(w, acts).value, a))
    decreases |acts|
  {
    if acts == [] {
      assert [a][1..] == [];
      assert acts + [a] == [a];
      assert Perform(w, [a]) == Perform(Do(w, a), []);
    } else {
      PerformSnoc(Do(w, acts[0]), acts[1..], a);
      assert (acts + [a])[1..] == acts[1..] + [a];
    }
  }

  lemma Initially(backend: Backend) returns (w: World)
    ensures w == NewWorld(backend) && Reachable(w)
  {
    w := NewWorld(backend);
    assert Perform(NewWorld(w.backend), []) == Some(w);
  }

  lemma Then(w: World, a: Action) returns (w': World)
    requires Reachable(w) && Enabled(w, a)
    ensures w' == Do(w, a) && Reachable(w')
  {
    w' := Do(w, a);
    DoMonotone(w, a);
    var acts :| Perform(NewWorld(w.backend), acts) == Some(w);
    PerformSnoc(NewWorld(w.backend), acts, a);
  }

  /** The world of one run and nothing else. */
  function Alone(backend: Backend, h: Handshake, s: Status, f: FailureReason, r: RunCall): World {
    World(backend, h, s, f, [r], [], [])
  }

  /** A first run that is preparing its workspace. */
  lemma FirstPreparing(backend: Backend) returns (w: World)
    ensures Reachable(w) && w == Alone(backend, Installed(0), Pulling, NoFailure, NewRun.(phase := Preparing))
  {
    w := Initially(backend);
    w := Then(w, Begin);
    assert w == Alone(backend, Installed(0), Pulling, NoFailure, NewRun);
    w := Then(w, SetPulling(0));
  }

  /** A first run about to start its process. */
  lemma FirstLaunching(backend: Backend) returns (w: World)
    ensures Reachable(w) && w == Alone(backend, Installed(0), Starting, NoFailure, NewRun.(phase := Launching))
  {
    w := FirstPreparing(backend);
    w := Then(w, PrepareOk(0));
    assert w == Alone(backend, Installed(0), Pulling, NoFailure, NewRun.(phase := Prepared));
    w := Then(w, SetStarting(0));
  }

  /** A first run whose process could not be started, and which has cleared the handshake but not settled. */
  lemma FirstCleared() returns (w: World)
    ensures Reachable(w) && w == Alone(System, Idle, Starting, NoFailure, NewRun.(phase := Cleared))
  {
    w := FirstLaunching(System);
    w := Then(w, LaunchFails(0));
    assert w == Alone(System, Installed(0), Starting, NoFailure, NewRun.(phase := Ending));
    w := Then(w, Clear(0));
  }

  /** A second run has begun, and recorded Pulling, before the first one settled. */
  lemma SecondPreparing() returns (w: World)
    ensures Reachable(w)
    ensures w == World(System, Installed(1), Pulling, NoFailure,
                       [NewRun.(phase := Cleared), NewRun.(phase := Preparing)], [], [])
  {
    w := FirstCleared();
    w := Then(w, Begin);
    assert w == World(System, Installed(1), Starting, NoFailure, [NewRun.(phase := Cleared), NewRun], [], []);
    w := Then(w, SetPulling(1));
  }

  /**
   The status can read Stopped while a run is in flight: a second run begins between the first
   one's clearing of the handshake and its settle, which then overwrites the second run's status.
   */
  lemma StoppedWhileRunning() returns (w: World)
    ensures Reachable(w) && w.status == Stopped
    ensures w.h == Installed(1) && |w.runs| == 2 && w.runs[1].phase == Preparing
  {
    w := SecondPreparing();
    w := Then(w, Settle(0));
  }

  /** An agent that never ran, with one Remove call in the given phase. */
  function Unrun(s: Status, p: StopPhase): World {
    World(System, Idle, s, NoFailure, [], [StopRun(RemoveCall, p, None, None)], [])
  }

  lemma FirstSnapshot() returns (w: World)
    ensures Reachable(w) && w == Unrun(Pulling, Captured)
  {
    w := Initially(System);
    w := Then(w, Snapshot(RemoveCall));
  }

  lemma CapturedForRemoval() returns (w: World)
    ensures Reachable(w) && w == Unrun(Pulling, Awaiting)
  {
    w := FirstSnapshot();
    w := Then(w, CallCancel(0));
  }

  lemma StoppedForRemoval() returns (w: World)
    ensures Reachable(w) && w == Unrun(Pulling, StopOk)
  {
    w := CapturedForRemoval();
    w := Then(w, StopReturns(0));
  }

  lemma BeingRemoved() returns (w: World)
    ensures Reachable(w) && w == Unrun(Removing, RemovingSet)
  {
    w := StoppedForRemoval();
    w := Then(w, SetRemoving(0));
  }

  lemma FullyRemoved() returns (w: World)
    ensures Reachable(w) && w == Unrun(Removed, RemovedSet)
  {
    w := BeingRemoved();
    w := Then(w, SetRemoved(0));
  }

  /** Removed is not terminal: a later Run is admitted and overwrites it. */
  lemma RunAfterRemoved() returns (w: World)
    ensures Reachable(w) && w.status == Pulling
    ensures |w.stops| == 1 && w.stops[0].kind == RemoveCall && w.stops[0].phase == RemovedSet
  {
    w := FullyRemoved();
    w := Then(w, Begin);
    w := Then(w, SetPulling(0));
  }

  predicate Gone(s: Status) {
    s == Removing || s == Removed
  }

  /** From here on, by steps of the agent's own calls and without a new run, the status can leave Removing and Removed. */
  ghost predicate CanLeaveRemoval(w: World) {
    exists acts :: Perform(w, acts).Some? && Throughout(w, acts, Quiet) && !Gone(Perform(w, acts).value.status)
  }

  /** A Start saw the agent stopped or failed and may yet fail to refresh its credentials. */
  ghost predicate StartMayFail(w: World) {
    w.backend.System? && exists j :: 0 <= j < |w.starts| && w.starts[j].pending
  }

  /** Past a removal the handshake is idle, so a Run would be admitted. */
  lemma RemovalAdmits(w: World, k: nat)
    requires Inv(w) && Removal(w, k) && PastRemoving(w.stops[k].phase)
    ensures w.h == Idle && NewRunBegins(w, Begin)
  {
    assert StopInv(w, w.stops[k]);
  }

  lemma LeavesInOne(w: World, a: Action)
    requires Enabled(w, a) && Quiet(w, a) && !Gone(Do(w, a).status)
    ensures CanLeaveRemoval(w)
  {
    var w1 := Do(w, a);
    assert [a][1..] == [] && Perform(w1, []) == Some(w1) && Throughout(w1, [], Quiet);
    assert Perform(w, [a]) == Some(w1) && Throughout(w, [a], Quiet);
  }

  /** The admitted run's first write takes the status away. */
  lemma NewRunLeaves(w: World, a: Action)
    requires Enabled(w, a) && NewRunBegins(w, a)
    ensures CanLeaveRemoval(Do(w, a))
  {
    assert At(Do(w, a), |w.runs|, Began);
    LeavesInOne(Do(w, a), SetPulling(|w.runs|));
  }

  lemma FailedStartLeaves(w: World)
    requires StartMayFail(w)
    ensures CanLeaveRemoval(w)
  {
    var j :| 0 <= j < |w.starts| && w.starts[j].pending;
    LeavesInOne(w, StartFails(j));
  }

  /** Past a removal, with no Start left that could fail. */
  ghost predicate GoneForGood(w: World, k: nat) {
    Removal(w, k) && PastRemoving(w.stops[k].phase) && !StartMayFail(w)
  }

  lemma GoneForGoodStep(w: World, a: Action, k: nat)
    requires Inv(w) && Enabled(w, a) && GoneForGood(w, k) && Quiet(w, a)
    ensures GoneForGood(Do(w, a), k)
  {
    if RunOf(a).Some? { RemovalRunStep(w, a, k); } else { RemovalCallerStep(w, a, k); }
    PastRemovingStep(w, a, k);
    NoLateStart(w, a);
  }

  /** Once the status is Removing or Removed, no further Start passes its check. */
  lemma NoLateStart(w: World, a: Action)
    requires Enabled(w, a) && Gone(w.status) && !StartMayFail(w)
    ensures !StartMayFail(Do(w, a))
  {
    forall j | 0 <= j < |Do(w, a).starts| && w.backend.System? ensures !Do(w, a).starts[j].pending {
      if j < |w.starts| { assert !w.starts[j].pending; }
    }
  }

  lemma {:induction false} GoneForGoodKeeps(w: World, acts: seq<Action>, k: nat)
    requires Inv(w) && GoneForGood(w, k)
    requires Perform(w, acts).Some? && Throughout(w, acts, Quiet)
    ensures Gone(Perform(w, acts).value.status)
    decreases |acts|
  {
    if acts != [] {
      DoKeeps(w, acts[0]);
      GoneForGoodStep(w, acts[0], k);
      GoneForGoodKeeps(Do(w, acts[0]), acts[1..], k);
    }
  }

  /** Without a new run, the status can leave Removing and Removed exactly if some Start may still fail. */
  lemma LeavesQuietlyExactly(w: World, k: nat)
    requires Inv(w) && Removal(w, k) && PastRemoving(w.stops[k].phase)
    ensures CanLeaveRemoval(w) <==> StartMayFail(w)
  {
    if StartMayFail(w) {
      FailedStartLeaves(w);
    } else {
      forall acts | Perform(w, acts).Some? && Throughout(w, acts, Quiet) ensures Gone(Perform(w, acts).value.status) {
        GoneForGoodKeeps(w, acts, k);
      }
    }
  }

  /** A Start that may fail keeps that possibility through any step but its own. */
  lemma StartStillMayFail(w: World, a: Action)
    requires Enabled(w, a) && StartMayFail(w) && !a.StartFails? && !a.StartRuns?
    ensures StartMayFail(Do(w, a))
  {
    var j :| 0 <= j < |w.starts| && w.starts[j].pending;
    assert Do(w, a).starts[j].pending;
  }

  lemma PastRemovingStep(w: World, a: Action, k: nat)
    requires Enabled(w, a) && k < |w.stops| && PastRemoving(w.stops[k].phase)
    ensures k < |Do(w, a).stops| && PastRemoving(Do(w, a).stops[k].phase)
  {
  }

  /** One more step past a removal: admitting a run, or a Start that may fail, and nothing else opens a way out. */
  lemma StepOpensWayOut(w: World, a: Action, k: nat)
    requires Inv(w) && Removal(w, k) && PastRemoving(w.stops[k].phase)
    requires Enabled(w, a) && !a.SuperviseSet? && !a.SuperviseFail?
    ensures CanLeaveRemoval(Do(w, a)) <==> NewRunBegins(w, a) || StartMayFail(w)
  {
    RemovalAdmits(w, k);
    if NewRunBegins(w, a) {
      NewRunLeaves(w, a);
    } else if StartMayFail(w) {
      if a.StartFails? {
        assert Perform(Do(w, a), []) == Some(Do(w, a)) && Throughout(Do(w, a), [], Quiet);
      } else {
        StartStillMayFail(w, a);
        FailedStartLeaves(Do(w, a));
      }
    } else {
      GoneForGoodStep(w, a, k);
      DoKeeps(w, a);
      LeavesQuietlyExactly(Do(w, a), k);
    }
  }

  /**
   Removed is not terminal. Take any world reached after a Remove's snapshot without a new run and,
   since that Remove's Removing, without an intrusion. A new run would be admitted there. By the
   agent's own calls and without a new run, the status can leave Removing and Removed exactly when, on
   the system backend, a Start that passed its check earlier may still fail to refresh its
   credentials. And of all steps but a supervisor's writes, exactly the admission of a new run opens a
   way out where no such Start is pending.
   */
  lemma RemovalLeftExactly(w: World, acts: seq<Action>, a: Action)
    requires Reachable(w)
    requires var w1 := Do(w, Snapshot(RemoveCall));
             Perform(w1, acts).Some? && Throughout(w1, acts, Undisturbed(|w.stops|))
    requires var u := Perform(Do(w, Snapshot(RemoveCall)), acts).value;
             && |w.stops| < |u.stops| && PastRemoving(u.stops[|w.stops|].phase)
             && Enabled(u, a) && !a.SuperviseSet? && !a.SuperviseFail?
    ensures var u := Perform(Do(w, Snapshot(RemoveCall)), acts).value;
            && NewRunBegins(u, Begin)
            && (CanLeaveRemoval(u) <==> StartMayFail(u))
            && (CanLeaveRemoval(Do(u, a)) <==> NewRunBegins(u, a) || StartMayFail(u))
  {
    var u, k := AfterSnapshot(w, acts);
    RemovalAdmits(u, k);
    LeavesQuietlyExactly(u, k);
    StepOpensWayOut(u, a, k);
  }

  /** A system agent whose one run is over, with one Start that saw it Stopped and one Remove call in the given phase. */
  function Restarting(s: Status, p: StopPhase): World {
    World(System, Idle, s, NoFailure, [Over], [StopRun(RemoveCall, p, None, None)], [StartCall(Stopped, true)])
  }

  const Over := NewRun.(phase := Done, settledAs := Some(Stopped), closes := 1)

  lemma FirstSettled() returns (w: World)
    ensures Reachable(w)
    ensures w == Alone(System, Idle, Stopped, NoFailure, NewRun.(phase := Settled, settledAs := Some(Stopped)))
  {
    w := FirstCleared();
    w := Then(w, Settle(0));
  }

  lemma FirstOver() returns (w: World)
    ensures Reachable(w) && w == Alone(System, Idle, Stopped, NoFailure, Over)
  {
    w := FirstSettled();
    w := Then(w, CloseRan(0));
  }

  lemma StartLooked() returns (w: World)
    ensures Reachable(w) && w == World(System, Idle, Stopped, NoFailure, [Over], [], [StartCall(Stopped, true)])
  {
    w := FirstOver();
    w := Then(w, StartLooks);
  }

  lemma RemoveBegun() returns (w: World)
    ensures Reachable(w) && w == Restarting(Stopped, Captured)
  {
    w := StartLooked();
    w := Then(w, Snapshot(RemoveCall));
  }

  lemma RemoveCancelled() returns (w: World)
    ensures Reachable(w) && w == Restarting(Stopped, Awaiting)
  {
    w := RemoveBegun();
    w := Then(w, CallCancel(0));
  }

  lemma StoppedWhileStarting() returns (w: World)
    ensures Reachable(w) && w == Restarting(Stopped, StopOk)
  {
    w := RemoveCancelled();
    w := Then(w, StopReturns(0));
  }

  lemma RemovingWhileStarting() returns (w: World)
    ensures Reachable(w) && w == Restarting(Removing, RemovingSet)
  {
    w := StoppedWhileStarting();
    w := Then(w, SetRemoving(0));
  }

  lemma RemovedWhileStarting() returns (w: World)
    ensures Reachable(w) && w == Restarting(Removed, RemovedSet)
  {
    w := RemovingWhileStarting();
    w := Then(w, SetRemoved(0));
  }

  /** A Start reads Stopped, a Remove completes, and the Start's failed credential refresh overwrites Removed. */
  lemma FailedAfterRemoved() returns (w: World)
    ensures Reachable(w) && w.status == Failed && w.failure == ModelFailure
    ensures |w.runs| == 1 && |w.stops| == 1 && w.stops[0].kind == RemoveCall && w.stops[0].phase == RemovedSet
  {
    w := RemovedWhileStarting();
    w := Then(w, StartFails(0));
  }

  /** A second run beside a Start that saw the agent Stopped after the first. */
  function Overtaken(h: Handshake, s: Status, r: RunCall): World {
    World(System, h, s, NoFailure, [Over, r], [], [StartCall(Stopped, true)])
  }

  lemma SecondBegun() returns (w: World)
    ensures Reachable(w) && w == Overtaken(Installed(1), Stopped, NewRun)
  {
    w := StartLooked();
    w := Then(w, Begin);
  }

  lemma SecondPulling() returns (w: World)
    ensures Reachable(w) && w == Overtaken(Installed(1), Pulling, NewRun.(phase := Preparing))
  {
    w := SecondBegun();
    w := Then(w, SetPulling(1));
  }

  lemma SecondCancelled() returns (w: World)
    ensures Reachable(w) && w == Overtaken(Installed(1), Pulling, NewRun.(phase := Preparing, cancelled := true))
  {
    w := SecondPulling();
    w := Then(w, CancelContext(1));
  }

  lemma SecondChecking() returns (w: World)
    ensures Reachable(w) && w == Overtaken(Installed(1), Pulling, NewRun.(phase := Checking, cancelled := true))
  {
    w := SecondCancelled();
    w := Then(w, StepFails(1));
  }

  lemma SecondEnding() returns (w: World)
    ensures Reachable(w) && w == Overtaken(Installed(1), Pulling, NewRun.(phase := Ending, cancelled := true))
  {
    w := SecondChecking();
    w := Then(w, Check(1));
  }

  lemma SecondCleared() returns (w: World)
    ensures Reachable(w) && w == Overtaken(Idle, Pulling, NewRun.(phase := Cleared, cancelled := true))
  {
    w := SecondEnding();
    w := Then(w, Clear(1));
  }

  /** A run cancelled in time, which reports nothing, settles Failed after another Start's failed credential refresh. */
  lemma CancelledBesideFailingStart() returns (w: World)
    ensures Reachable(w)
    ensures |w.runs| == 2 && CancelledInTime(w, 1) && w.runs[1].settledAs == Some(Failed)
  {
    w := SecondCleared();
    w := Then(w, StartFails(0));
    assert w == World(System, Idle, Failed, ModelFailure, [Over, NewRun.(phase := Cleared, cancelled := true)], [],
                      [StartCall(Stopped, false)]);
    w := Then(w, Settle(1));
  }

  /** A first docker run that failed to materialise, saw a live context, and is about to report. */
  lemma FirstReporting() returns (w: World)
    ensures Reachable(w) && w == Alone(Docker, Installed(0), Pulling, NoFailure, NewRun.(phase := Reporting))
  {
    w := FirstPreparing(Docker);
    w := Then(w, StepFails(0));
    assert w == Alone(Docker, Installed(0), Pulling, NoFailure, NewRun.(phase := Checking));
    w := Then(w, Check(0));
  }

  lemma ReportedTooLate() returns (w: World)
    ensures Reachable(w)
    ensures w == Alone(Docker, Installed(0), Failed, PullFailure, NewRun.(phase := Ending, cancelled := true, reported := true))
  {
    w := FirstReporting();
    w := Then(w, CancelContext(0));
    assert w == Alone(Docker, Installed(0), Pulling, NoFailure, NewRun.(phase := Reporting, cancelled := true));
    w := Then(w, Report(0, PullFailure));
  }

  /** Cancelling after the failure check is too late: the run still records its failure and settles Failed. */
  lemma CancelledAfterCheckFails() returns (w: World)
    ensures Reachable(w) && w.status == Failed
    ensures |w.runs| == 1 && w.runs[0].cancelled && w.runs[0].settledAs == Some(Failed)
  {
    w := ReportedTooLate();
    w := Then(w, Clear(0));
    assert w == Alone(Docker, Idle, Failed, PullFailure, NewRun.(phase := Cleared, cancelled := true, reported := true));
    w := Then(w, Settle(0));
  }

  // ---------------------------------------------------------------------------------------
  // Exactly when an in-flight run can be shown as Stopped
  // ---------------------------------------------------------------------------------------

  ghost predicate SettlePending(w: World) {
    exists j :: 0 <= j < |w.runs| && w.runs[j].phase == Cleared
  }

  /** Run i is inside the handshake (past its Pulling, unless early) and the status nevertheless reads Stopped. */
  predicate ShownStopped(w: World, i: nat, early: bool) {
    i < |w.runs| && InHandshake(w.runs[i].phase) && (early || w.runs[i].phase != Began) && w.status == Stopped
  }

  ghost predicate NeverShown(w: World, i: nat, early: bool) {
    && i < |w.runs|
    && (InHandshake(w.runs[i].phase) ==>
          !SettlePending(w) && (early || w.runs[i].phase != Began ==> w.status != Stopped))
  }

  lemma NeverShownRunStep(w: World, a: Action, i: nat, early: bool)
    requires Inv(w) && Enabled(w, a) && NeverShown(w, i, early) && RunOf(a).Some?
    ensures NeverShown(Do(w, a), i, early)
  {
    var j := RunOf(a).value;
    RunStepLocal(w, a, j);
    RunStepKeeps(w.backend, w.status, w.runs[j], a);
    assert forall m :: 0 <= m < |w.runs| && m != j ==> Do(w, a).runs[m] == w.runs[m];
    if InHandshake(Do(w, a).runs[i].phase) {
      assert w.runs[j].phase != Cleared;
      if InHandshake(w.runs[j].phase) { assert w.h.ran == Some(j); }
    }
  }

  lemma NeverShownCallerStep(w: World, a: Action, i: nat, early: bool)
    requires Inv(w) && Enabled(w, a) && NeverShown(w, i, early) && RunOf(a).None? && Quiet(w, a)
    ensures NeverShown(Do(w, a), i, early)
  {
    assert forall m :: 0 <= m < |w.runs| ==> Do(w, a).runs[m].phase == w.runs[m].phase;
  }

  lemma {:induction false} NeverShownKeeps(w: World, acts: seq<Action>, i: nat, early: bool)
    requires Inv(w) && NeverShown(w, i, early)
    requires Perform(w, acts).Some? && Throughout(w, acts, Quiet)
    ensures NeverShown(Perform(w, acts).value, i, early)
    decreases |acts|
  {
    if acts != [] {
      DoKeeps(w, acts[0]);
      if RunOf(acts[0]).Some? { NeverShownRunStep(w, acts[0], i, early); } else { NeverShownCallerStep(w, acts[0], i, early); }
      NeverShownKeeps(Do(w, acts[0]), acts[1..], i, early);
    }
  }

  /** Some stretch without a new run or a supervisor's write ends with run i shown as Stopped. */
  ghost predicate CanBeShownStopped(w: World, i: nat, early: bool) {
    exists acts :: Perform(w, acts).Some? && Throughout(w, acts, Quiet) && ShownStopped(Perform(w, acts).value, i, early)
  }

  lemma SettleShows(w: World, i: nat, j: nat, early: bool)
    requires At(w, i, Preparing) && At(w, j, Cleared) && w.status == Pulling
    ensures Enabled(w, Settle(j)) && ShownStopped(Do(w, Settle(j)), i, early)
  {
  }

  lemma TwoSteps(w: World, a: Action, b: Action)
    requires Enabled(w, a) && Quiet(w, a) && Enabled(Do(w, a), b) && Quiet(Do(w, a), b)
    ensures Perform(w, [a, b]) == Some(Do(Do(w, a), b))
    ensures Throughout(w, [a, b], Quiet)
  {
    var w1, w2 := Do(w, a), Do(Do(w, a), b);
    assert [a, b][1..] == [b] && [b][1..] == [];
    assert Perform(w2, []) == Some(w2) && Throughout(w2, [], Quiet);
    assert Perform(w1, [b]) == Some(w2) && Throughout(w1, [b], Quiet);
  }

  lemma PendingShows(w: World, i: nat, j: nat, early: bool)
    requires At(w, i, Began) && At(w, j, Cleared)
    ensures CanBeShownStopped(w, i, early)
  {
    var w1 := Do(w, SetPulling(i));
    assert At(w1, i, Preparing) && At(w1, j, Cleared) && w1.status == Pulling;
    SettleShows(w1, i, j, early);
    TwoSteps(w, SetPulling(i), Settle(j));
  }

  lemma ShownAlready(w: World, i: nat)
    requires ShownStopped(w, i, true)
    ensures CanBeShownStopped(w, i, true)
  {
    assert Perform(w, []) == Some(w) && Throughout(w, [], Quiet);
  }

  lemma CannotBeShown(w: World, i: nat, early: bool)
    requires Inv(w) && At(w, i, Began) && !SettlePending(w) && (early ==> w.status != Stopped)
    ensures !CanBeShownStopped(w, i, early)
  {
    forall acts | Perform(w, acts).Some? && Throughout(w, acts, Quiet)
      ensures !ShownStopped(Perform(w, acts).value, i, early)
    {
      NeverShownKeeps(w, acts, i, early);
    }
  }

  /**
   With no later run and no supervisor's write, a run that has just begun can be shown as Stopped
   after its Pulling and before its end exactly when some earlier run has cleared the handshake and
   not yet settled. Counting also the moment between its beginRun and its Pulling, exactly then or
   when the status still reads Stopped from before.
   */
  lemma StoppedInFlightExactly(w: World, i: nat)
    requires Reachable(w) && At(w, i, Began)
    ensures CanBeShownStopped(w, i, false) <==> SettlePending(w)
    ensures CanBeShownStopped(w, i, true) <==> SettlePending(w) || w.status == Stopped
  {
    ReachableInv(w);
    if SettlePending(w) {
      var j :| 0 <= j < |w.runs| && w.runs[j].phase == Cleared;
      PendingShows(w, i, j, false);
      PendingShows(w, i, j, true);
    } else {
      CannotBeShown(w, i, false);
      if w.status == Stopped { ShownAlready(w, i); } else { CannotBeShown(w, i, true); }
    }
  }
}
