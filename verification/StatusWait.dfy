/**
 WaitForStatus (executor/status.go): subscribe, look at the current status once, then receive
 until a target shows up. The caller's steps interleave with arbitrary tracker calls by others.
 */
module StatusWait {
  import opened Prelude
  import opened StatusTracking
  import opened StatusHistory

  /** Where the caller is. n is its subscription; start the status when it subscribed. */
  datatype Phase =
    | NotCalled
    | Subscribing(n: nat, start: Status)
    | Waiting(n: nat, start: Status)
    | Returned(n: nat, start: Status, s: Status)
    | ContextDone
    | SawClosed

  datatype Call = Call(w: World, phase: Phase)

  datatype Event =
    | Other(a: Action)     // any tracker call or receive by anybody else
    | Begin                // ch, cancel := SubscribeStatus()
    | Check                // the one look at Status()
    | Take                 // a receive on ch
    | GiveUp               // ctx.Done()

  /** Others cannot receive from, or cancel, a subscription they do not hold. */
  predicate Allowed(c: Call, e: Event) {
    match e
    case Other(a) => !((a.Receive? || a.Cancel?) && c.phase.Waiting? && a.n == c.phase.n)
                     && !((a.Receive? || a.Cancel?) && c.phase.Subscribing? && a.n == c.phase.n)
    case Begin => c.phase.NotCalled?
    case Check => c.phase.Subscribing?
    case Take => c.phase.Waiting? && c.phase.n < |c.w.t.chans|
                 && (c.w.t.chans[c.phase.n].buffer != [] || c.w.t.chans[c.phase.n].closed)
    case GiveUp => c.phase.Waiting?
  }

  function Next(c: Call, targets: set<Status>, e: Event): (c': Call)
    requires |c.w.hist| == |c.w.t.chans| && Allowed(c, e)
    ensures |c'.w.hist| == |c'.w.t.chans|
  {
    match e
    case Other(a) => Call(Step(c.w, a), c.phase)
    case Begin => Call(Step(c.w, Subscribe), Subscribing(|c.w.t.chans|, c.w.t.status))
    case Check =>
      var n, start := c.phase.n, c.phase.start;
      Call(c.w, if c.w.t.status in targets then Returned(n, start, c.w.t.status) else Waiting(n, start))
    case Take =>
      var n, start := c.phase.n, c.phase.start;
      var buffer := c.w.t.chans[n].buffer;
      if buffer == [] then Call(c.w, SawClosed)
      else Call(Step(c.w, Receive(n)), if buffer[0] in targets then Returned(n, start, buffer[0]) else c.phase)
    case GiveUp => Call(c.w, ContextDone)
  }

  /** A run of the call: each event was possible when it happened. */
  ghost predicate Possible(c: Call, targets: set<Status>, events: seq<Event>)
    requires |c.w.hist| == |c.w.t.chans|
    decreases |events|, 0
  {
    events == [] ||
    (Possible(c, targets, events[..|events| - 1]) &&
     Allowed(After(c, targets, events[..|events| - 1]), events[|events| - 1]))
  }

  ghost function After(c: Call, targets: set<Status>, events: seq<Event>): (c': Call)
    requires |c.w.hist| == |c.w.t.chans| && Possible(c, targets, events)
    ensures |c'.w.hist| == |c'.w.t.chans|
    decreases |events|, 1
  {
    if events == [] then c else Next(After(c, targets, events[..|events| - 1]), targets, events[|events| - 1])
  }

  /** The waiting caller's channel is open and what it received so far contains no target. */
  ghost predicate CallInv(c: Call, targets: set<Status>) {
    && Inv(c.w)
    && match c.phase
       case NotCalled => true
       case Subscribing(n, start) =>
         && n < |c.w.t.chans| && !c.w.t.chans[n].closed
         && c.w.hist[n].received == []
         && (c.w.hist[n].since == [] ==> c.w.t.status == start)
       case Waiting(n, start) =>
         && n < |c.w.t.chans| && !c.w.t.chans[n].closed
         && (forall s :: s in c.w.hist[n].received ==> s !in targets)
         && (c.w.hist[n].since == [] ==> c.w.t.status == start && start !in targets)
       case Returned(n, start, s) =>
         && n < |c.w.t.chans|
         && s in targets
         && (s == start || s in c.w.hist[n].since)
       case ContextDone => true
       case SawClosed => false
  }

  /** What somebody else's step does to a subscription: at most one transition is added to its history. */
  lemma OthersStep(w: World, a: Action, n: nat)
    requires Inv(w) && n < |w.t.chans|
    ensures var w' := Step(w, a);
            && n < |w'.t.chans|
            && ((a.Cancel? && a.n == n) || w'.t.chans[n].closed == w.t.chans[n].closed)
            && ((a.Receive? && a.n == n) || w'.hist[n].received == w.hist[n].received)
            && w'.hist[n].since == w.hist[n].since + (if Transition(w.t, a).Some? then [w'.t.status] else [])
            && (Transition(w.t, a).None? ==> w'.t.status == w.t.status)
  {
    if Transition(w.t, a).Some? { OthersTransition(w, a, n); } else { OthersCall(w, a, n); }
  }

  lemma OthersTransition(w: World, a: Action, n: nat)
    requires |w.hist| == |w.t.chans| && n < |w.hist| && Transition(w.t, a).Some?
    ensures var w' := Step(w, a);
            && |w'.hist| == |w.hist|
            && w'.t.chans[n].closed == w.t.chans[n].closed
            && w'.hist[n].received == w.hist[n].received
            && w'.hist[n].since == w.hist[n].since + [w'.t.status]
  {
  }

  lemma OthersCall(w: World, a: Action, n: nat)
    requires |w.hist| == |w.t.chans| && n < |w.hist| && Transition(w.t, a).None?
    ensures var w' := Step(w, a);
            && |w'.hist| >= |w.hist|
            && w'.t.status == w.t.status
            && ((a.Cancel? && a.n == n) || w'.t.chans[n].closed == w.t.chans[n].closed)
            && ((a.Receive? && a.n == n) || w'.hist[n].received == w.hist[n].received)
            && w'.hist[n].since == w.hist[n].since + []
  {
    assert Step(w, a).hist[n].since == w.hist[n].since;
  }

  lemma OtherKeeps(c: Call, targets: set<Status>, a: Action)
    requires CallInv(c, targets) && Allowed(c, Other(a))
    requires |c.w.t.chans| <= IdSpace && (a.Subscribe? ==> |c.w.t.chans| < IdSpace)
    ensures CallInv(Next(c, targets, Other(a)), targets)
  {
    StepKeeps(c.w, a);
    if c.phase.Subscribing? || c.phase.Waiting? || c.phase.Returned? { OthersStep(c.w, a, c.phase.n); }
  }

  lemma HeadWasRecorded(ch: Channel, h: History)
    requires Faithful(ch, h) && ch.buffer != []
    ensures ch.buffer[0] in h.since
  {
    assert Delivered(ch, h)[|h.received|] == ch.buffer[0];
    KeptMembers(h.since, h.lost, ch.buffer[0]);
  }

  lemma TakeKeeps(c: Call, targets: set<Status>)
    requires CallInv(c, targets) && Allowed(c, Take)
    ensures CallInv(Next(c, targets, Take), targets)
  {
    var n := c.phase.n;
    var ch, h := c.w.t.chans[n], c.w.hist[n];
    ReceiveKeeps(c.w, n);
    HeadWasRecorded(ch, h);
  }

  lemma CheckKeeps(c: Call, targets: set<Status>)
    requires CallInv(c, targets) && Allowed(c, Check)
    ensures CallInv(Next(c, targets, Check), targets)
  {
    var h := c.w.hist[c.phase.n];
    if h.since != [] { assert h.since[|h.since| - 1] == c.w.t.status; }
  }

  lemma {:induction false} CallKeeps(c0: Call, targets: set<Status>, events: seq<Event>)
    requires CallInv(c0, targets) && Possible(c0, targets, events)
    requires |After(c0, targets, events).w.t.chans| <= IdSpace
    ensures CallInv(After(c0, targets, events), targets)
  {
    if events != [] {
      var init, e := events[..|events| - 1], events[|events| - 1];
      var c := After(c0, targets, init);
      match e
      case Other(a) => ChannelsNeverShrink(c.w, a); CallKeeps(c0, targets, init); OtherKeeps(c, targets, a);
      case Begin => ChannelsNeverShrink(c.w, Subscribe); CallKeeps(c0, targets, init); SubscribeKeeps(c.w);
      case Check => CallKeeps(c0, targets, init); CheckKeeps(c, targets);
      case Take => CallKeeps(c0, targets, init); TakeKeeps(c, targets);
      case GiveUp => CallKeeps(c0, targets, init);
    }
  }

  /** Some transition since subscribing was to a target. */
  ghost predicate Reached(h: History, targets: set<Status>) {
    exists k :: 0 <= k < |h.since| && h.since[k] in targets
  }

  /** Some transition to a target never got into the channel. */
  ghost predicate TargetLost(h: History, targets: set<Status>)
    requires |h.lost| == |h.since|
  {
    exists k :: 0 <= k < |h.since| && h.since[k] in targets && h.lost[k]
  }

  predicate LastLost(h: History)
    requires |h.lost| == |h.since|
  {
    h.since != [] && h.lost[|h.lost| - 1]
  }

  /** A waiting caller has a target still to receive, or has lost one, or there was none. */
  lemma BlockedHistory(c: Call, targets: set<Status>)
    requires CallInv(c, targets) && c.phase.Waiting? && c.w.t.chans[c.phase.n].buffer == []
    ensures var h := c.w.hist[c.phase.n];
            && |h.lost| == |h.since|
            && (Reached(h, targets) <==> TargetLost(h, targets))
            && (c.w.t.status in targets <==> LastLost(h) && h.since[|h.since| - 1] in targets)
  {
    var ch, h := c.w.t.chans[c.phase.n], c.w.hist[c.phase.n];
    assert Delivered(ch, h) == h.received;
    forall k | 0 <= k < |h.since| && h.since[k] in targets ensures h.lost[k] {
      KeptMembers(h.since, h.lost, h.since[k]);
    }
    if h.since != [] { assert h.since[|h.since| - 1] == c.w.t.status; }
  }

  /** Blocked: waiting on an empty channel. */
  predicate Blocked(c: Call) {
    c.phase.Waiting? && c.phase.n < |c.w.t.chans| && c.w.t.chans[c.phase.n].buffer == []
  }

  /**
   MAIN THEOREM. In every interleaving, a caller blocked on an empty channel has missed a target if
   and only if a transition to a target was lost to a full buffer; and the status it is blocked on
   is a target if and only if the latest transition was to a target and was lost. Whatever a call
   returns is a target the agent really held during the call, and none reports a closed subscription.
   */
  lemma MissedExactly(targets: set<Status>, events: seq<Event>)
    requires Possible(Call(NewWorld, NotCalled), targets, events)
    requires |After(Call(NewWorld, NotCalled), targets, events).w.t.chans| <= IdSpace
    ensures var c := After(Call(NewWorld, NotCalled), targets, events);
            && !c.phase.SawClosed?
            && (c.phase.Waiting? ==> c.phase.n < |c.w.t.chans| && !c.w.t.chans[c.phase.n].closed)
            && (c.phase.Returned? ==> c.phase.n < |c.w.t.chans| && c.phase.s in targets &&
                                      (c.phase.s == c.phase.start || c.phase.s in c.w.hist[c.phase.n].since))
            && (Blocked(c) ==>
                  var h := c.w.hist[c.phase.n];
                  && |h.lost| == |h.since|
                  && (Reached(h, targets) <==> TargetLost(h, targets))
                  && (c.w.t.status in targets <==> LastLost(h) && h.since[|h.since| - 1] in targets))
  {
    CallKeeps(Call(NewWorld, NotCalled), targets, events);
    var c := After(Call(NewWorld, NotCalled), targets, events);
    if Blocked(c) { BlockedHistory(c, targets); }
  }

  /** No lost wake-up: in particular a blocked caller whose channel lost no target has missed none. */
  lemma NoLostWakeup(targets: set<Status>, events: seq<Event>)
    requires Possible(Call(NewWorld, NotCalled), targets, events)
    requires |After(Call(NewWorld, NotCalled), targets, events).w.t.chans| <= IdSpace
    requires Blocked(After(Call(NewWorld, NotCalled), targets, events))
    ensures var c := After(Call(NewWorld, NotCalled), targets, events);
            var h := c.w.hist[c.phase.n];
            |h.lost| == |h.since| &&
            (!TargetLost(h, targets) ==> c.w.t.status !in targets && forall s :: s in h.since ==> s !in targets)
  {
    MissedExactly(targets, events);
    var c := After(Call(NewWorld, NotCalled), targets, events);
    var h := c.w.hist[c.phase.n];
    if !TargetLost(h, targets) {
      forall s | s in h.since ensures s !in targets {
        var k :| 0 <= k < |h.since| && h.since[k] == s;
        assert !Reached(h, targets);
      }
    }
  }

  // ---------------------------------------------------------------------------------------
  // A target can be lost
  // ---------------------------------------------------------------------------------------

  function Repeat<T>(x: T, n: nat): (r: seq<T>)
    ensures |r| == n
  {
    seq(n, _ => x)
  }

  /** A world with one open subscriber, in state (buffer, history). */
  function Solo(s: Status, buffer: seq<Status>, since: seq<Status>, received: seq<Status>, lost: seq<bool>): World {
    World(Tracker(s, NoFailure, 1, map[0 := 0], [Channel(buffer, false)]), [History(since, received, lost)])
  }

  lemma SoloSet(s: Status, b: seq<Status>, since: seq<Status>, r: seq<Status>, o: seq<bool>, s': Status)
    requires s' != Failed
    ensures Step(Solo(s, b, since, r, o), Set(s')) ==
            Solo(s', if |b| < ChanSize then b + [s'] else b, since + [s'], r, o + [|b| == ChanSize])
  {
    var w := Solo(s, b, since, r, o);
    assert w.t.subs[0] == 0;
    assert 0 in w.t.subs.Values;
    var w' := Step(w, Set(s'));
    assert w'.t.chans == [Offer(Channel(b, false), s')];
    assert w'.hist == [Observe(w.hist[0], w.t.chans[0], s')];
  }

  lemma SoloReceive(s: Status, b: seq<Status>, since: seq<Status>, r: seq<Status>, o: seq<bool>)
    requires b != []
    ensures Step(Solo(s, b, since, r, o), Receive(0)) == Solo(s, b[1..], since, r + [b[0]], o)
  {
  }

  lemma AfterSnoc(c: Call, targets: set<Status>, events: seq<Event>, e: Event)
    requires |c.w.hist| == |c.w.t.chans| && Possible(c, targets, events)
    requires Allowed(After(c, targets, events), e)
    ensures Possible(c, targets, events + [e])
    ensures After(c, targets, events + [e]) == Next(After(c, targets, events), targets, e)
  {
    assert (events + [e])[..|events|] == events;
  }

  function FillEvents(k: nat): seq<Event> {
    [Begin, Check] + Repeat(Other(Set(Ready)), k)
  }

  /** The waiting call after Ready has been recorded k times. */
  function Filled(k: nat): Call {
    Call(Solo(if k == 0 then Pulling else Ready, Repeat(Ready, k), Repeat(Ready, k), [], Repeat(false, k)), Waiting(0, Pulling))
  }

  lemma StartWaiting()
    ensures Possible(Call(NewWorld, NotCalled), {Stopped}, FillEvents(0))
    ensures After(Call(NewWorld, NotCalled), {Stopped}, FillEvents(0)) == Filled(0)
  {
    var c0 := Call(NewWorld, NotCalled);
    assert Possible(c0, {Stopped}, []);
    AfterSnoc(c0, {Stopped}, [], Begin);
    AfterSnoc(c0, {Stopped}, [Begin], Check);
    assert [] + [Begin] == [Begin];
    assert [Begin] + [Check] == FillEvents(0);
    assert Repeat(Ready, 0) == [] && Repeat(false, 0) == [];
  }

  /** A caller that waits can always give up. */
  lemma CallerGivesUp()
    ensures Possible(Call(NewWorld, NotCalled), {Stopped}, [Begin, Check, GiveUp])
    ensures After(Call(NewWorld, NotCalled), {Stopped}, [Begin, Check, GiveUp]).phase == ContextDone
  {
    StartWaiting();
    AfterSnoc(Call(NewWorld, NotCalled), {Stopped}, FillEvents(0), GiveUp);
    assert FillEvents(0) + [GiveUp] == [Begin, Check, GiveUp];
  }

  lemma FillOne(k: nat)
    requires k < ChanSize
    ensures Allowed(Filled(k), Other(Set(Ready)))
    ensures Next(Filled(k), {Stopped}, Other(Set(Ready))) == Filled(k + 1)
  {
    SoloSet(if k == 0 then Pulling else Ready, Repeat(Ready, k), Repeat(Ready, k), [], Repeat(false, k), Ready);
    assert Repeat(false, k) + [false] == Repeat(false, k + 1);
    assert Repeat(Ready, k) + [Ready] == Repeat(Ready, k + 1);
  }

  lemma {:induction false} FillBuffer(k: nat)
    requires k <= ChanSize
    ensures Possible(Call(NewWorld, NotCalled), {Stopped}, FillEvents(k))
    ensures After(Call(NewWorld, NotCalled), {Stopped}, FillEvents(k)) == Filled(k)
  {
    if k == 0 {
      StartWaiting();
    } else {
      FillBuffer(k - 1);
      FillOne(k - 1);
      AfterSnoc(Call(NewWorld, NotCalled), {Stopped}, FillEvents(k - 1), Other(Set(Ready)));
      assert FillEvents(k - 1) + [Other(Set(Ready))] == FillEvents(k);
    }
  }

  function OverflowEvents(k: nat): seq<Event> {
    FillEvents(ChanSize) + [Other(Set(Stopped))] + Repeat(Take, k)
  }

  /** The waiting call after the overflow, with k of the sixteen stale entries drained. */
  function Drained(k: nat): Call
    requires k <= ChanSize
  {
    Call(Solo(Stopped, Repeat(Ready, ChanSize - k), Repeat(Ready, ChanSize) + [Stopped], Repeat(Ready, k),
              Repeat(false, ChanSize) + [true]),
         Waiting(0, Pulling))
  }

  lemma DropStopped()
    ensures Possible(Call(NewWorld, NotCalled), {Stopped}, OverflowEvents(0))
    ensures After(Call(NewWorld, NotCalled), {Stopped}, OverflowEvents(0)) == Drained(0)
  {
    FillBuffer(ChanSize);
    var events := FillEvents(ChanSize);
    AfterSnoc(Call(NewWorld, NotCalled), {Stopped}, events, Other(Set(Stopped)));
    SoloSet(Ready, Repeat(Ready, ChanSize), Repeat(Ready, ChanSize), [], Repeat(false, ChanSize), Stopped);
    assert events + [Other(Set(Stopped))] == OverflowEvents(0);
    assert Repeat(Ready, 0) == [];
  }

  lemma DrainOne(k: nat)
    requires k < ChanSize
    ensures Allowed(Drained(k), Take)
    ensures Next(Drained(k), {Stopped}, Take) == Drained(k + 1)
  {
    var b := Repeat(Ready, ChanSize - k);
    SoloReceive(Stopped, b, Repeat(Ready, ChanSize) + [Stopped], Repeat(Ready, k), Repeat(false, ChanSize) + [true]);
    assert b[1..] == Repeat(Ready, ChanSize - k - 1);
    assert Repeat(Ready, k) + [b[0]] == Repeat(Ready, k + 1);
  }

  /** With the buffer full the transition to Stopped is dropped; k stale entries are then drained. */
  lemma {:induction false} DrainBuffer(k: nat)
    requires k <= ChanSize
    ensures Possible(Call(NewWorld, NotCalled), {Stopped}, OverflowEvents(k))
    ensures After(Call(NewWorld, NotCalled), {Stopped}, OverflowEvents(k)) == Drained(k)
  {
    if k == 0 {
      DropStopped();
    } else {
      DrainBuffer(k - 1);
      DrainOne(k - 1);
      AfterSnoc(Call(NewWorld, NotCalled), {Stopped}, OverflowEvents(k - 1), Take);
      assert OverflowEvents(k - 1) + [Take] == OverflowEvents(k);
    }
  }

  /** A caller that overflows can block forever on the very status it waits for. */
  lemma OverflowLosesWakeup()
    ensures && Possible(Call(NewWorld, NotCalled), {Stopped}, OverflowEvents(ChanSize))
            && var c := After(Call(NewWorld, NotCalled), {Stopped}, OverflowEvents(ChanSize));
               && c.phase == Waiting(0, Pulling)
               && c.w.t.status == Stopped
               && c.w.t.chans == [Channel([], false)]
  {
    DrainBuffer(ChanSize);
    assert Repeat(Ready, 0) == [];
  }
}
