/**
 What subscribers of the status tracker observe, over every interleaving of tracker calls and
 channel receives. Each subscription carries a history: the transitions recorded since it was
 made, which of them did not get into its channel, and what its reader has received.
 */
module StatusHistory {
  import opened Prelude
  import opened StatusTracking

  datatype Action =
    | Set(s: Status)
    | SetFailure(reason: FailureReason)
    | SetUnless(s: Status, guard: seq<Status>)
    | Subscribe
    | Cancel(n: nat)
    | Receive(n: nat)

  /** lost[k]: the k-th transition found the buffer full (or the subscription already cancelled). */
  datatype History = History(since: seq<Status>, received: seq<Status>, lost: seq<bool>)

  datatype World = World(t: Tracker, hist: seq<History>)

  const NewWorld := World(NewTracker, [])

  function Act(t: Tracker, a: Action): Tracker {
    match a
    case Set(s) => Record(t, s, NoFailure)
    case SetFailure(reason) => Record(t, Failed, reason)
    case SetUnless(s, guard) => if t.status in guard then t else Record(t, s, NoFailure)
    case Subscribe => Subscribed(t)
    case Cancel(n) => Cancelled(t, n)
    case Receive(n) => Received(t, n)
  }

  /** The status an action records, if any. */
  function Transition(t: Tracker, a: Action): Option<Status> {
    match a
    case Set(s) => Some(s)
    case SetFailure(_) => Some(Failed)
    case SetUnless(s, guard) => if t.status in guard then None else Some(s)
    case _ => None
  }

  function Observe(h: History, ch: Channel, s: Status): History {
    h.(since := h.since + [s], lost := h.lost + [ch.closed || |ch.buffer| == ChanSize])
  }

  function Remember(w: World, a: Action): seq<History>
    requires |w.hist| == |w.t.chans|
  {
    var tr := Transition(w.t, a);
    if tr.Some? then
      seq(|w.hist|, i requires 0 <= i < |w.hist| => Observe(w.hist[i], w.t.chans[i], tr.value))
    else if a.Subscribe? then w.hist + [History([], [], [])]
    else if a.Receive? && a.n < |w.hist| && w.t.chans[a.n].buffer != [] then
      w.hist[a.n := w.hist[a.n].(received := w.hist[a.n].received + [w.t.chans[a.n].buffer[0]])]
    else w.hist
  }

  function Step(w: World, a: Action): (w': World)
    requires |w.hist| == |w.t.chans|
    ensures |w'.hist| == |w'.t.chans|
  {
    World(Act(w.t, a), Remember(w, a))
  }

  function Run(acts: seq<Action>): (w: World)
    ensures |w.hist| == |w.t.chans|
  {
    if acts == [] then NewWorld else Step(Run(acts[..|acts| - 1]), acts[|acts| - 1])
  }

  /** a is obtained from b by deleting entries. */
  ghost predicate Subsequence(a: seq<Status>, b: seq<Status>)
    decreases |b|
  {
    if a == [] then true
    else if b == [] then false
    else if a[|a| - 1] == b[|b| - 1] && Subsequence(a[..|a| - 1], b[..|b| - 1]) then true
    else Subsequence(a, b[..|b| - 1])
  }

  lemma SubsequenceGrow(a: seq<Status>, b: seq<Status>, s: Status)
    requires Subsequence(a, b)
    ensures Subsequence(a, b + [s]) && Subsequence(a + [s], b + [s])
  {
    assert (b + [s])[..|b|] == b;
    assert (a + [s])[..|a|] == a;
  }

  /** The transitions that were not lost, in order. */
  function Kept(since: seq<Status>, lost: seq<bool>): seq<Status>
    requires |lost| == |since|
  {
    if since == [] then []
    else
      var n := |since| - 1;
      Kept(since[..n], lost[..n]) + (if lost[n] then [] else [since[n]])
  }

  lemma KeptSnoc(since: seq<Status>, lost: seq<bool>, s: Status, gone: bool)
    requires |lost| == |since|
    ensures Kept(since + [s], lost + [gone]) == Kept(since, lost) + (if gone then [] else [s])
  {
    assert (since + [s])[..|since|] == since && (lost + [gone])[..|since|] == lost;
  }

  /** Losing entries leaves a subsequence, and losing none leaves everything. */
  lemma {:induction false} KeptIsSubsequence(since: seq<Status>, lost: seq<bool>)
    requires |lost| == |since|
    ensures Subsequence(Kept(since, lost), since)
    ensures true !in lost ==> Kept(since, lost) == since
    decreases |since|
  {
    if since != [] {
      var n := |since| - 1;
      KeptIsSubsequence(since[..n], lost[..n]);
      assert since == since[..n] + [since[n]];
      SubsequenceGrow(Kept(since[..n], lost[..n]), since[..n], since[n]);
      assert Kept(since[..n], lost[..n]) + [] == Kept(since[..n], lost[..n]);
    }
  }

  /** What is kept is exactly what some transition left there. */
  lemma {:induction false} KeptMembers(since: seq<Status>, lost: seq<bool>, s: Status)
    requires |lost| == |since|
    ensures s in Kept(since, lost) <==> exists k :: 0 <= k < |since| && since[k] == s && !lost[k]
    decreases |since|
  {
    if since != [] {
      var n := |since| - 1;
      var init, gone := since[..n], lost[..n];
      KeptMembers(init, gone, s);
      if k :| 0 <= k < n && init[k] == s && !gone[k] { assert since[k] == s && !lost[k]; }
      if k :| 0 <= k < |since| && since[k] == s && !lost[k] {
        if k < n { assert init[k] == s && !gone[k]; }
      }
    }
  }

  // ---------------------------------------------------------------------------------------
  // The invariant of one subscription
  // ---------------------------------------------------------------------------------------

  /** Received plus still buffered. */
  function Delivered(ch: Channel, h: History): seq<Status> {
    h.received + ch.buffer
  }

  ghost predicate Faithful(ch: Channel, h: History) {
    && |ch.buffer| <= ChanSize
    && |h.lost| == |h.since|
    && Delivered(ch, h) == Kept(h.since, h.lost)
  }

  lemma FaithfulOffer(ch: Channel, h: History, s: Status)
    requires Faithful(ch, h) && !ch.closed
    ensures Faithful(Offer(ch, s), Observe(h, ch, s))
  {
    KeptSnoc(h.since, h.lost, s, |ch.buffer| == ChanSize);
    assert h.received + (ch.buffer + [s]) == (h.received + ch.buffer) + [s];
  }

  lemma FaithfulSkip(ch: Channel, h: History, s: Status)
    requires Faithful(ch, h) && ch.closed
    ensures Faithful(ch, Observe(h, ch, s))
  {
    KeptSnoc(h.since, h.lost, s, true);
  }

  lemma FaithfulReceive(ch: Channel, h: History)
    requires Faithful(ch, h) && ch.buffer != []
    ensures Faithful(ch.(buffer := ch.buffer[1..]), h.(received := h.received + [ch.buffer[0]]))
  {
    assert (h.received + [ch.buffer[0]]) + ch.buffer[1..] == h.received + ch.buffer;
  }

  /** Live ids are exactly the open channels, as long as fewer than 2^64 subscriptions were made. */
  ghost predicate LiveIsOpen(t: Tracker) {
    && t.nextID == |t.chans| % IdSpace
    && (forall id :: id in t.subs ==> t.subs[id] == id < |t.chans| && !t.chans[id].closed)
    && (forall n :: 0 <= n < |t.chans| && !t.chans[n].closed ==> n in t.subs)
  }

  ghost predicate Inv(w: World) {
    && |w.hist| == |w.t.chans|
    && (w.t.failure != NoFailure ==> w.t.status == Failed)
    && LiveIsOpen(w.t)
    && (forall n :: 0 <= n < |w.hist| ==> Faithful(w.t.chans[n], w.hist[n]))
    && (forall n :: 0 <= n < |w.hist| && w.hist[n].since != [] ==> w.hist[n].since[|w.hist[n].since| - 1] == w.t.status)
  }

  lemma LiveValues(t: Tracker, n: nat)
    requires LiveIsOpen(t) && n < |t.chans|
    ensures n in t.subs.Values <==> !t.chans[n].closed
  {
    if !t.chans[n].closed { assert t.subs[n] == n; }
  }

  lemma RecordKeeps(w: World, a: Action)
    requires Inv(w) && Transition(w.t, a).Some?
    ensures Inv(Step(w, a))
  {
    var w' := Step(w, a);
    var s := Transition(w.t, a).value;
    forall n | 0 <= n < |w'.hist|
      ensures w'.t.chans[n].closed == w.t.chans[n].closed && Faithful(w'.t.chans[n], w'.hist[n])
    {
      LiveValues(w.t, n);
      if w.t.chans[n].closed {
        FaithfulSkip(w.t.chans[n], w.hist[n], s);
      } else {
        FaithfulOffer(w.t.chans[n], w.hist[n], s);
      }
    }
  }

  lemma SubscribeLive(t: Tracker)
    requires LiveIsOpen(t) && |t.chans| < IdSpace
    ensures LiveIsOpen(Subscribed(t))
  {
    NextId(|t.chans|);
    var t' := Subscribed(t);
    assert t'.subs == t.subs[|t.chans| := |t.chans|];
    assert forall n :: 0 <= n < |t.chans| ==> t'.chans[n] == t.chans[n];
  }

  lemma SubscribeKeeps(w: World)
    requires Inv(w) && |w.t.chans| < IdSpace
    ensures Inv(Step(w, Subscribe))
  {
    NextId(|w.t.chans|);
    SubscribeLive(w.t);
    var w' := Step(w, Subscribe);
    assert w'.hist == w.hist + [History([], [], [])];
    assert w'.t.chans == w.t.chans + [Channel([], false)];
  }

  lemma CancelLive(t: Tracker, n: nat)
    requires LiveIsOpen(t) && n < |t.chans| <= IdSpace && !t.chans[n].closed
    ensures LiveIsOpen(Cancelled(t, n))
  {
    var t' := Cancelled(t, n);
    assert t'.subs == t.subs - {n};
    assert forall m :: 0 <= m < |t.chans| && m != n ==> t'.chans[m] == t.chans[m];
  }

  lemma CancelKeeps(w: World, n: nat)
    requires Inv(w) && |w.t.chans| <= IdSpace
    ensures Inv(Step(w, Cancel(n)))
  {
    if n < |w.t.chans| && !w.t.chans[n].closed {
      CancelLive(w.t, n);
      var w' := Step(w, Cancel(n));
      assert Faithful(w'.t.chans[n], w.hist[n]);
    }
  }

  lemma ReceiveLive(t: Tracker, n: nat)
    requires LiveIsOpen(t) && n < |t.chans| && t.chans[n].buffer != []
    ensures LiveIsOpen(Received(t, n))
  {
    var t' := Received(t, n);
    assert forall m :: 0 <= m < |t.chans| ==> t'.chans[m].closed == t.chans[m].closed;
  }

  lemma ReceiveKeeps(w: World, n: nat)
    requires Inv(w)
    ensures Inv(Step(w, Receive(n)))
  {
    if n < |w.t.chans| && w.t.chans[n].buffer != [] {
      FaithfulReceive(w.t.chans[n], w.hist[n]);
      ReceiveLive(w.t, n);
      var w' := Step(w, Receive(n));
      assert Faithful(w'.t.chans[n], w'.hist[n]);
      assert forall m :: 0 <= m < |w.hist| && m != n ==> w'.t.chans[m] == w.t.chans[m] && w'.hist[m] == w.hist[m];
    }
  }

  lemma StepKeeps(w: World, a: Action)
    requires Inv(w)
    requires |w.t.chans| <= IdSpace && (a.Subscribe? ==> |w.t.chans| < IdSpace)
    ensures Inv(Step(w, a))
  {
    match a
    case Subscribe => SubscribeKeeps(w);
    case Cancel(n) => CancelKeeps(w, n);
    case Receive(n) => ReceiveKeeps(w, n);
    case _ => if Transition(w.t, a).Some? { RecordKeeps(w, a); }
  }

  lemma ChannelsNeverShrink(w: World, a: Action)
    requires |w.hist| == |w.t.chans|
    ensures |Step(w, a).t.chans| == |w.t.chans| + if a.Subscribe? then 1 else 0
  {
  }

  lemma {:induction false} RunKeeps(acts: seq<Action>)
    requires |Run(acts).t.chans| <= IdSpace
    ensures Inv(Run(acts))
  {
    if acts != [] {
      var init, last := acts[..|acts| - 1], acts[|acts| - 1];
      ChannelsNeverShrink(Run(init), last);
      RunKeeps(init);
      StepKeeps(Run(init), last);
    }
  }

  /**
   MAIN THEOREM. After any sequence of sets, subscribes, receives and cancels (fewer than 2^64
   subscriptions): a failure reason is only ever set on a Failed agent; no live subscription has a
   closed channel, so no send meets one; every open channel is live, under an id of its own; and each
   subscriber has been delivered exactly the transitions since it subscribed that were not lost, in
   order: a subsequence of them, and all of them if its buffer was never full when one happened.
   */
  lemma TrackerSafe(acts: seq<Action>)
    requires |Run(acts).t.chans| <= IdSpace
    ensures var t := Run(acts).t;
            && (t.failure != NoFailure ==> t.status == Failed)
            && (forall id :: id in t.subs ==> t.subs[id] < |t.chans| && !t.chans[t.subs[id]].closed)
            && (forall id, id' :: id in t.subs && id' in t.subs && id != id' ==> t.subs[id] != t.subs[id'])
            && (forall n :: 0 <= n < |t.chans| && !t.chans[n].closed ==> exists id :: id in t.subs && t.subs[id] == n)
    ensures forall n :: 0 <= n < |Run(acts).t.chans| ==>
              var (ch, h) := (Run(acts).t.chans[n], Run(acts).hist[n]);
              && |h.lost| == |h.since|
              && Delivered(ch, h) == Kept(h.since, h.lost)
              && Subsequence(Delivered(ch, h), h.since)
              && (true !in h.lost ==> Delivered(ch, h) == h.since)
  {
    RunKeeps(acts);
    var t := Run(acts).t;
    forall n | 0 <= n < |t.chans| && !t.chans[n].closed ensures n in t.subs && t.subs[n] == n {}
    forall n | 0 <= n < |t.chans|
      ensures Faithful(t.chans[n], Run(acts).hist[n])
      ensures Subsequence(Delivered(t.chans[n], Run(acts).hist[n]), Run(acts).hist[n].since)
      ensures true !in Run(acts).hist[n].lost ==> Delivered(t.chans[n], Run(acts).hist[n]) == Run(acts).hist[n].since
    {
      KeptIsSubsequence(Run(acts).hist[n].since, Run(acts).hist[n].lost);
    }
  }

  /** A transition is lost to a subscription exactly if it was cancelled or sixteen entries were unread. */
  lemma LostExactly(w: World, a: Action, n: nat)
    requires Inv(w) && n < |w.t.chans| && Transition(w.t, a).Some?
    ensures Step(w, a).hist[n].lost == w.hist[n].lost + [w.t.chans[n].closed || |w.t.chans[n].buffer| >= 16]
  {
    if !w.t.chans[n].closed { assert Faithful(w.t.chans[n], w.hist[n]); }
  }

  /** For the first 2^64 subscriptions the id is the number of those before, hence new. */
  lemma FreshId(t: Tracker)
    requires WellIndexed(t) && |t.chans| < 0x1_0000_0000_0000_0000
    ensures |t.chans| !in t.subs && Subscribed(t).subs == t.subs[|t.chans| := |t.chans|]
  {
    assert t.nextID == |t.chans|;
  }
}
