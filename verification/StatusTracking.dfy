/**
 The lifecycle status broadcaster (executor/status.go). Every tracker call is one critical section,
 hence one atomic step; a run is any sequence of calls and channel receives by any number of
 goroutines. Channels hold sixteen entries and a send to a full one is dropped.
 */
module StatusTracking {
  import opened Prelude

  datatype Status = Pulling | Starting | Ready | Working | Stopped | Failed | Removing | Removed

  datatype FailureReason =
    NoFailure | PullFailure | InitFailure | ConfigFailure | ModelFailure | ReadinessTimeout | Crashed

  const ChanSize := 16
  const IdSpace := 0x1_0000_0000_0000_0000  // ids are uint64 and wrap

  datatype Channel = Channel(buffer: seq<Status>, closed: bool)

  /**
   chans lists every channel ever made by Subscribe, in order; subs maps the id of each live
   subscription to its channel. The n-th subscription was given id n mod 2^64.
   */
  datatype Tracker = Tracker(
    status: Status, failure: FailureReason, nextID: nat, subs: map<nat, nat>, chans: seq<Channel>)

  const NewTracker := Tracker(Pulling, NoFailure, 0, map[], [])

  /** A non-blocking send. */
  function Offer(ch: Channel, s: Status): Channel {
    if |ch.buffer| < ChanSize then ch.(buffer := ch.buffer + [s]) else ch
  }

  function Broadcast(t: Tracker, s: Status): seq<Channel> {
    seq(|t.chans|, i requires 0 <= i < |t.chans| => if i in t.subs.Values then Offer(t.chans[i], s) else t.chans[i])
  }

  /** Only a Failed status carries a reason. */
  function ReasonFor(s: Status, reason: FailureReason): FailureReason {
    if s == Failed then reason else NoFailure
  }

  function Record(t: Tracker, s: Status, reason: FailureReason): Tracker {
    t.(status := s, failure := ReasonFor(s, reason), chans := Broadcast(t, s))
  }

  function Subscribed(t: Tracker): Tracker {
    t.(nextID := (t.nextID + 1) % IdSpace, subs := t.subs[t.nextID := |t.chans|], chans := t.chans + [Channel([], false)])
  }

  /** The cancel function of the n-th subscription; the once guard makes later calls no-ops. */
  function Cancelled(t: Tracker, n: nat): Tracker {
    if n < |t.chans| && !t.chans[n].closed
    then t.(subs := t.subs - {n % IdSpace}, chans := t.chans[n := t.chans[n].(closed := true)])
    else t
  }

  function Received(t: Tracker, n: nat): Tracker {
    if n < |t.chans| && t.chans[n].buffer != []
    then t.(chans := t.chans[n := t.chans[n].(buffer := t.chans[n].buffer[1..])])
    else t
  }

  // ---------------------------------------------------------------------------------------
  // The in-place tracker
  // ---------------------------------------------------------------------------------------

  class StatusTracker {
    var status: Status
    var failure: FailureReason
    var nextID: nat
    var subs: map<nat, nat>
    var chans: seq<Channel>

    ghost function Value(): Tracker
      reads this
    {
      Tracker(status, failure, nextID, subs, chans)
    }

    ghost predicate Valid()
      reads this
    {
      WellIndexed(Value())
    }

    constructor ()
      ensures Value() == NewTracker && Valid()
    {
      status, failure, nextID, subs, chans := Pulling, NoFailure, 0, map[], [];
    }

    method Set(s: Status)
      requires Valid()
      modifies this
      ensures Valid() && Value() == Record(old(Value()), s, NoFailure)
    {
      SetLocked(s, NoFailure);
    }

    method SetFailure(reason: FailureReason)
      requires Valid()
      modifies this
      ensures Valid() && Value() == Record(old(Value()), Failed, reason)
    {
      SetLocked(Failed, reason);
    }

    method SetUnless(s: Status, guard: seq<Status>) returns (recorded: bool)
      requires Valid()
      modifies this
      ensures recorded <==> old(status) !in guard
      ensures Valid() && Value() == if recorded then Record(old(Value()), s, NoFailure) else old(Value())
    {
      for i := 0 to |guard|
        invariant status !in guard[..i]
        invariant Value() == old(Value())
      {
        if status == guard[i] { return false; }
      }
      SetLocked(s, NoFailure);
      return true;
    }

    /** The broadcast loop; the subscriber map is visited in no particular order. */
    method SetLocked(s: Status, reason: FailureReason)
      requires Valid()
      modifies this
      ensures Valid() && Value() == Record(old(Value()), s, reason)
      ensures failure == if s == Failed then reason else NoFailure
    {
      status := s;
      failure := ReasonFor(s, reason);
      ghost var t := old(Value());
      var pending := subs.Keys;
      while pending != {}
        invariant pending <= subs.Keys && subs == t.subs && nextID == t.nextID
        invariant status == s && failure == ReasonFor(s, reason)
        invariant |chans| == |t.chans|
        invariant forall i :: 0 <= i < |chans| ==>
          chans[i] == if i in t.subs.Values && i % IdSpace !in pending then Offer(t.chans[i], s) else t.chans[i]
        decreases pending
      {
        var id :| id in pending;
        var ch := subs[id];
        assert ch % IdSpace == id;
        assert forall i :: 0 <= i < |chans| && i in t.subs.Values && i % IdSpace == id ==> i == ch;
        assert ch in t.subs.Values;
        chans := chans[ch := Offer(chans[ch], s)];
        pending := pending - {id};
      }
      assert forall i :: i in t.subs.Values ==> i % IdSpace in t.subs.Keys;
      assert chans == Broadcast(t, s);
    }

    method Subscribe() returns (n: nat)
      requires Valid()
      modifies this
      ensures Valid() && Value() == Subscribed(old(Value())) && n == |old(chans)|
    {
      n := |chans|;
      chans := chans + [Channel([], false)];
      subs := subs[nextID := n];
      nextID := (nextID + 1) % IdSpace;
      NextId(n);
    }

    method Cancel(n: nat)
      requires Valid() && n < |chans|
      modifies this
      ensures Valid() && Value() == Cancelled(old(Value()), n)
    {
      if !chans[n].closed {
        subs := subs - {n % IdSpace};
        chans := chans[n := chans[n].(closed := true)];
      }
    }
  }

  lemma NextId(n: nat)
    ensures (n % IdSpace + 1) % IdSpace == (n + 1) % IdSpace
  {
    assert n == (n / IdSpace) * IdSpace + n % IdSpace;
    if n % IdSpace + 1 == IdSpace {
      assert n + 1 == (n / IdSpace + 1) * IdSpace;
    }
  }

  /** Each live id names an existing channel whose subscription number it is (mod 2^64). */
  ghost predicate WellIndexed(t: Tracker) {
    && t.nextID == |t.chans| % IdSpace
    && forall id :: id in t.subs ==> t.subs[id] < |t.chans| && t.subs[id] % IdSpace == id
  }
}
