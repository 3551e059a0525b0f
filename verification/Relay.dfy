/**
 The client's relay: callers, the clock task and the socket task share one session under a lock,
 and hand what it publishes to one socket queue. The lock discipline is a machine over atomic
 steps of any number of threads, interleaved in any order.
 */
module Relay {
  import opened Options
  import opened Frames
  import opened Sealed
  import opened Session
  import opened SessionFrames
  import opened Peer
  import ReplayMarks

  type Thread = nat

  /**
   The locked session, who holds its lock, the frames each thread has drained and not yet pushed,
   and the socket's queue, which a socket task that ended no longer takes from.
   */
  datatype Shared = Shared(session: Session, holder: Option<Thread>, taken: map<Thread, seq<Frame>>,
                           queue: seq<Frame>, closed: bool)

  datatype Turn =
    | Acquire(thread: Thread)
    | Change(thread: Thread, input: Input)
    | Drain(thread: Thread)
    | Push(thread: Thread)
    | Release(thread: Thread)
    | SocketEnds

  function TakenBy(r: Shared, t: Thread): seq<Frame> {
    if t in r.taken then r.taken[t] else []
  }

  /** What any thread could do, whatever it holds. */
  predicate Possible(r: Shared, turn: Turn) {
    match turn
    case Acquire(t) => r.holder.None?
    case Change(t, i) => r.holder == Some(t) && !i.Taken?
    case Drain(t) => r.holder == Some(t) && TakenBy(r, t) == []
    case Push(t) => TakenBy(r, t) != []
    case Release(t) => r.holder == Some(t)
    case SocketEnds => true
  }

  /** `Relay::queue`'s rule: what was drained under the lock is pushed before the lock is let go. */
  predicate Guarded(r: Shared, turn: Turn) {
    turn.Release? ==> TakenBy(r, turn.thread) == []
  }

  ghost function Take(r: Shared, turn: Turn): Shared
    requires Possible(r, turn)
  {
    match turn
    case Acquire(t) => r.(holder := Some(t))
    case Change(_, i) => r.(session := Step(r.session, i))
    case Drain(t) => r.(session := Step(r.session, Taken), taken := r.taken[t := r.session.wire.outbound])
    case Push(t) =>
      var frames := TakenBy(r, t);
      if r.closed then r.(taken := r.taken[t := []])
      else r.(queue := r.queue + [frames[0]], taken := r.taken[t := frames[1..]])
    case Release(t) => r.(holder := None)
    case SocketEnds => r.(closed := true)
  }

  // --- the order the queue keeps -----------------------------------------------------------

  /** The frames the holder has drained and not yet pushed; nobody else has any. */
  function Pending(r: Shared): seq<Frame> {
    if r.holder.Some? then TakenBy(r, r.holder.value) else []
  }

  /** Queued, then drained, then still in the session: one series, numbered upward. */
  ghost predicate OneSeries(r: Shared) {
    && Sane(r.session)
    && (forall t <- r.taken | r.holder != Some(t) :: r.taken[t] == [])
    && Numbered(r.queue + Pending(r) + r.session.wire.outbound, r.session.who.me, 0, r.session.wire.counter)
  }

  lemma TurnKeepsTheSeries(r: Shared, turn: Turn)
    requires OneSeries(r) && Possible(r, turn) && Guarded(r, turn)
    ensures OneSeries(Take(r, turn)) && Take(r, turn).session.who == r.session.who
  {
    hide Step, Sane, Numbered, Extends;
    var next := Take(r, turn);
    var ahead := r.queue + Pending(r);
    match turn
    case Change(t, i) =>
      StepExtends(r.session, i);
      ChangeAppends(ahead, r.session, next.session);
    case Drain(t) =>
      DrainingKeepsSane(r.session);
      assert next.queue + Pending(next) + next.session.wire.outbound == ahead + r.session.wire.outbound;
    case Push(_) => PushKeepsTheSeries(r, turn);
    case _ =>
      assert next.queue + Pending(next) + next.session.wire.outbound == ahead + r.session.wire.outbound;
  }

  lemma PushKeepsTheSeries(r: Shared, turn: Turn)
    requires OneSeries(r) && turn.Push? && Possible(r, turn)
    ensures OneSeries(Take(r, turn)) && Take(r, turn).session.who == r.session.who
  {
    hide Sane, Numbered;
    var next, frames := Take(r, turn), Pending(r);
    assert frames == [frames[0]] + frames[1..];
    if r.closed {
      Dropped(r.queue, frames, r.session.wire.outbound, r.session.who.me, r.session.wire.counter);
    } else {
      assert next.queue + Pending(next) + next.session.wire.outbound == r.queue + frames + r.session.wire.outbound;
    }
  }

  lemma ChangeAppends(ahead: seq<Frame>, s: Session, t: Session)
    requires Extends(s, t) && Sane(s) && Numbered(ahead + s.wire.outbound, s.who.me, 0, s.wire.counter)
    ensures Sane(t) && t.who == s.who && Numbered(ahead + t.wire.outbound, s.who.me, 0, t.wire.counter)
  {
    JoinNumbered(ahead + s.wire.outbound, Added(s, t), s.who.me, 0, s.wire.counter, t.wire.counter);
    assert ahead + t.wire.outbound == ahead + s.wire.outbound + Added(s, t);
  }

  lemma Dropped(left: seq<Frame>, gone: seq<Frame>, right: seq<Frame>, me: PublicKey, high: nat)
    requires Numbered(left + gone + right, me, 0, high)
    ensures Numbered(left + [] + right, me, 0, high)
  {
    var all, some := left + gone + right, left + [] + right;
    forall i | 0 <= i < |some| ensures some[i] == all[if i < |left| then i else i + |gone|] {
    }
  }

  // --- whole runs ----------------------------------------------------------------------------

  ghost predicate Runs(r: Shared, turns: seq<Turn>)
    decreases |turns|
  {
    turns != [] ==> Possible(r, turns[0]) && Guarded(r, turns[0]) && Runs(Take(r, turns[0]), turns[1..])
  }

  ghost function After(r: Shared, turns: seq<Turn>): Shared
    requires Runs(r, turns)
    decreases |turns|
  {
    if turns == [] then r else After(Take(r, turns[0]), turns[1..])
  }

  /**
   Under every interleaving of every thread's turns, the frames this session's key signed stand
   in the socket's queue in strictly rising counter order.
   */
  lemma {:induction false} QueueOrderIsCounterOrder(r: Shared, turns: seq<Turn>)
    requires OneSeries(r) && Runs(r, turns)
    ensures var end := After(r, turns);
            && OneSeries(end) && end.session.who == r.session.who
            && Numbered(end.queue, r.session.who.me, 0, end.session.wire.counter)
    decreases |turns|
  {
    hide Take, Sane;
    if turns == [] {
      var behind := Pending(r) + r.session.wire.outbound;
      assert r.queue + behind == r.queue + Pending(r) + r.session.wire.outbound;
      PrefixNumbered(r.queue, behind, r.session.who.me, r.session.wire.counter);
    } else {
      TurnKeepsTheSeries(r, turns[0]);
      QueueOrderIsCounterOrder(Take(r, turns[0]), turns[1..]);
    }
  }

  lemma PrefixNumbered(left: seq<Frame>, right: seq<Frame>, me: PublicKey, high: nat)
    requires Numbered(left + right, me, 0, high)
    ensures Numbered(left, me, 0, high)
  {
    forall i | 0 <= i < |left| ensures left[i] == (left + right)[i] {
    }
  }

  /** A new connection's shared state: nothing sealed yet and the lock free. */
  lemma StartsInOrder(s: Session)
    requires Sane(s) && Numbered(s.wire.outbound, s.who.me, 0, s.wire.counter)
    ensures OneSeries(Shared(s, None, map[], [], false))
  {
    assert [] + [] + s.wire.outbound == s.wire.outbound;
  }

  /**
   End to end: a receiver that is fed what the room relayed of this queue, any of it, in its
   order and among whatever else arrives, never refuses one of its frames as a replay.
   */
  lemma RelayedFramesAreNeverReplays(r: Shared, turns: seq<Turn>, reader: ReaderState,
                                     log: seq<ReplayMarks.Heard>, from: seq<nat>, n: nat)
    requires OneSeries(r) && Runs(r, turns)
    requires ReplayMarks.Ordered(reader) && MarkOf(reader.marks, r.session.who.me.id) == 0
    requires forall h <- log :: !ReplayMarks.Collides(h, r.session.who.me)
    requires |from| == |log|
    requires forall k | 0 <= k < |log| && ReplayMarks.SignedBy(log[k], r.session.who.me) ::
               from[k] < |After(r, turns).queue| && log[k].frame == After(r, turns).queue[from[k]]
    requires forall j, k | 0 <= j < k < |log| && ReplayMarks.SignedBy(log[j], r.session.who.me)
               && ReplayMarks.SignedBy(log[k], r.session.who.me) :: from[j] < from[k]
    requires n < |log| && ReplayMarks.SignedBy(log[n], r.session.who.me) && Marking(log[n].frame)
    ensures var v := Judge(ReplayMarks.At(reader, log, n), log[n].frame);
            v.Refused? ==> v.reason != ReplayedCounter
  {
    hide Judge, Runs, After, OneSeries;
    QueueOrderIsCounterOrder(r, turns);
    ReplayMarks.InOrderNeverReplayed(reader, log, r.session.who.me, 0, n);
  }

  /** The first thread seals one frame, drains it, and lets the lock go with the frame still in hand. */
  ghost function LeavesEarly(r: Shared, first: Input): (left: Shared)
    requires r.holder.None? && r.taken == map[] && !first.Taken?
    ensures left.holder.None? && TakenBy(left, 1) == Step(r.session, first).wire.outbound && TakenBy(left, 2) == []
    ensures left.session == Step(Step(r.session, first), Taken)
  {
    Take(Take(Take(Take(r, Acquire(1)), Change(1, first)), Drain(1)), Release(1))
  }

  /** The second takes the lock meanwhile, and seals, drains and pushes one of its own. */
  ghost function GetsAhead(r: Shared, second: Input): (ahead: Shared)
    requires r.holder.None? && TakenBy(r, 2) == [] && !second.Taken? && SealsOne(r.session, second)
    ensures ahead.holder == Some(2) && TakenBy(ahead, 1) == TakenBy(r, 1)
  {
    Take(Take(Take(Take(r, Acquire(2)), Change(2, second)), Drain(2)), Push(2))
  }

  ghost predicate SealsOne(s: Session, i: Input) {
    |Step(s, i).wire.outbound| == 1 && Marking(Step(s, i).wire.outbound[0])
  }

  predicate LaterFirst(queue: seq<Frame>) {
    |queue| == 2 && Marking(queue[0]) && Marking(queue[1]) && queue[1].counter < queue[0].counter
  }

  /**
   Why the push stays under the lock: let one thread release it with a frame still in hand, and
   a second can take the lock, seal the next counter and reach the queue first.
   */
  lemma APushAfterTheLockIsOvertaken(r: Shared, first: Input, second: Input)
    requires OneSeries(r) && r.holder.None? && r.taken == map[] && r.queue == [] && !r.closed && r.session.wire.outbound == []
    requires !first.Taken? && !second.Taken?
    requires SealsOne(r.session, first) && SealsOne(LeavesEarly(r, first).session, second)
    ensures var b := GetsAhead(LeavesEarly(r, first), second);
            && Possible(b, Release(2)) && Possible(Take(b, Release(2)), Push(1))
            && LaterFirst(Take(Take(b, Release(2)), Push(1)).queue)
  {
    hide Step, Sane;
    var s := r.session;
    var t := Step(s, first);
    var between := Step(t, Taken);
    StepExtends(s, first);
    ExtendsMeans(s, t);
    DrainingKeepsSane(t);
    StepExtends(between, second);
    assert Added(s, t) == t.wire.outbound;
    assert Added(between, Step(between, second)) == Step(between, second).wire.outbound;
  }

  // --- the relay as the object the threads share, between one lock and the next -----------------

  /** Each method is one critical section: the change, then the queue, before the lock goes. */
  class Relay {
    const session: PeerSession
    var outgoing: seq<Frame>
    var socketOpen: bool

    constructor (session: PeerSession)
      ensures this.session == session && outgoing == [] && socketOpen
    {
      this.session := session;
      outgoing, socketOpen := [], true;
    }

    /** Hands over everything published, in order, stopping at the first the socket refuses. */
    method Queue() returns (queued: bool)
      modifies this, session
      ensures session.View() == Step(old(session.View()), Taken) && socketOpen == old(socketOpen)
      ensures outgoing == old(outgoing) + if socketOpen then old(session.View()).wire.outbound else []
      ensures queued <==> socketOpen || old(session.View()).wire.outbound == []
    {
      var frames := session.TakeOutbound();
      var i := 0;
      while i < |frames|
        invariant 0 <= i <= |frames|
        invariant outgoing == old(outgoing) + if socketOpen then frames[..i] else []
        invariant i > 0 ==> socketOpen
        invariant socketOpen == old(socketOpen)
        invariant session.View() == Step(old(session.View()), Taken)
      {
        var pushed := PushFrame(frames[i]);
        if !pushed {
          return false;
        }
        i := i + 1;
      }
      queued := true;
    }

    method PushFrame(frame: Frame) returns (pushed: bool)
      modifies this`outgoing
      ensures pushed == socketOpen
      ensures outgoing == old(outgoing) + if socketOpen then [frame] else []
    {
      if socketOpen {
        outgoing := outgoing + [frame];
      }
      pushed := socketOpen;
    }

    method Delivered(clock: nat, frame: Frame, listing: seq<Path>, seals: bool) returns (queued: bool)
      requires session.Valid()
      modifies this, session, session.reader, session.host
      ensures session.Valid() && socketOpen == old(socketOpen)
      ensures var next := Step(old(session.View()), Input.Delivered(clock, frame, listing, seals));
              && session.View() == Step(next, Taken)
              && outgoing == old(outgoing) + if socketOpen then next.wire.outbound else []
    {
      hide Deliver;
      session.Deliver(clock, frame, listing, seals);
      queued := Queue();
    }

    method Ticked(clock: nat, listing: seq<Path>, seals: bool) returns (queued: bool)
      requires session.Valid()
      modifies this, session, session.reader, session.host
      ensures session.Valid() && socketOpen == old(socketOpen)
      ensures old(session.ending).Some? ==> queued && session.View() == old(session.View()) && outgoing == old(outgoing)
      ensures old(session.ending).None? ==>
                var next := Step(old(session.View()), Input.Ticked(clock, listing, seals));
                && session.View() == Step(next, Taken)
                && outgoing == old(outgoing) + if socketOpen then next.wire.outbound else []
    {
      hide Tick;
      if session.ending.Some? {
        return true;
      }
      session.Tick(clock, listing, seals);
      queued := Queue();
    }

    method Moved(payload: string, fits: bool) returns (queued: bool)
      requires session.Valid()
      modifies this, session, session.host
      ensures session.Valid() && socketOpen == old(socketOpen)
      ensures var next := Step(old(session.View()), Inserted(payload, fits));
              && session.View() == Step(next, Taken)
              && outgoing == old(outgoing) + if socketOpen then next.wire.outbound else []
    {
      hide Insert;
      var _ := session.Insert(payload, fits);
      queued := Queue();
    }
  }
}
