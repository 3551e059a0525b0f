/**
 One connection's outbound queue under every interleaving: any number of senders reserve bytes,
 offer a frame to a bounded channel and give the bytes back if it is refused, while one writer
 takes frames out and releases each once its send is over (crates/selvaged/src/room.rs).
 */
module ByteQueue {
  import opened Options
  import opened Sums

  const MAX_QUEUE_FRAMES: nat := 32
  const WORD: nat := 0x1_0000_0000_0000_0000

  datatype Out = Out(len: nat, closing: bool)

  /** Where a sender is in `try_queue`: between its atomic steps it holds a reservation. */
  datatype Phase = Idle | Reserved(out: Out) | Refused(out: Out)

  /**
   The shared counter and channel, each sender's phase, and the frame being written. `accepted`
   and `written` are the histories of the channel's two ends; `lost` is what the channel still
   held when its writer left.
   */
  datatype State = State(
    counter: nat, cap: nat, channel: seq<Out>, phases: seq<Phase>, writing: Option<Out>, writerGone: bool,
    accepted: seq<Out>, written: seq<Out>, lost: seq<Out>)

  datatype Step =
    | Reserve(sender: nat, out: Out)
    | Offer(sender: nat)
    | GiveBack(sender: nat)
    | Receive
    | Release(sent: bool)

  function Started(cap: nat, senders: nat): State {
    State(0, cap, [], seq(senders, _ => Idle), None, false, [], [], [])
  }

  /** An atomic subtraction, which wraps rather than fails. */
  function WrapSub(counter: nat, len: nat): nat {
    if len <= counter then counter - len else (counter + WORD - len % WORD) % WORD
  }

  predicate Enabled(s: State, step: Step) {
    match step
    case Reserve(i, _) => i < |s.phases| && s.phases[i].Idle?
    case Offer(i) => i < |s.phases| && s.phases[i].Reserved?
    case GiveBack(i) => i < |s.phases| && s.phases[i].Refused?
    case Receive => s.writing.None? && !s.writerGone && s.channel != []
    case Release(_) => s.writing.Some?
  }

  /** Whether a reservation fits: the sum is a word, and not past the cap. */
  predicate Fits(s: State, len: nat) {
    s.counter + len < WORD && s.counter + len <= s.cap
  }

  function Take(s: State, step: Step): State
    requires Enabled(s, step)
  {
    match step
    case Reserve(i, out) =>
      if Fits(s, out.len) then s.(counter := s.counter + out.len, phases := s.phases[i := Reserved(out)]) else s
    case Offer(i) =>
      var out := s.phases[i].out;
      if s.writerGone || MAX_QUEUE_FRAMES <= |s.channel| then s.(phases := s.phases[i := Refused(out)])
      else s.(channel := s.channel + [out], accepted := s.accepted + [out], phases := s.phases[i := Idle])
    case GiveBack(i) =>
      s.(counter := WrapSub(s.counter, s.phases[i].out.len), phases := s.phases[i := Idle])
    case Receive => s.(writing := Some(s.channel[0]), channel := s.channel[1..])
    case Release(sent) =>
      var out := s.writing.value;
      var done := s.(counter := WrapSub(s.counter, out.len), writing := None,
                     written := if sent then s.written + [out] else s.written);
      if sent && !out.closing then done
      else done.(writerGone := true, lost := s.channel, channel := [])
  }

  // --- what the counter counts ---------------------------------------------------------------

  function HeldBy(phase: Phase): nat {
    if phase.Idle? then 0 else phase.out.len
  }

  function Holdings(phases: seq<Phase>): seq<nat> {
    seq(|phases|, i requires 0 <= i < |phases| => HeldBy(phases[i]))
  }

  function Lengths(outs: seq<Out>): seq<nat> {
    seq(|outs|, i requires 0 <= i < |outs| => outs[i].len)
  }

  function Writing(s: State): nat {
    if s.writing.Some? then s.writing.value.len else 0
  }

  function BeingWritten(s: State): seq<Out> {
    if s.writing.Some? then [s.writing.value] else []
  }

  /**
   The counter is exactly the bytes reserved, queued and being written, and what a writer that
   left abandoned; it is never above the cap; and the channel is a bounded, faithful queue.
   */
  ghost predicate Counted(s: State) {
    && s.counter == Sum(Holdings(s.phases)) + Sum(Lengths(s.channel)) + Writing(s) + Sum(Lengths(s.lost))
    && s.counter <= s.cap && s.counter < WORD
    && |s.channel| <= MAX_QUEUE_FRAMES
    && (s.writerGone ==> s.channel == [] && s.writing.None?)
    && (!s.writerGone ==> s.lost == [] && s.accepted == s.written + BeingWritten(s) + s.channel)
    && s.written <= s.accepted
  }

  lemma PhaseMoves(phases: seq<Phase>, i: nat, next: Phase)
    requires i < |phases|
    ensures Sum(Holdings(phases[i := next])) + HeldBy(phases[i]) == Sum(Holdings(phases)) + HeldBy(next)
  {
    SumSet(Holdings(phases), i, HeldBy(next));
    assert Holdings(phases[i := next]) == Holdings(phases)[i := HeldBy(next)];
  }

  lemma QueueGrows(channel: seq<Out>, out: Out)
    ensures Sum(Lengths(channel + [out])) == Sum(Lengths(channel)) + out.len
  {
    assert Lengths(channel + [out])[..|channel|] == Lengths(channel);
  }

  lemma {:induction false} QueueShrinks(channel: seq<Out>)
    requires channel != []
    ensures Sum(Lengths(channel)) == channel[0].len + Sum(Lengths(channel[1..]))
    decreases |channel|
  {
    var last := |channel| - 1;
    assert Lengths(channel)[..last] == Lengths(channel[..last]);
    if last == 0 {
      assert channel[1..] == [];
    } else {
      QueueShrinks(channel[..last]);
      assert channel[..last][1..] == channel[1..][..last - 1];
      assert channel[1..] == channel[1..][..last - 1] + [channel[last]];
      QueueGrows(channel[1..][..last - 1], channel[last]);
    }
  }

  lemma ReservingKeeps(s: State, i: nat, out: Out)
    requires Counted(s) && Enabled(s, Reserve(i, out))
    ensures Counted(Take(s, Reserve(i, out)))
  {
    hide Sum, Holdings, Lengths;
    PhaseMoves(s.phases, i, Reserved(out));
  }

  lemma OfferingKeeps(s: State, i: nat)
    requires Counted(s) && Enabled(s, Offer(i))
    ensures Counted(Take(s, Offer(i)))
  {
    hide Sum, Holdings, Lengths;
    var out := s.phases[i].out;
    PhaseMoves(s.phases, i, Refused(out));
    PhaseMoves(s.phases, i, Idle);
    QueueGrows(s.channel, out);
    assert s.written + BeingWritten(s) + (s.channel + [out]) == s.written + BeingWritten(s) + s.channel + [out];
  }

  lemma GivingBackKeeps(s: State, i: nat)
    requires Counted(s) && Enabled(s, GiveBack(i))
    ensures Counted(Take(s, GiveBack(i)))
  {
    hide Sum, Holdings, Lengths;
    PhaseMoves(s.phases, i, Idle);
  }

  lemma ReceivingKeeps(s: State)
    requires Counted(s) && Enabled(s, Receive)
    ensures Counted(Take(s, Receive))
  {
    hide Sum, Holdings, Lengths;
    QueueShrinks(s.channel);
    assert s.channel == [s.channel[0]] + s.channel[1..];
  }

  lemma ReleasingKeeps(s: State, sent: bool)
    requires Counted(s) && Enabled(s, Release(sent))
    ensures Counted(Take(s, Release(sent)))
  {
    hide Holdings;
    assert Lengths([]) == [];
  }

  lemma StepKeepsTheCount(s: State, step: Step)
    requires Counted(s) && Enabled(s, step)
    ensures Counted(Take(s, step))
  {
    hide Counted, Enabled, Take;
    match step
    case Reserve(i, out) => ReservingKeeps(s, i, out);
    case Offer(i) => OfferingKeeps(s, i);
    case GiveBack(i) => GivingBackKeeps(s, i);
    case Receive => ReceivingKeeps(s);
    case Release(sent) => ReleasingKeeps(s, sent);
  }

  ghost predicate Possible(s: State, run: seq<Step>)
    decreases |run|
  {
    run != [] ==> Enabled(s, run[0]) && Possible(Take(s, run[0]), run[1..])
  }

  function After(s: State, run: seq<Step>): State
    requires Possible(s, run)
    decreases |run|
  {
    if run == [] then s else After(Take(s, run[0]), run[1..])
  }

  lemma {:induction false} EveryRunIsCounted(s: State, run: seq<Step>)
    requires Counted(s) && Possible(s, run)
    ensures Counted(After(s, run))
    decreases |run|
  {
    hide Counted, Enabled, Take;
    if run != [] {
      StepKeepsTheCount(s, run[0]);
      EveryRunIsCounted(Take(s, run[0]), run[1..]);
    }
  }

  lemma {:induction false} IdleHoldsNothing(senders: nat)
    ensures Sum(Holdings(seq(senders, _ => Idle))) == 0
  {
    if senders > 0 {
      IdleHoldsNothing(senders - 1);
      assert Holdings(seq(senders, _ => Idle))[..senders - 1] == Holdings(seq(senders - 1, _ => Idle));
    }
  }

  /**
   From an empty queue, however its senders and its writer interleave: the counter is what is
   held for the peer, within the cap and 32 frames, and no release ever takes it below zero.
   */
  lemma TheCountIsWhatIsHeld(cap: nat, senders: nat, run: seq<Step>)
    requires cap < WORD && Possible(Started(cap, senders), run)
    ensures var s := After(Started(cap, senders), run);
            && Counted(s)
            && (s.writing.Some? ==> s.writing.value.len <= s.counter)
            && (forall i | 0 <= i < |s.phases| && s.phases[i].Refused? :: s.phases[i].out.len <= s.counter)
  {
    IdleHoldsNothing(senders);
    assert Lengths([]) == [];
    EveryRunIsCounted(Started(cap, senders), run);
    var s := After(Started(cap, senders), run);
    forall i | 0 <= i < |s.phases| && s.phases[i].Refused? ensures s.phases[i].out.len <= s.counter {
      PhaseMoves(s.phases, i, Idle);
    }
  }

  /**
   What a writer leaves behind stays counted: two frames are queued, the first send fails, and the
   counter holds the second's bytes for good beside an empty channel.
   */
  lemma AFailedSendStrandsTheQueue(cap: nat, first: Out, second: Out)
    requires first.len + second.len <= cap < WORD
    ensures var a := Take(Take(Started(cap, 1), Reserve(0, first)), Offer(0));
            var b := Take(Take(a, Reserve(0, second)), Offer(0));
            var end := Take(Take(b, Receive), Release(false));
            && Enabled(b, Receive) && Enabled(Take(b, Receive), Release(false))
            && end.counter == second.len && end.lost == [second] && end.channel == [] && end.writerGone
  {
    var a := Take(Take(Started(cap, 1), Reserve(0, first)), Offer(0));
    var b := Take(Take(a, Reserve(0, second)), Offer(0));
    assert b.channel == [first, second];
    assert Take(b, Receive).channel == [second];
  }

  /** What the peer was sent is the front of what the channel took, in its order. */
  lemma WrittenInOrder(cap: nat, senders: nat, run: seq<Step>)
    requires cap < WORD && Possible(Started(cap, senders), run)
    ensures var s := After(Started(cap, senders), run);
            && s.written <= s.accepted
            && (!s.writerGone ==> s.accepted == s.written + BeingWritten(s) + s.channel)
  {
    TheCountIsWhatIsHeld(cap, senders, run);
  }

  /** The cap refuses no more than it must: a sender alone is refused exactly past one of the bounds. */
  lemma ASenderAloneIsRefusedOnlyPastABound(s: State, i: nat, out: Out)
    requires Counted(s) && !s.writerGone && i < |s.phases| && s.phases[i].Idle?
    ensures var reserved := Take(s, Reserve(i, out));
            && (reserved.phases[i].Idle? <==> s.cap < s.counter + out.len || WORD <= s.counter + out.len)
            && (reserved.phases[i].Reserved? ==>
                  var offered := Take(reserved, Offer(i));
                  && (offered.phases[i].Idle? <==> |s.channel| < MAX_QUEUE_FRAMES)
                  && (offered.phases[i].Refused? ==> Take(offered, GiveBack(i)) == s))
  {
    var reserved := Take(s, Reserve(i, out));
    if reserved.phases[i].Reserved? && MAX_QUEUE_FRAMES <= |s.channel| {
      assert reserved.phases[i := Refused(out)][i := Idle] == s.phases;
    }
  }

  // --- the queue as the object a sender and the writer share, one call at a time ------------------

  class Queue {
    const maxBytes: nat
    var queued: nat
    var channel: seq<Out>
    var receiverGone: bool

    ghost predicate Valid()
      reads this
    {
      queued == Sum(Lengths(channel)) <= maxBytes && queued < WORD && |channel| <= MAX_QUEUE_FRAMES
    }

    constructor (maxBytes: nat)
      ensures Valid() && this.maxBytes == maxBytes && channel == [] && !receiverGone
    {
      this.maxBytes := maxBytes;
      queued, channel, receiverGone := 0, [], false;
      new;
      assert Lengths([]) == [];
    }

    /** Reserves, offers, and gives the bytes back if the channel would not take the frame. */
    method TryQueue(out: Out) returns (fits: bool)
      requires Valid()
      modifies this
      ensures Valid() && receiverGone == old(receiverGone)
      ensures fits <==> old(queued) + out.len <= maxBytes && old(queued) + out.len < WORD
                        && !receiverGone && |old(channel)| < MAX_QUEUE_FRAMES
      ensures channel == old(channel) + (if fits then [out] else [])
      ensures queued == old(queued) + (if fits then out.len else 0)
    {
      if WORD <= queued + out.len || maxBytes < queued + out.len {
        return false;
      }
      queued := queued + out.len;
      if !receiverGone && |channel| < MAX_QUEUE_FRAMES {
        QueueGrows(channel, out);
        channel := channel + [out];
        return true;
      }
      queued := queued - out.len;
      fits := false;
    }

    /**
     The writer, fed by a queue nobody adds to meanwhile: `sends` says which of its sends succeed.
     It stops at the first that fails or that closes, and every byte it took out is released,
     written or not: what stays counted is what it never took.
     */
    method WriteOutbound(sends: seq<bool>) returns (taken: nat)
      requires Valid() && !receiverGone && |channel| <= |sends|
      modifies this
      ensures taken <= |old(channel)| && channel == []
      ensures forall i | 0 <= i < taken - 1 :: sends[i] && !old(channel)[i].closing
      ensures receiverGone <==> taken > 0 && (!sends[taken - 1] || old(channel)[taken - 1].closing)
      ensures !receiverGone ==> taken == |old(channel)|
      ensures queued == Sum(Lengths(old(channel)[taken..]))
    {
      hide Sum, Lengths;
      ghost var all := channel;
      taken := 0;
      assert all[0..] == all;
      while channel != []
        invariant !receiverGone && taken <= |all| <= |sends| && channel == all[taken..]
        invariant queued == Sum(Lengths(channel))
        invariant forall i | 0 <= i < taken :: sends[i] && !all[i].closing
        decreases |channel|
      {
        var out := channel[0];
        QueueShrinks(channel);
        queued := queued - out.len;
        channel := channel[1..];
        taken := taken + 1;
        if !sends[taken - 1] || out.closing {
          receiverGone, channel := true, [];
          return;
        }
      }
    }
  }
}
