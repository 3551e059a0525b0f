/**
 Which of the edits a session holds each step sends: one flag an edit, front first, read off the
 session as it stands when its flush begins. A flush overtakes an edit when it leaves it behind
 and sends one made after it.
 */
module Flushes {
  import opened Options
  import opened Replica
  import opened Frames
  import opened Sealed
  import opened Producer
  import opened Session
  import opened SessionFrames

  // --- flags over a sequence -----------------------------------------------------------------

  /** What the flags pick; past the last flag nothing is picked. */
  function Picked(edits: seq<Delta>, mask: seq<bool>): seq<Delta> {
    if edits == [] || mask == [] then []
    else (if mask[0] then [edits[0]] else []) + Picked(edits[1..], mask[1..])
  }

  function Skipped(edits: seq<Delta>, mask: seq<bool>): seq<Delta> {
    if edits == [] || mask == [] then edits
    else (if mask[0] then [] else [edits[0]]) + Skipped(edits[1..], mask[1..])
  }

  predicate OutOfOrder(mask: seq<bool>) {
    exists a, b | 0 <= a < b < |mask| :: !mask[a] && mask[b]
  }

  lemma ConsMask(head: bool, rest: seq<bool>)
    ensures OutOfOrder([head] + rest) <==> OutOfOrder(rest) || (!head && true in rest)
  {
    var mask := [head] + rest;
    forall a, b | 0 <= a < b < |rest| && !rest[a] && rest[b] ensures OutOfOrder(mask) {
      assert !mask[a + 1] && mask[b + 1];
    }
    if !head && true in rest {
      var b :| 0 <= b < |rest| && rest[b];
      assert !mask[0] && mask[b + 1];
    }
    if a, b :| 0 <= a < b < |mask| && !mask[a] && mask[b] {
      assert mask[b] == rest[b - 1];
      assert a > 0 ==> mask[a] == rest[a - 1];
    }
  }

  lemma ConsPicked(edit: Delta, edits: seq<Delta>, mask: seq<bool>)
    requires mask != []
    ensures Picked([edit] + edits, mask) == (if mask[0] then [edit] else []) + Picked(edits, mask[1..])
    ensures Skipped([edit] + edits, mask) == (if mask[0] then [] else [edit]) + Skipped(edits, mask[1..])
  {
    assert ([edit] + edits)[1..] == edits;
  }

  lemma {:induction false} NothingPicked(edits: seq<Delta>, mask: seq<bool>)
    requires true !in mask
    ensures Picked(edits, mask) == [] && Skipped(edits, mask) == edits
  {
    if edits != [] && mask != [] {
      assert !mask[0];
      NothingPicked(edits[1..], mask[1..]);
    }
  }

  /** Without overtaking, what is picked is the front of the edits. */
  lemma {:induction false} InOrderPicksAFront(edits: seq<Delta>, mask: seq<bool>)
    requires !OutOfOrder(mask)
    ensures Picked(edits, mask) + Skipped(edits, mask) == edits
  {
    if edits != [] && mask != [] {
      assert edits == [edits[0]] + edits[1..] && mask == [mask[0]] + mask[1..];
      ConsMask(mask[0], mask[1..]);
      InOrderPicksAFront(edits[1..], mask[1..]);
      if !mask[0] {
        NothingPicked(edits[1..], mask[1..]);
      }
    }
  }

  // --- one flush -------------------------------------------------------------------------------

  /** For each held edit, whether a flush that begins here sends it. */
  function SendMask(s: Session, held: seq<Unsent>): seq<bool>
    decreases |held|
  {
    if held == [] then []
    else
      var (t, sent) := SendUpdate(s, held[0].delta);
      [sent] + SendMask(t, held[1..])
  }

  /** How many of the `n` attempts after `counter` can be sealed. */
  function Sealable(failed: set<nat>, counter: nat, n: nat): nat
    decreases n
  {
    if n == 0 then 0
    else (if counter + 1 in failed then 0 else 1) + Sealable(failed, counter + 1, n - 1)
  }

  predicate MayFlush(s: Session) {
    MayPublish(s) && IsWriter(s)
  }

  lemma SendingOneTells(s: Session, delta: Delta)
    ensures var (t, sent) := SendUpdate(s, delta);
            && (sent <==> MayFlush(s) && s.wire.roomFrames < s.who.budget && s.wire.counter + 1 !in s.who.unsealable)
            && t.who == s.who && (MayFlush(s) ==> MayFlush(t))
            && (MayFlush(s) && s.wire.roomFrames < s.who.budget ==>
                  t.wire.counter == s.wire.counter + 1 && t.wire.roomFrames == s.wire.roomFrames + (if sent then 1 else 0))
            && (!MayFlush(s) || s.who.budget <= s.wire.roomFrames ==> t == s)
  {
  }

  lemma {:induction false} SealableGrows(failed: set<nat>, counter: nat, n: nat, m: nat)
    requires n <= m
    ensures Sealable(failed, counter, n) <= Sealable(failed, counter, m)
    decreases n
  {
    if n != 0 {
      SealableGrows(failed, counter + 1, n - 1, m - 1);
    }
  }

  lemma {:induction false} SendMaskLength(s: Session, held: seq<Unsent>)
    ensures |SendMask(s, held)| == |held|
    decreases |held|
  {
    if held != [] {
      SendMaskLength(SendUpdate(s, held[0].delta).0, held[1..]);
    }
  }

  lemma {:induction false} NothingToSendIn(s: Session, held: seq<Unsent>)
    requires !MayFlush(s) || s.who.budget <= s.wire.roomFrames
    ensures true !in SendMask(s, held) && |SendMask(s, held)| == |held|
    decreases |held|
  {
    hide SendUpdate;
    if held != [] {
      SendingOneTells(s, held[0].delta);
      NothingToSendIn(s, held[1..]);
    }
  }

  /** The attempt of the edit at `k` cannot be sealed. */
  predicate FailsNth(s: Session, k: nat) {
    s.wire.counter + 1 + k in s.who.unsealable
  }

  /** The attempt of the edit at `k` can be sealed, and those sealed before it leave it a frame. */
  predicate SendsNth(s: Session, k: nat) {
    !FailsNth(s, k) && s.wire.roomFrames + Sealable(s.who.unsealable, s.wire.counter, k) < s.who.budget
  }

  /**
   What a writer's flush sends, without running it: the edit at `k` is sent exactly when the
   attempt that is its own can be sealed and the edits sealed before it leave a frame of the budget.
   */
  lemma {:induction false} SendMaskIs(s: Session, held: seq<Unsent>, k: nat)
    requires MayFlush(s) && k < |held|
    ensures |SendMask(s, held)| == |held|
    ensures SendMask(s, held)[k] <==> SendsNth(s, k)
    decreases |held|
  {
    hide SendUpdate, MayFlush;
    SendingOneTells(s, held[0].delta);
    var t := SendUpdate(s, held[0].delta).0;
    if s.who.budget <= s.wire.roomFrames {
      NothingToSendIn(s, held);
    } else if k > 0 {
      SendMaskIs(t, held[1..], k - 1);
    } else if |held| > 1 {
      SendMaskIs(t, held[1..], 0);
    }
  }

  /**
   A flush overtakes an edit exactly when the attempt of one edit fails and that of a later one
   is sealed while the budget lasts: the order is kept exactly when what fails is the end of it.
   */
  lemma FlushOvertakesIff(s: Session, held: seq<Unsent>)
    requires MayFlush(s)
    ensures OutOfOrder(SendMask(s, held)) <==>
              exists a, b | 0 <= a < b < |held| :: FailsNth(s, a) && SendsNth(s, b)
  {
    hide MayFlush, SendMask, Sealable;
    if held == [] {
      NothingIsSentOfNothing(s);
    } else {
      SendMaskIs(s, held, 0);
      forall k: nat | k < |held| ensures SendMask(s, held)[k] <==> SendsNth(s, k) {
        SendMaskIs(s, held, k);
      }
      if a, b :| 0 <= a < b < |held| && !SendMask(s, held)[a] && SendMask(s, held)[b] {
        SealableGrows(s.who.unsealable, s.wire.counter, a, b);
        assert FailsNth(s, a) && SendsNth(s, b);
      }
      if a, b :| 0 <= a < b < |held| && FailsNth(s, a) && SendsNth(s, b) {
        assert !SendMask(s, held)[a] && SendMask(s, held)[b];
      }
    }
  }

  lemma NothingIsSentOfNothing(s: Session)
    ensures SendMask(s, []) == []
  {
  }

  /** Absent failures nothing is overtaken, whoever flushes. */
  lemma SealedFlushesKeepOrder(s: Session, held: seq<Unsent>)
    requires s.who.unsealable == {}
    ensures !OutOfOrder(SendMask(s, held))
  {
    if MayFlush(s) {
      FlushOvertakesIff(s, held);
    } else {
      NothingToSendIn(s, held);
    }
  }

  // --- the flush of a step -----------------------------------------------------------------------

  function FlushMask(s: Session): seq<bool> {
    if s.ending.Some? || !IsWriter(s) then [] else SendMask(s, s.replica.unsent)
  }

  /** The session as an applied state's flush finds it: after the resolution and the first request. */
  ghost function FlushBegins(s: Session, clock: nat, issued: nat): Session {
    HandshakeOnce(ResolveSpeculation(StateNoted(s, clock, issued)), clock)
  }

  ghost function StateMask(s: Session, clock: nat, issued: nat): seq<bool> {
    if CommitsOurs(StateNoted(s, clock, issued)) then FlushMask(FlushBegins(s, clock, issued)) else []
  }

  /** The attempt the first request spends before the flush. */
  predicate AsksFirst(s: Session) {
    s.debts.handshakenAt.None? && s.wire.roomFrames < s.who.budget
  }

  /**
   An applied state's flush overtakes exactly when it names this live session a writer and, of the
   attempts after the first request's, an earlier one fails and a later one is sealed in budget.
   */
  lemma StateOvertakesIff(s: Session, clock: nat, issued: nat)
    ensures var c := FlushBegins(s, clock, issued);
            && c.who == s.who
            && (IsWriter(s) && s.ending.None? ==>
                  c.wire.counter == s.wire.counter + (if AsksFirst(s) then 1 else 0) && |c.replica.unsent| == |s.replica.unsent|)
            && (OutOfOrder(StateMask(s, clock, issued)) <==>
                  && IsWriter(s) && s.ending.None?
                  && exists a, b | 0 <= a < b < |s.replica.unsent| :: FailsNth(c, a) && SendsNth(c, b))
  {
    hide FlushMask, HostSeat, Writers, SendMask, Settled, StateVector, Sealable, FailsNth, SendsNth;
    var c := FlushBegins(s, clock, issued);
    FlushBeginsAt(s, clock, issued);
    if IsWriter(s) && s.ending.None? {
      FlushMaskOfWriter(c);
      FlushOvertakesIff(c, c.replica.unsent);
    } else if CommitsOurs(StateNoted(s, clock, issued)) {
      FlushMaskOfOthers(c);
    }
  }

  lemma FlushMaskOfWriter(s: Session)
    requires IsWriter(s) && s.ending.None?
    ensures FlushMask(s) == SendMask(s, s.replica.unsent)
  {
  }

  lemma FlushMaskOfOthers(s: Session)
    requires !IsWriter(s) || s.ending.Some?
    ensures FlushMask(s) == []
  {
  }

  lemma FlushBeginsAt(s: Session, clock: nat, issued: nat)
    ensures var a, c := StateNoted(s, clock, issued), FlushBegins(s, clock, issued);
            && c.who == s.who && c.ending == s.ending && c.reader == s.reader && c.view.stateIssued.Some?
            && (CommitsOurs(a) <==> CommitsOurs(s))
            && (IsWriter(s) && s.ending.None? ==>
                  c.wire.counter == s.wire.counter + (if AsksFirst(s) then 1 else 0) && |c.replica.unsent| == |s.replica.unsent|)
  {
    hide HostSeat, Writers, Settled, StateVector;
  }

  /** The same for a state this session publishes: only a new one is folded in. */
  ghost function PublicationMask(s: Session, clock: nat, reason: HostReason, listing: seq<Path>, seals: bool): seq<bool> {
    if s.who.budget <= s.wire.roomFrames || s.host.None? then []
    else
      var (h, out) := Publish(s.host.value, clock, reason, listing, seals);
      if out.None? || !out.value.isNew || out.value.state.None? then []
      else StateMask(NewStateFolded(s, h, out.value), clock, out.value.issued)
  }

  ghost function DeliveryMask(s: Session, clock: nat, frame: Frame, listing: seq<Path>, seals: bool): seq<bool> {
    var t := CountFrame(s);
    var v := Judge(t.reader, frame);
    if v.Refused? || v.kind == 0 then []
    else
      var u := t.(reader := Read(t.reader, frame),
                  view := if v.kind == 1 then t.view.(heldState := Some(frame)) else t.view);
      match v.body
      case StateBody(state) => StateMask(u, clock, state.issued)
      case AnnounceBody(key, declared) =>
        if u.host.None? then []
        else PublicationMask(u.(host := Some(Announce(u.host.value, key, declared))), clock, Announced, listing, seals)
      case _ => []
  }

  ghost function TickMask(s: Session, clock: nat, listing: seq<Path>, seals: bool): seq<bool> {
    var t := Housekept(s, clock);
    if t.ending.Some? || t.who.budget <= t.wire.roomFrames || WindowPassed(t, clock).Some? then []
    else PublicationMask(t, clock, Announced, listing, seals)
  }

  // --- an edit -------------------------------------------------------------------------------------

  /** The edit an input makes, if the session takes it. */
  ghost function Authored(s: Session, i: Input): Option<Delta> {
    if i.Inserted? && i.fits && OwnRole(s) != Some(ViewerRole) then Some(Atoms({NewAtom(s, i.payload)})) else None
  }

  /** Whether an edit made now is sent at once: the held ones are not tried first. */
  predicate SendsAtOnce(s: Session) {
    MayFlush(s) && s.wire.roomFrames < s.who.budget && s.wire.counter + 1 !in s.who.unsealable
  }

  /** What a step sends of the edits held before it and, last, the one it makes. */
  ghost function StepMask(s: Session, i: Input): seq<bool> {
    match i
    case Delivered(clock, frame, listing, seals) => DeliveryMask(s, clock, frame, listing, seals)
    case Ticked(clock, listing, seals) => TickMask(s, clock, listing, seals)
    case Inserted(_, _) =>
      if Authored(s, i).None? || s.ending.Some? then []
      else seq(|s.replica.unsent|, _ => false) + [SendsAtOnce(s)]
    case SomeoneJoined(clock, seat, listing, seals) =>
      PublicationMask(s.(host := if s.host.Some? then Some(SeatJoined(s.host.value, seat)) else None,
                         view := s.view.(roster := s.view.roster + {seat}),
                         holds := s.holds.(at := None)), clock, RosterChange, listing, seals)
    case SomeoneLeft(clock, seat, listing, seals) =>
      PublicationMask(RefreshHostAway(s.(host := if s.host.Some? then Some(SeatLeft(s.host.value, seat)) else None,
                                         view := s.view.(roster := s.view.roster - {seat})), clock, false),
                      clock, RosterChange, listing, seals)
    case ListingChanged(clock, listing, seals) => PublicationMask(s, clock, ListingChange, listing, seals)
    case _ => []
  }

  /** The step leaves an edit behind and sends one made after it. */
  ghost predicate Overtakes(s: Session, i: Input) {
    OutOfOrder(StepMask(s, i))
  }

  /** An edit overtakes exactly when others are held and its own attempt succeeds. */
  lemma EditOvertakesIff(s: Session, i: Input)
    requires i.Inserted? && i.fits
    ensures Overtakes(s, i) <==> s.replica.unsent != [] && SendsAtOnce(s)
  {
    hide MayFlush;
    var n, mask := |s.replica.unsent|, StepMask(s, i);
    if SendsAtOnce(s) {
      WritersAreNoViewers(s);
      assert mask[n];
      if n > 0 {
        assert !mask[0];
      }
    }
  }

  lemma WritersAreNoViewers(s: Session)
    requires SendsAtOnce(s)
    ensures OwnRole(s) != Some(ViewerRole) && s.ending.None?
  {
  }
}
