/**
 What else a tick owes besides requests: a key no state commits is announced again, and what a
 session holds is told again, each within a renewal; and what goes out when somebody joins.
 */
module Duties {
  import opened Options
  import opened Frames
  import opened Sealed
  import opened Producer
  import opened Session
  import opened SessionFrames
  import opened Speculation
  import DebtsPaid
  import Authority

  predicate IsLate(at: Option<nat>, renew: nat, clock: nat) {
    at.None? || at.value + renew <= clock || renew == 0
  }

  function KeyFrame(s: Session, counter: nat): Frame {
    Frame.Frame(s.who.me.id, 4, 0, counter, Some(s.who.me), true, AnnounceBody(s.who.me, s.who.declared))
  }

  function HoldsFrame(s: Session, counter: nat): Frame {
    Frame.Frame(s.who.me.id, 3, 0, counter, Some(s.who.me), true, HoldsBody(s.holds.held))
  }

  /**
   A joiner no state has committed sends one thing with a tick: its key, when it never has or has not
   for a renewal, if the attempt seals. Nothing else goes out, and the clock restarts either way.
   */
  lemma ATickAnnouncesExactly(s: Session, clock: nat, listing: seq<Path>, seals: bool)
    requires s.host.None? && s.ending.None? && !CommitsOurs(s) && Tick(s, clock, listing, seals).ending.None?
    ensures var t := Tick(s, clock, listing, seals);
            var late := IsLate(s.view.announcedAt, s.who.renew, clock);
            && t.wire.outbound == s.wire.outbound + (if late && s.wire.counter + 1 !in s.who.unsealable then [KeyFrame(s, s.wire.counter + 1)] else [])
            && t.view.announcedAt == (if late then Some(clock) else s.view.announcedAt)
  {
    hide HostSeat;
    DebtsPaid.TickOf(s, clock, listing, seals);
  }

  /** What is held has not been told as it is, or was told a renewal ago. */
  predicate HoldsLate(s: Session, clock: nat) {
    if s.holds.held != s.holds.sent then true
    else (s.holds.held != {} || s.holds.at.Some?) && IsLate(s.holds.at, s.who.renew, clock)
  }

  /** What telling the holds does, exactly: a late telling spends an attempt and is not tried again at once. */
  lemma HoldsAreTold(s: Session, clock: nat)
    requires MayPublish(s) && s.wire.roomFrames < s.who.budget
    ensures var t := AnnounceHolds(s, clock);
            && t.wire.outbound == s.wire.outbound
                 + (if HoldsLate(s, clock) && s.wire.counter + 1 !in s.who.unsealable then [HoldsFrame(s, s.wire.counter + 1)] else [])
            && (HoldsLate(s, clock) ==> t.holds.sent == s.holds.held && t.holds.at == Some(clock))
            && (!HoldsLate(s, clock) ==> t.holds == s.holds)
  {
  }

  /**
   A tick tells the holds if and only if they are late: in the attempt after the request's, if one was
   due, and after any state the host had to send again.
   */
  lemma ATickTellsHoldsExactly(s: Session, clock: nat, listing: seq<Path>, seals: bool)
    requires s.host.None? && MayPublish(s) && Tick(s, clock, listing, seals).ending.None?
    requires s.wire.roomFrames + 1 < s.who.budget
    ensures var t := Tick(s, clock, listing, seals);
            var asks := DebtsPaid.DueAt(s, clock);
            var counter := if asks then s.wire.counter + 2 else s.wire.counter + 1;
            var told := HoldsLate(s, clock) && counter !in s.who.unsealable;
            && t.wire.outbound == s.wire.outbound
                 + (if asks && s.wire.counter + 1 !in s.who.unsealable then [DebtsPaid.NextRequest(s)] else [])
                 + (if told then [HoldsFrame(s, counter)] else [])
            && (HoldsLate(s, clock) ==> t.holds.sent == s.holds.held && t.holds.at == Some(clock))
  {
    hide HostSeat, RequestSync, AnnounceHolds;
    DebtsPaid.TickOf(s, clock, listing, seals);
    DebtsPaid.HousekeptDebts(s, clock);
    var h := Housekept(s, clock);
    assert h.holds == s.holds && h.host == s.host && h.view.stateIssued == s.view.stateIssued;
    var c := Resync(h, clock);
    RequestSpends(h, clock);
    HoldsAreTold(c, clock);
  }

  lemma RequestSpends(s: Session, clock: nat)
    requires MayPublish(s) && s.wire.roomFrames < s.who.budget
    ensures var t, sealed := RequestSync(s, clock), s.wire.counter + 1 !in s.who.unsealable;
            && t.wire.counter == s.wire.counter + 1 && t.holds == s.holds && t.who == s.who && t.reader == s.reader && t.ending == s.ending
            && t.view == s.view && t.wire.roomFrames <= s.wire.roomFrames + 1
            && t.wire.outbound == s.wire.outbound + (if sealed then [DebtsPaid.NextRequest(s)] else [])
  {
    hide Replica.StateVector;
    assert s.wire.outbound + [] == s.wire.outbound;
  }

  /**
   What a joiner of the room draws from a session that is no host: the state it holds, unaltered,
   exactly while the named host is away; and then what it holds, whenever it was told last.
   */
  lemma AJoinIsAnswered(s: Session, clock: nat, seat: Seat, listing: seq<Path>, seals: bool)
    requires s.host.None? && s.ending.None?
    ensures var t := Step(s, SomeoneJoined(clock, seat, listing, seals));
            var host := HostSeat(s.reader.committed);
            var away := host.None? || host.value !in s.view.roster + {seat};
            var tells := MayPublish(s) && s.wire.roomFrames < s.who.budget && (s.holds.held != {} || s.holds.sent != {});
            && t.view.roster == s.view.roster + {seat}
            && t.wire.outbound == s.wire.outbound
                 + (if away && s.view.heldState.Some? then [s.view.heldState.value] else [])
                 + (if tells && s.wire.counter + 1 !in s.who.unsealable then [HoldsFrame(s, s.wire.counter + 1)] else [])
  {
    hide HostSeat, AnnounceHolds;
    var t := s.(view := s.view.(roster := s.view.roster + {seat}), holds := s.holds.(at := None));
    var u := if HostIsAway(t) then Republish(t) else t;
    AnnouncingHoldsExactly(u, clock);
    assert s.wire.outbound + [] == s.wire.outbound;
    assert u.wire.outbound + [] == u.wire.outbound;
  }

  lemma AnnouncingHoldsExactly(s: Session, clock: nat)
    requires s.holds.at.None?
    ensures var t := AnnounceHolds(s, clock);
            var tells := MayPublish(s) && s.wire.roomFrames < s.who.budget && (s.holds.held != {} || s.holds.sent != {});
            && t.view == s.view
            && t.wire.outbound == s.wire.outbound + (if tells && s.wire.counter + 1 !in s.who.unsealable then [HoldsFrame(s, s.wire.counter + 1)] else [])
  {
    assert s.wire.outbound + [] == s.wire.outbound;
  }

  // --- what the host half hears ------------------------------------------------------------------

  /** The commitments of the host half, if the session has one. */
  predicate SameSeating(s: Session, t: Session) {
    (s.host.Some? <==> t.host.Some?) && (s.host.Some? ==> t.host.value.seating == s.host.value.seating)
  }

  lemma PublishingKeepsSeating(s: Session, what: Kind, body: Body)
    ensures SameSeating(s, PublishFrame(s, what, body).0)
  {
  }

  lemma {:induction false} SendingKeepsSeating(s: Session, held: seq<Unsent>)
    ensures SameSeating(s, SendAll(s, held).0)
    decreases |held|
  {
    hide PublishFrame;
    if held != [] {
      PublishingKeepsSeating(s, Content, StreamBody([Update(held[0].delta)]));
      SendingKeepsSeating(SendUpdate(s, held[0].delta).0, held[1..]);
    }
  }

  lemma SmallStepsKeepSeating(s: Session, clock: nat)
    ensures SameSeating(s, RequestSync(s, clock)) && SameSeating(s, AnnounceKey(s, clock)) && SameSeating(s, AnnounceHolds(s, clock))
    ensures SameSeating(s, FlushHeldBack(s)) && SameSeating(s, ResolveSpeculation(s))
  {
    hide PublishFrame, SendAll;
    PublishingKeepsSeating(s, Syncing, StreamBody([SyncStep1(Replica.StateVector(PublicationDoc(s)))]));
    PublishingKeepsSeating(s, Announcing, AnnounceBody(s.who.me, s.who.declared));
    PublishingKeepsSeating(s, Holding, HoldsBody(s.holds.held));
    var t := AcceptSpeculation(s);
    SendingKeepsSeating(t.(replica := t.replica.(unsent := [])), t.replica.unsent);
  }

  lemma AfterStateKeepsSeating(s: Session, clock: nat, issued: nat)
    ensures SameSeating(s, AfterState(s, clock, issued))
  {
    hide StateNoted, RequestSync, FlushHeldBack, AnnounceHolds, AnnounceKey, ResolveSpeculation;
    AfterStateShape(s, clock, issued);
    var a := StateNoted(s, clock, issued);
    NotingKeepsSeating(s, clock, issued);
    SmallStepsKeepSeating(a, clock);
    var r := ResolveSpeculation(a);
    SmallStepsKeepSeating(r, clock);
    var c := HandshakeOnce(r, clock);
    SmallStepsKeepSeating(c, clock);
    SmallStepsKeepSeating(FlushHeldBack(c), clock);
    SmallStepsKeepSeating(AnnounceKey(a, clock), clock);
  }

  lemma NotingKeepsSeating(s: Session, clock: nat, issued: nat)
    ensures SameSeating(s, StateNoted(s, clock, issued))
  {
    hide HostSeat, Writers;
  }

  lemma StatePublishingKeepsSeating(s: Session, clock: nat, reason: HostReason, listing: seq<Path>, seals: bool)
    ensures SameSeating(s, PublishState(s, clock, reason, listing, seals))
  {
    hide AfterState, NewStateFolded, PeerEntries;
    if s.wire.roomFrames < s.who.budget && s.host.Some? {
      PublishStateShape(s, clock, reason, listing, seals);
      var (h, out) := Publish(s.host.value, clock, reason, listing, seals);
      if out.Some? && out.value.isNew && out.value.state.Some? {
        FoldingKeepsSeating(s, h, out.value);
        AfterStateKeepsSeating(NewStateFolded(s, h, out.value), clock, out.value.issued);
      }
    }
  }

  lemma FoldingKeepsSeating(s: Session, h: Host, out: Publication)
    requires out.state.Some? && s.host.Some? && h.seating == s.host.value.seating
    ensures SameSeating(s, NewStateFolded(s, h, out))
  {
  }

  /**
   An accepted announcement is committed by a host's session before it returns, and committed by
   nobody else's; a key the host had committed is not touched.
   */
  lemma AnAnnouncementIsCommitted(s: Session, clock: nat, frame: Frame, listing: seq<Path>, seals: bool)
    requires Judge(s.reader, frame).Accepted? && frame.kind == 4
    ensures var t := Deliver(s, clock, frame, listing, seals);
            && frame.body.AnnounceBody?
            && (s.host.None? <==> t.host.None?)
            && (s.host.Some? ==> frame.body.key in t.host.value.seating.seats)
            && (s.host.Some? && frame.body.key in s.host.value.seating.seats ==> t.host.value.seating == s.host.value.seating)
            && (s.host.None? ==> t.replica == s.replica && t.wire.outbound == s.wire.outbound)
  {
    hide Judge, PublishState, Label;
    Authority.AcceptedExactly(s.reader, frame);
    var u := CountFrame(s).(reader := Read(s.reader, frame));
    if u.host.Some? {
      var w := u.(host := Some(Announce(u.host.value, frame.body.key, frame.body.declared)));
      StatePublishingKeepsSeating(w, clock, Announced, listing, seals);
    }
  }

  /** A closing ends the session that holds a state, and is passed over by one that holds none. */
  lemma AClosingEndsTheSession(s: Session, clock: nat, frame: Frame, listing: seq<Path>, seals: bool)
    requires Judge(s.reader, frame).Accepted? && frame.kind == 2
    ensures var t := Deliver(s, clock, frame, listing, seals);
            && (s.view.stateIssued.Some? ==> t.ending == Some(ClosedRoom) && frame.body.ClosingBody? && t.reader.issued == frame.body.issued)
            && (s.view.stateIssued.None? ==> t.ending == s.ending && t.reader == s.reader)
            && t.replica == s.replica && t.wire.outbound == s.wire.outbound
  {
    hide Judge;
    Authority.AcceptedExactly(s.reader, frame);
  }
}
