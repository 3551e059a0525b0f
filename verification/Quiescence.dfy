/**
 Why a room that holds one state falls silent: what a session still owes the room in requests is
 a number that no step raises while the state stands, and every request lowers.
 */
module Quiescence {
  import opened Arithmetic
  import opened Options
  import opened Replica
  import opened Frames
  import opened Sealed
  import opened Producer
  import opened Session
  import opened SessionFrames
  import opened SyncDebts

  /** A request or an answer to one: the content frames that carry no edit of the sender's own. */
  predicate IsSync(frame: Frame) {
    frame.Frame? && frame.kind == 0 && frame.body.StreamBody? && frame.body.messages != []
    && (frame.body.messages[0].SyncStep1? || frame.body.messages[0].SyncStep2?)
  }

  function Syncs(s: Session, t: Session): nat
    requires s.wire.outbound <= t.wire.outbound
  {
    Count(Added(s, t), IsSync)
  }

  /** The requests a session may still come to make under the state it holds. */
  function Owed(s: Session): nat {
    |Writers(s.reader.committed) - s.debts.served| + |s.debts.pending|
    + One(s.debts.readiness) + One(s.debts.resyncFrom.Some?) + One(s.debts.handshakenAt.None?)
  }

  /** A state frame no newer than edition `e`. */
  predicate Old(frame: Frame, e: nat) {
    IsStateFrame(frame) && (frame.body.StateBody? ==> frame.body.state.issued <= e)
  }

  /** A session whose applied state is the one of edition `e`, which commits its key. */
  ghost predicate Holds(s: Session, e: nat) {
    && Sane(s) && CommitsOurs(s) && s.view.stateIssued.Some? && e <= s.reader.issued
    && (s.view.heldState.Some? ==> Old(s.view.heldState.value, e))
    && (s.host.Some? && s.host.value.series.last.Some? ==> Old(s.host.value.series.last.value.frame, e))
  }

  /** The one message a sync or content frame carries, and whether its sender may send it. */
  predicate FairMessage(message: Message, writer: bool) {
    match message
    case SyncStep1(_) => true
    case SyncStep2(delta) => delta.Atoms? && writer
    case Update(delta) => delta.Atoms? && writer
    case _ => false
  }

  /** What `me` puts on the wire while the state of edition `e` stands. */
  predicate Fair(frame: Frame, me: PublicKey, committed: map<PublicKey, PeerEntry>, e: nat) {
    && frame.Frame? && frame.kind < 4
    && (frame.kind == 1 ==> Old(frame, e))
    && (Marking(frame) ==>
          frame.epoch == 0 && frame.signer == Some(me) && frame.keyId == me.id && frame.opens)
    && (frame.kind == 3 ==> frame.body.HoldsBody?)
    && (frame.kind == 0 ==>
          && frame.body.StreamBody? && |frame.body.messages| == 1
          && FairMessage(frame.body.messages[0], IsWriterRole(RoleOf(committed, me))))
  }

  /**
   A stretch of a step under a standing state: it asks for no more than it pays off, answers at
   most `drawn` requests, and sends nothing a peer holding the same state would refuse.
   */
  ghost predicate Pays(s: Session, t: Session, drawn: nat, e: nat) {
    && Extends(s, t) && t.reader == s.reader
    && Owed(t) + Asked(s, t) <= Owed(s)
    && Syncs(s, t) + Owed(t) <= Owed(s) + drawn
    && (forall f <- Added(s, t) :: Fair(f, s.who.me, s.reader.committed, e))
    && (Holds(s, e) ==> Holds(t, e))
  }

  lemma PaysChains(s: Session, t: Session, u: Session, first: nat, second: nat, e: nat)
    requires Pays(s, t, first, e) && Pays(t, u, second, e)
    ensures Pays(s, u, first + second, e)
  {
    hide Extends, Holds, Fair, Owed;
    AskedAdds(s, t, u);
    ExtendsChains(s, t, u);
    CountAdds(Added(s, t), Added(t, u), IsSync);
  }

  lemma PaysItself(s: Session, t: Session, e: nat)
    requires t.who == s.who && t.host == s.host && t.wire == s.wire && t.debts == s.debts && t.reader == s.reader
    requires t.view.heldState == s.view.heldState && t.view.stateIssued == s.view.stateIssued
    ensures Pays(s, t, 0, e)
  {
    ExtendsItself(s, t);
    assert Added(s, t) == [];
  }

  lemma OneFramePays(s: Session, t: Session, frame: Frame, e: nat)
    requires Extends(s, t) && Added(s, t) == [frame] && t.reader == s.reader
    requires Fair(frame, s.who.me, s.reader.committed, e) && (Holds(s, e) ==> Holds(t, e))
    requires Owed(t) + One(AsksSync(frame)) <= Owed(s)
    ensures Pays(s, t, One(IsSync(frame) && !AsksSync(frame)), e)
  {
    hide Extends, Holds, Fair, Owed;
    CountOne(frame, AsksSync);
    CountOne(frame, IsSync);
  }

  lemma NoFramePays(s: Session, t: Session, e: nat)
    requires Extends(s, t) && Added(s, t) == [] && t.reader == s.reader && t.debts == s.debts
    requires Holds(s, e) ==> Holds(t, e)
    ensures Pays(s, t, 0, e)
  {
  }

  // --- what a session may queue ------------------------------------------------------------

  predicate FairBody(what: Kind, body: Body) {
    match what
    case Announcing => false
    case Holding => body.HoldsBody?
    case Content => body.StreamBody? && |body.messages| == 1 && body.messages[0].Update? && body.messages[0].delta.Atoms?
    case Syncing => body.StreamBody? && |body.messages| == 1 && body.messages[0].SyncStep2? && body.messages[0].delta.Atoms?
  }

  /** A frame queued that is not a request pays nothing off and draws nothing but itself. */
  lemma PublishingPays(s: Session, what: Kind, body: Body, e: nat)
    requires FairBody(what, body)
    ensures Pays(s, PublishFrame(s, what, body).0, One(what == Syncing), e)
  {
    PublishingExtends(s, what, body);
    var (t, sent) := PublishFrame(s, what, body);
    var frame := OwnFrame(s, what, s.wire.counter + 1, body);
    PublishingKeeps(s, what, body, e);
    if sent {
      if what != Holding {
        assert IsContent(body) && IsWriter(s);
      }
      OneFramePays(s, t, frame, e);
    } else {
      NoFramePays(s, t, e);
    }
  }

  lemma PublishingKeeps(s: Session, what: Kind, body: Body, e: nat)
    ensures var t := PublishFrame(s, what, body).0;
            t.reader == s.reader && t.debts == s.debts && t.view == s.view && (Holds(s, e) ==> Holds(t, e))
  {
  }

  /** A request owed lowers what is owed by at least the one it is. */
  lemma RequestPays(s: Session, clock: nat, e: nat)
    requires OwesRequest(s.debts) || s.debts.handshakenAt.None?
    ensures Pays(s, RequestSync(s, clock), 0, e)
  {
    hide PublishFrame, Holds, Extends;
    var body := StreamBody([SyncStep1(StateVector(PublicationDoc(s)))]);
    var (t, sent) := PublishFrame(s, Syncing, body);
    var frame := OwnFrame(s, Syncing, s.wire.counter + 1, body);
    PublishingExtends(s, Syncing, body);
    PublishingKeeps(s, Syncing, body, e);
    RequestExtends(s, clock);
    HoldsAlike(t, RequestSync(s, clock), e);
    if sent {
      OneFramePays(s, RequestSync(s, clock), frame, e);
    } else {
      NoFramePays(s, t, e);
    }
  }

  lemma HoldsAlike(s: Session, t: Session, e: nat)
    requires t.who == s.who && t.host == s.host && t.reader == s.reader && t.view == s.view
    ensures Holds(s, e) ==> Holds(t, e)
  {
  }

  lemma ResyncPays(s: Session, clock: nat, e: nat)
    ensures Pays(s, Resync(s, clock), 0, e)
  {
    hide RequestSync, Pays;
    PaysItself(s, s, e);
    if OwesRequest(s.debts) || s.debts.handshakenAt.None? {
      RequestPays(s, clock, e);
    }
  }

  lemma AnnouncingHoldsPays(s: Session, clock: nat, e: nat)
    ensures Pays(s, AnnounceHolds(s, clock), 0, e)
  {
    hide PublishFrame, Pays;
    PaysItself(s, s, e);
    PublishingPays(s, Holding, HoldsBody(s.holds.held), e);
    var t := PublishFrame(s, Holding, HoldsBody(s.holds.held)).0;
    PublishingKeeps(s, Holding, HoldsBody(s.holds.held), e);
    var u := t.(holds := HoldsSent(t.holds.held, t.holds.held, Some(clock)));
    PaysItself(t, u, e);
    PaysChains(s, t, u, 0, 0, e);
  }

  // --- the host under a standing state -------------------------------------------------------

  /** The host half has no new edition to publish. */
  predicate NothingNew(h: Option<Host>, clock: nat, reason: HostReason, listing: seq<Path>, seals: bool) {
    h.Some? ==>
      var out := Publish(h.value, clock, reason, listing, seals).1;
      out.Some? ==> !out.value.isNew
  }

  lemma SameEditionHost(h: Host, clock: nat, reason: HostReason, listing: seq<Path>, seals: bool)
    requires NothingNew(Some(h), clock, reason, listing, seals)
    ensures Publish(h, clock, reason, listing, seals).0.series == h.series
  {
  }

  lemma StatePublishingPays(s: Session, clock: nat, reason: HostReason, listing: seq<Path>, seals: bool, e: nat)
    requires Holds(s, e) && NothingNew(s.host, clock, reason, listing, seals)
    ensures Pays(s, PublishState(s, clock, reason, listing, seals), 0, e)
  {
    hide AfterState, Publish, Extends;
    var next := PublishState(s, clock, reason, listing, seals);
    PaysItself(s, s, e);
    if s.wire.roomFrames < s.who.budget && s.host.Some? {
      HostPublishes(s.host.value, clock, reason, listing, seals);
      SameEditionHost(s.host.value, clock, reason, listing, seals);
      PublishStateShape(s, clock, reason, listing, seals);
      StatePublishingExtends(s, clock, reason, listing, seals);
      var (h, out) := Publish(s.host.value, clock, reason, listing, seals);
      if out.None? {
        assert Added(s, next) == [];
        NoFramePays(s, next, e);
      } else {
        OldStateExtends(s, h, out.value);
        OneFramePays(s, next, out.value.frame, e);
      }
    }
  }

  lemma RepublishingPays(s: Session, e: nat)
    requires Holds(s, e)
    ensures Pays(s, Republish(s), 0, e)
  {
    PaysItself(s, s, e);
    if s.ending.None? && s.view.heldState.Some? {
      QueueingAdds(s, s.view.heldState.value);
      OneFramePays(s, Republish(s), s.view.heldState.value, e);
    }
  }

  lemma ClosesPay(s: Session, t: Session, seals: bool, e: nat)
    requires s.host.Some? && Holds(s, e) && Extends(s, t) && t.reader == s.reader && t.debts == s.debts && t.view == s.view
    requires t.host.Some? && t.host.value.series.last == s.host.value.series.last
    requires var out := Close(s.host.value, seals).1;
             Added(s, t) == if out.None? then [] else [out.value.frame]
    ensures Pays(s, t, 0, e)
  {
    hide Close;
    HostCloses(s.host.value, seals);
    if Close(s.host.value, seals).1.None? {
      NoFramePays(s, t, e);
    } else {
      OneFramePays(s, t, Close(s.host.value, seals).1.value.frame, e);
    }
  }

  lemma SpendingPays(s: Session, seals: bool, e: nat)
    requires Holds(s, e) && s.who.budget <= s.wire.roomFrames
    ensures Pays(s, SpendBudget(s, seals), 0, e)
  {
    hide Close, Extends;
    var t := SpendBudget(s, seals);
    SpendingExtends(s, seals);
    if s.host.None? {
      assert Added(s, t) == [];
      NoFramePays(s, t, e);
    } else {
      HostCloses(s.host.value, seals);
      var out := Close(s.host.value, seals).1;
      assert Added(s, t) == if out.None? then [] else [out.value.frame];
      ClosesPay(s, t, seals, e);
    }
  }

  lemma ClosingPays(s: Session, seals: bool, e: nat)
    requires Holds(s, e)
    ensures Pays(s, CloseRoom(s, seals), 0, e)
  {
    hide Close, Extends;
    var t := CloseRoom(s, seals);
    ClosingExtends(s, seals);
    PaysItself(s, s, e);
    if s.host.Some? {
      HostCloses(s.host.value, seals);
      var out := Close(s.host.value, seals).1;
      assert Added(s, t) == if out.None? then [] else [out.value.frame];
      ClosesPay(s, t, seals, e);
    }
  }

  // --- the inputs a room under one state takes -------------------------------------------------

  /** An input that brings no state with it: the host has no new edition to answer it with. */
  predicate Steady(s: Session, i: Input) {
    match i
    case Ticked(clock, listing, seals) =>
      NothingNew(if s.host.Some? then Some(FlushFrames(s.host.value, clock)) else None, clock, Announced, listing, seals)
    case SomeoneJoined(clock, seat, listing, seals) =>
      NothingNew(if s.host.Some? then Some(SeatJoined(s.host.value, seat)) else None, clock, RosterChange, listing, seals)
    case SomeoneLeft(clock, seat, listing, seals) =>
      NothingNew(if s.host.Some? then Some(SeatLeft(s.host.value, seat)) else None, clock, RosterChange, listing, seals)
    case ListingChanged(clock, listing, seals) => NothingNew(s.host, clock, ListingChange, listing, seals)
    case Inserted(_, _) => true
    case Held(_, _) => true
    case RoomClosed(_) => true
    case Delivered(_, _, _, _) => false
    case Taken => false
  }

  lemma HousekeepingPays(s: Session, clock: nat, e: nat)
    requires Holds(s, e)
    ensures var t := Housekept(s, clock);
            && Pays(s, t, 0, e) && Holds(t, e)
            && t.host == if s.host.Some? then Some(FlushFrames(s.host.value, clock)) else None
  {
    hide HostSeat, Extends;
    HousekeepingExtends(s, clock);
    assert Added(s, Housekept(s, clock)) == [];
    NoFramePays(s, Housekept(s, clock), e);
  }

  lemma PayingPays(s: Session, clock: nat, listing: seq<Path>, seals: bool, e: nat)
    requires Holds(s, e) && NothingNew(s.host, clock, Announced, listing, seals)
    ensures Pays(s, PayDue(s, clock, listing, seals), 0, e)
  {
    hide PublishState, Resync, AnnounceHolds, NothingNew, Pays, Holds;
    var a := PublishState(s, clock, Announced, listing, seals);
    StatePublishingPays(s, clock, Announced, listing, seals, e);
    PaysMeans(s, a, 0, e);
    assert Reannounce(a, clock) == a;
    var c := Resync(a, clock);
    ResyncPays(a, clock, e);
    PaysChains(s, a, c, 0, 0, e);
    AnnouncingHoldsPays(c, clock, e);
    PaysChains(s, c, AnnounceHolds(c, clock), 0, 0, e);
  }

  lemma PaysMeans(s: Session, t: Session, drawn: nat, e: nat)
    requires Pays(s, t, drawn, e) && Holds(s, e)
    ensures Holds(t, e) && CommitsOurs(t) && t.who == s.who && t.reader == s.reader
  {
  }

  lemma TickingPays(s: Session, clock: nat, listing: seq<Path>, seals: bool, e: nat)
    requires Holds(s, e) && Steady(s, Ticked(clock, listing, seals))
    ensures Pays(s, Tick(s, clock, listing, seals), 0, e)
  {
    hide PayDue, SpendBudget, Housekept, NothingNew, Pays, Holds;
    var t, next := Housekept(s, clock), Tick(s, clock, listing, seals);
    HousekeepingPays(s, clock, e);
    if t.ending.None? {
      if t.who.budget <= t.wire.roomFrames {
        SpendingPays(t, seals, e);
      } else if WindowPassed(t, clock).Some? {
        PaysItself(t, next, e);
      } else {
        PayingPays(t, clock, listing, seals, e);
      }
      PaysChains(s, t, next, 0, 0, e);
    }
  }

  lemma SeatingPays(s: Session, t: Session, e: nat)
    requires Holds(s, e) && t.who == s.who && t.wire == s.wire && t.debts == s.debts && t.reader == s.reader
    requires t.view.heldState == s.view.heldState && t.view.stateIssued == s.view.stateIssued
    requires (t.host.Some? <==> s.host.Some?) && (s.host.Some? ==> t.host.value.series == s.host.value.series)
    ensures Pays(s, t, 0, e) && Holds(t, e)
  {
    assert Added(s, t) == [];
  }

  lemma JoiningPays(s: Session, clock: nat, seat: Seat, listing: seq<Path>, seals: bool, e: nat)
    requires Holds(s, e) && Steady(s, SomeoneJoined(clock, seat, listing, seals))
    ensures Pays(s, SeatJoins(s, clock, seat, listing, seals), 0, e)
  {
    hide PublishState, AnnounceHolds, HostSeat, AddSeat, NothingNew, Pays, Holds;
    var t := s.(host := if s.host.Some? then Some(SeatJoined(s.host.value, seat)) else None,
                view := s.view.(roster := s.view.roster + {seat}),
                holds := s.holds.(at := None));
    SeatingPays(s, t, e);
    var u := if t.host.Some? then PublishState(t, clock, RosterChange, listing, seals)
             else if HostIsAway(t) then Republish(t) else t;
    if t.host.Some? {
      StatePublishingPays(t, clock, RosterChange, listing, seals, e);
    } else {
      RepublishingPays(t, e);
      PaysItself(t, t, e);
    }
    PaysChains(s, t, u, 0, 0, e);
    AnnouncingHoldsPays(u, clock, e);
    PaysChains(s, u, AnnounceHolds(u, clock), 0, 0, e);
  }

  lemma LeavingPays(s: Session, clock: nat, seat: Seat, listing: seq<Path>, seals: bool, e: nat)
    requires Holds(s, e) && Steady(s, SomeoneLeft(clock, seat, listing, seals))
    ensures Pays(s, SeatLeaves(s, clock, seat, listing, seals), 0, e)
  {
    hide PublishState, HostSeat, DropSeat, DropLabel, NothingNew, Pays, Holds;
    var t := s.(host := if s.host.Some? then Some(SeatLeft(s.host.value, seat)) else None,
                view := s.view.(roster := s.view.roster - {seat}));
    var u := RefreshHostAway(t, clock, false);
    SeatingPays(s, u, e);
    StatePublishingPays(u, clock, RosterChange, listing, seals, e);
    PaysChains(s, u, PublishState(u, clock, RosterChange, listing, seals), 0, 0, e);
  }

  lemma InsertingPays(s: Session, payload: string, fits: bool, e: nat)
    requires Holds(s, e)
    ensures Pays(s, Insert(s, payload, fits), 0, e)
  {
    hide NewAtom, Diff, StateVector, PublishFrame, Pays, Holds;
    var next := Insert(s, payload, fits);
    PaysItself(s, s, e);
    if OwnRole(s) != Some(ViewerRole) {
      var t := if !IsWriter(s) then BeginSpeculation(s) else s;
      var before := StateVector(t.replica.doc);
      var u := t.(replica := t.replica.(doc := t.replica.doc + {NewAtom(t, payload)}));
      var delta := Atoms(Diff(u.replica.doc, before));
      if !fits || !MayPublish(u) || !IsWriter(u) {
        PaysItself(s, next, e);
      } else {
        var ready := AcceptSpeculation(u);
        var body := StreamBody([Update(delta)]);
        PaysItself(s, ready, e);
        PublishingPays(ready, Content, body, e);
        PublishingKeeps(ready, Content, body, e);
        var sent := PublishFrame(ready, Content, body).0;
        PaysItself(sent, next, e);
        PaysChains(s, ready, sent, 0, 0, e);
        PaysChains(s, sent, next, 0, 0, e);
      }
    }
  }

  /** No input that leaves the state standing raises what is owed. */
  lemma SteadyStepPays(s: Session, i: Input, e: nat)
    requires Holds(s, e) && Steady(s, i)
    ensures Pays(s, Step(s, i), 0, e)
  {
    hide Tick, Insert, SeatJoins, SeatLeaves, PublishState, AnnounceHolds, CloseRoom, NothingNew, Pays, Holds;
    match i
    case Ticked(clock, listing, seals) => TickingPays(s, clock, listing, seals, e);
    case Inserted(payload, fits) => InsertingPays(s, payload, fits, e);
    case SomeoneJoined(clock, seat, listing, seals) => JoiningPays(s, clock, seat, listing, seals, e);
    case SomeoneLeft(clock, seat, listing, seals) => LeavingPays(s, clock, seat, listing, seals, e);
    case ListingChanged(clock, listing, seals) => StatePublishingPays(s, clock, ListingChange, listing, seals, e);
    case Held(clock, held) =>
      var t := s.(holds := s.holds.(held := held));
      PaysItself(s, t, e);
      AnnouncingHoldsPays(t, clock, e);
      PaysChains(s, t, AnnounceHolds(t, clock), 0, 0, e);
    case RoomClosed(seals) => ClosingPays(s, seals, e);
  }
}
