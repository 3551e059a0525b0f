/**
 What a session with a host half owes its room: a state on every change of the roster or the listing,
 folded into its own receiver before anyone else's, and one closing when it ends the room.
 */
module HostDuties {
  import opened Options
  import opened Frames
  import opened Sealed
  import opened Producer
  import opened Session
  import opened SessionFrames
  import opened Speculation
  import opened ContentRuns
  import DebtsPaid

  /** The frame says how the room stands: a new state of it, or the last one again while it still says so. */
  predicate SaysTheRoom(h: Host, frame: Frame, listing: seq<Path>) {
    || (h.series.last.Some? && frame == h.series.last.value.frame
        && h.series.last.value.state.listing == listing && h.series.last.value.state.peers == PeerEntries(h.seating, h.config))
    || (frame.Frame? && frame.kind == 1 && frame.signer == Some(h.config.hostKey) && frame.opens && frame.body.StateBody?
        && frame.body.state.listing == listing && frame.body.state.peers == PeerEntries(h.seating, h.config)
        && h.series.issued < frame.body.state.issued && h.series.verified < frame.body.state.issued)
  }

  /** The session has queued such a state; and if it is new, the session holds it as every peer will. */
  ghost predicate Told(s: Session, h: Host, t: Session, listing: seq<Path>) {
    && s.wire.outbound <= t.wire.outbound
    && exists frame <- Added(s, t) ::
         && SaysTheRoom(h, frame, listing)
         && (!(h.series.last.Some? && frame == h.series.last.value.frame) ==>
               && frame.body.StateBody? && t.reader.committed == frame.body.state.peers && t.reader.issued == frame.body.state.issued
               && t.view.stateIssued == Some(frame.body.state.issued))
  }

  lemma StatePublishingTells(s: Session, clock: nat, reason: HostReason, listing: seq<Path>, seals: bool)
    requires s.host.Some? && s.host.value.standing == Live && s.wire.roomFrames < s.who.budget
    requires seals && (reason == Announced ==> s.host.value.owed && WindowOpen(s.host.value, clock))
    ensures Told(s, s.host.value, PublishState(s, clock, reason, listing, seals), listing)
  {
    hide AfterState, PeerEntries, NewStateFolded;
    var h := s.host.value;
    PublishStateShape(s, clock, reason, listing, seals);
    var (next, out) := Publish(h, clock, reason, listing, seals);
    var t := PublishState(s, clock, reason, listing, seals);
    if out.value.isNew {
      var w := NewStateFolded(s, next, out.value);
      FoldedTells(s, next, out.value);
      AfterStateExtends(w, clock, out.value.issued);
      OnlyAppends(w, t);
      AfterStateResolves(w, clock, out.value.issued);
      assert w.wire.outbound[|s.wire.outbound|] == out.value.frame;
      assert t.wire.outbound[|s.wire.outbound|] == out.value.frame;
      assert Added(s, t)[0] == out.value.frame;
    } else {
      assert Added(s, t) == [out.value.frame];
      assert Added(s, t)[0] == out.value.frame && SaysTheRoom(h, out.value.frame, listing);
    }
  }

  lemma FoldedTells(s: Session, h: Host, out: Publication)
    requires out.state.Some?
    ensures var w := NewStateFolded(s, h, out);
            && w.wire.outbound == s.wire.outbound + [out.frame]
            && w.reader.committed == out.state.value.peers && w.reader.issued == out.state.value.issued
  {
  }

  lemma OnlyAppends(s: Session, t: Session)
    requires Extends(s, t)
    ensures s.wire.outbound <= t.wire.outbound && t.who == s.who
  {
  }

  /** A join, a departure or a new listing is told at once by a live host whose seal holds, whatever it told last. */
  lemma ARoomsChangeIsTold(s: Session, i: Input)
    requires s.host.Some? && s.wire.roomFrames < s.who.budget
    requires i.SomeoneJoined? || i.SomeoneLeft? || i.ListingChanged?
    requires i.seals
    ensures var h := if i.SomeoneJoined? then SeatJoined(s.host.value, i.seat)
                     else if i.SomeoneLeft? then SeatLeft(s.host.value, i.seat) else s.host.value;
            h.standing == Live ==> Told(s, h, Step(s, i), i.listing)
  {
    hide PublishState, AnnounceHolds, HostSeat, AddSeat, DropSeat, DropLabel, SaysTheRoom;
    match i
    case SomeoneJoined(clock, seat, listing, seals) =>
      var t := s.(host := Some(SeatJoined(s.host.value, seat)), view := s.view.(roster := s.view.roster + {seat}),
                  holds := s.holds.(at := None));
      if t.host.value.standing == Live {
        StatePublishingTells(t, clock, RosterChange, listing, seals);
        var u := PublishState(t, clock, RosterChange, listing, seals);
        HoldingExtends(u, clock);
        OnlyAppends(u, AnnounceHolds(u, clock));
        SmallStepsKeepReplica(u, clock);
        ToldStays(s, t, u, AnnounceHolds(u, clock), t.host.value, listing);
      }
    case SomeoneLeft(clock, seat, listing, seals) =>
      var t := s.(host := Some(SeatLeft(s.host.value, seat)), view := s.view.(roster := s.view.roster - {seat}));
      var u := RefreshHostAway(t, clock, false);
      if t.host.value.standing == Live {
        StatePublishingTells(u, clock, RosterChange, listing, seals);
        var v := PublishState(u, clock, RosterChange, listing, seals);
        ToldStays(s, u, v, v, t.host.value, listing);
      }
    case ListingChanged(clock, listing, seals) =>
      if s.host.value.standing == Live {
        StatePublishingTells(s, clock, ListingChange, listing, seals);
      }
    case _ =>
  }

  /**
   An announcement heard is answered by the first tick with the window open: a live host that owes an
   answer tells the room then, with every key it has committed on a seat of the roster.
   */
  lemma AnAnswerIsToldByATick(s: Session, clock: nat, listing: seq<Path>)
    requires s.host.Some? && s.host.value.standing == Live && s.host.value.owed
    requires s.host.value.windowFrom.None? || s.host.value.windowFrom.value + s.host.value.config.renew <= clock
    requires s.ending.None? && Tick(s, clock, listing, true).ending.None?
    ensures Told(s, s.host.value, Tick(s, clock, listing, true), listing)
  {
    hide PublishState, RequestSync, AnnounceKey, AnnounceHolds, Housekept, SaysTheRoom;
    DebtsPaid.TickOf(s, clock, listing, true);
    DebtsPaid.HousekeptDebts(s, clock);
    DebtsPaid.HousekeptHost(s, clock);
    var h := Housekept(s, clock);
    FlushingKeepsTheRoom(s.host.value, clock, listing);
    StatePublishingTells(h, clock, Announced, listing, true);
    var a := PublishState(h, clock, Announced, listing, true);
    AnnouncingExtends(a, clock);
    ExtendsItself(a, a);
    var b := Reannounce(a, clock);
    OnlyAppends(a, b);
    SmallStepsKeepReplica(a, clock);
    RequestExtends(b, clock);
    ExtendsItself(b, b);
    var c := Resync(b, clock);
    OnlyAppends(b, c);
    SmallStepsKeepReplica(b, clock);
    HoldingExtends(c, clock);
    OnlyAppends(c, AnnounceHolds(c, clock));
    SmallStepsKeepReplica(c, clock);
    ToldStays(h, h, a, AnnounceHolds(c, clock), h.host.value, listing);
    ToldAlike(s, h, AnnounceHolds(c, clock), listing);
  }

  lemma FlushingKeepsTheRoom(h: Host, clock: nat, listing: seq<Path>)
    ensures var f := FlushFrames(h, clock);
            && f.series == h.series && f.seating == h.seating && f.config == h.config && f.standing == h.standing
            && f.owed == h.owed && f.windowFrom == h.windowFrom
  {
  }

  lemma ToldAlike(s: Session, h: Session, t: Session, listing: seq<Path>)
    requires s.host.Some? && h.host.Some?
    requires h.host.value.series == s.host.value.series && h.host.value.seating == s.host.value.seating
    requires h.host.value.config == s.host.value.config && h.wire == s.wire && Told(h, h.host.value, t, listing)
    ensures Told(s, s.host.value, t, listing)
  {
    forall frame <- Added(h, t) | SaysTheRoom(h.host.value, frame, listing) ensures SaysTheRoom(s.host.value, frame, listing) {
    }
  }

  lemma ToldStays(s: Session, t: Session, u: Session, v: Session, h: Host, listing: seq<Path>)
    requires s.wire == t.wire && Told(t, h, u, listing) && u.wire.outbound <= v.wire.outbound
    requires v.reader == u.reader && v.view.stateIssued == u.view.stateIssued
    ensures Told(s, h, v, listing)
  {
    hide SaysTheRoom;
    forall frame <- Added(t, u) ensures frame in Added(s, v) {
    }
  }

  /** A closing of the host's own, above every edition it has told or verified. */
  predicate Closes(h: Host, frame: Frame) {
    && frame.Frame? && frame.kind == 2 && frame.signer == Some(h.config.hostKey) && frame.opens
    && frame.body.ClosingBody? && frame.body.closing && h.series.issued < frame.body.issued && h.series.verified < frame.body.issued
  }

  /** A host that has closed writes the room's count as it then stands, if it has a store to write. */
  predicate IsSaved(h: Host) {
    h.config.hasStore ==> h.saving.frames == h.saving.savedFrames
  }

  /**
   The end of a room at its host's word: one closing, the session ended with it and the count written;
   and a closing that cannot be sealed, or is not the host's to give, ends nothing.
   */
  lemma ARoomIsClosedOnce(s: Session, seals: bool)
    requires s.host.Some?
    ensures var t := Step(s, RoomClosed(seals));
            && t.host.Some? && s.wire.outbound <= t.wire.outbound
            && if s.host.value.standing == Live && seals then
                 && |Added(s, t)| == 1 && Closes(s.host.value, Added(s, t)[0])
                 && t.ending == Some(ClosedRoom) && t.host.value.standing == Closed && IsSaved(t.host.value)
               else Added(s, t) == [] && t.ending == s.ending && t.host.value.standing == s.host.value.standing
  {
  }

  /** A budget that is spent ends the session, and a live host's room with it, in one closing. */
  lemma ASpentBudgetCloses(s: Session, clock: nat, listing: seq<Path>, seals: bool)
    requires s.host.Some? && s.ending.None? && s.who.budget <= s.wire.roomFrames
    ensures var t := Tick(s, clock, listing, seals);
            && t.ending == Some(BudgetSpent) && t.host.Some? && IsSaved(t.host.value) && s.wire.outbound <= t.wire.outbound
            && if s.host.value.standing == Live && seals then |Added(s, t)| == 1 && Closes(s.host.value, Added(s, t)[0])
               else Added(s, t) == []
  {
    hide HostSeat;
  }

  /** A state a session applies is one its host half will never number below. */
  lemma AStateIsVerified(s: Session, clock: nat, issued: nat)
    requires s.host.Some?
    ensures StateNoted(s, clock, issued).host.Some? && issued <= StateNoted(s, clock, issued).host.value.series.verified
  {
    hide HostSeat, Writers;
  }
}
