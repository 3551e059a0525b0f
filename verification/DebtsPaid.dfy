/**
 That what is owed is paid: a request a session owes stands until one goes out or a state retires
 it, and the first tick that is due sends it.
 */
module DebtsPaid {
  import opened Options
  import opened Replica
  import opened Frames
  import opened Sealed
  import opened Producer
  import opened Session
  import opened SessionFrames
  import opened Speculation
  import opened SyncDebts
  import Quiescence
  import Sharing

  // --- a debt stands -------------------------------------------------------------------------

  /**
   No debt of `s` is gone in `t` but by a state: a re-sync stands whatever happens, a peer's while
   that peer is a writer, and the session's own readiness while it is one.
   */
  ghost predicate Stands(s: Session, t: Session) {
    && (s.debts.resyncFrom.Some? ==> t.debts.resyncFrom.Some?)
    && (forall k <- s.debts.pending :: k in t.debts.pending || k !in Writers(t.reader.committed))
    && (s.debts.readiness ==> t.debts.readiness || !IsWriter(t))
  }

  ghost predicate Owing(s: Session, t: Session) {
    Extends(s, t) && (Asked(s, t) == 0 ==> Stands(s, t))
  }

  lemma OwingChains(s: Session, t: Session, u: Session)
    requires Owing(s, t) && Owing(t, u)
    requires t.debts == s.debts || u.reader.committed == t.reader.committed
    ensures Owing(s, u)
  {
    hide Extends, Writers;
    AskedAdds(s, t, u);
    SameWho(t, u);
  }

  lemma SameWho(s: Session, t: Session)
    requires Extends(s, t)
    ensures t.who == s.who && s.wire.outbound <= t.wire.outbound
  {
  }

  lemma QuietOwing(s: Session, t: Session)
    requires Quiet(s, t)
    ensures Owing(s, t)
  {
  }

  lemma ItselfOwing(s: Session, t: Session)
    requires t.who == s.who && t.host == s.host && t.wire == s.wire && (Sane(s) ==> Sane(t))
    requires Stands(s, t)
    ensures Owing(s, t)
  {
    ExtendsItself(s, t);
  }

  lemma RequestOwing(s: Session, clock: nat)
    ensures Owing(s, RequestSync(s, clock)) && RequestSync(s, clock).reader == s.reader
  {
    var body := StreamBody([SyncStep1(StateVector(PublicationDoc(s)))]);
    PublishingExtends(s, Syncing, body);
    CountOne(OwnFrame(s, Syncing, s.wire.counter + 1, body), AsksSync);
    RequestExtends(s, clock);
  }

  lemma ResyncOwing(s: Session, clock: nat)
    ensures Owing(s, Resync(s, clock)) && Resync(s, clock).reader == s.reader
  {
    hide RequestSync;
    QuietItself(s, s);
    RequestOwing(s, clock);
  }

  lemma NotingOwing(s: Session, clock: nat, issued: nat)
    ensures Owing(s, StateNoted(s, clock, issued)) && StateNoted(s, clock, issued).reader == s.reader
  {
    hide HostSeat;
    NotingExtends(s, clock, issued);
  }

  lemma AfterStateOwing(s: Session, clock: nat, issued: nat)
    ensures Owing(s, AfterState(s, clock, issued)) && AfterState(s, clock, issued).reader == s.reader
  {
    hide StateNoted, RequestSync, FlushHeldBack, AnnounceHolds, AnnounceKey, ResolveSpeculation, Quiet, Owing;
    AfterStateShape(s, clock, issued);
    AfterStateKeepsReader(s, clock, issued);
    var a := StateNoted(s, clock, issued);
    NotingOwing(s, clock, issued);
    var b: Session;
    if CommitsOurs(a) {
      var r := ResolveSpeculation(a);
      ResolvingQuiet(a);
      QuietOwing(a, r);
      ResolvingKeepsReader(a);
      OwingChains(s, a, r);
      var c := HandshakeOnce(r, clock);
      QuietItself(r, r);
      QuietOwing(r, r);
      RequestOwing(r, clock);
      OwingChains(s, r, c);
      b := FlushHeldBack(c);
      FlushingQuiet(c);
      QuietOwing(c, b);
      FlushingKeepsReader(c);
      OwingChains(s, c, b);
    } else {
      b := AnnounceKey(a, clock);
      SmallStepsQuiet(a, clock);
      QuietOwing(a, b);
      SmallStepsKeepReplica(a, clock);
      OwingChains(s, a, b);
    }
    SmallStepsQuiet(b, clock);
    QuietOwing(b, AnnounceHolds(b, clock));
    SmallStepsKeepReplica(b, clock);
    OwingChains(s, b, AnnounceHolds(b, clock));
  }

  lemma StatePublishingOwing(s: Session, clock: nat, reason: HostReason, listing: seq<Path>, seals: bool)
    requires Sane(s)
    ensures Owing(s, PublishState(s, clock, reason, listing, seals))
  {
    hide AfterState, Publish, Quiet, Owing, Extends, NewStateFolded;
    var next := PublishState(s, clock, reason, listing, seals);
    QuietItself(s, s);
    QuietOwing(s, s);
    if s.wire.roomFrames < s.who.budget && s.host.Some? {
      HostPublishes(s.host.value, clock, reason, listing, seals);
      PublishStateShape(s, clock, reason, listing, seals);
      StatePublishingExtends(s, clock, reason, listing, seals);
      var (h, out) := Publish(s.host.value, clock, reason, listing, seals);
      if out.None? {
        HostNotedQuiet(s, next);
        QuietOwing(s, next);
      } else if !out.value.isNew {
        OldStateExtends(s, h, out.value);
        StateFrameQuiet(s, next, out.value.frame);
        QuietOwing(s, next);
      } else {
        var w := NewStateFolded(s, h, out.value);
        NewStateExtends(s, h, out.value);
        FoldedDebts(s, h, out.value);
        StateFrameQuiet(s, w, out.value.frame);
        QuietOwing(s, w);
        AfterStateOwing(w, clock, out.value.issued);
        OwingChains(s, w, next);
      }
    }
  }

  lemma FoldedDebts(s: Session, h: Host, out: Publication)
    requires out.state.Some?
    ensures NewStateFolded(s, h, out).debts == s.debts
  {
  }

  lemma ReadingOwing(s: Session, messages: seq<Message>, verified: PublicKey)
    ensures Owing(s, ApplyContent(s, messages, verified)) && ApplyContent(s, messages, verified).reader == s.reader
  {
    hide ApplyStream, SendReplies, Writers, Quiet, Extends;
    QuietItself(s, s);
    QuietOwing(s, s);
    var answers := MayPublish(s) && IsWriter(s);
    var read := ApplyStream(PublicationDoc(s), answers, messages);
    RepliesNeverAsk(ReadState(PublicationDoc(s), [], false), answers, messages);
    assert forall m <- read.replies :: m.SyncStep2? by { ApplyStreamReads(PublicationDoc(s), answers, messages); }
    var t := ReadInto(s, messages, answers);
    var u := if read.requested then ArmReciprocal(t, verified) else t;
    SaneAlike(s, u);
    ItselfOwing(s, u);
    ReplyingQuiet(u, read.replies);
    QuietOwing(u, SendReplies(u, read.replies));
    ReplyingKeepsReplica(u, read.replies);
    OwingChains(s, u, SendReplies(u, read.replies));
  }

  lemma SaneAlike(s: Session, t: Session)
    requires t.host == s.host && t.view == s.view
    ensures Sane(s) ==> Sane(t)
  {
  }

  lemma DeliveringOwing(s: Session, clock: nat, frame: Frame, listing: seq<Path>, seals: bool)
    requires Sane(s)
    ensures Owing(s, Deliver(s, clock, frame, listing, seals))
  {
    hide Read, ApplyContent, AfterState, PublishState, Announce, Quiet, Owing, Extends;
    var t := CountFrame(s);
    var v := Judge(t.reader, frame);
    var next := Deliver(s, clock, frame, listing, seals);
    DeliveringExtends(s, clock, frame, listing, seals);
    if v.Refused? || (v.kind == 2 && t.view.stateIssued.None?) {
      UnsentOwing(s, next);
    } else {
      var u := t.(reader := Read(t.reader, frame),
                  view := if v.kind == 1 then t.view.(heldState := Some(frame)) else t.view);
      CountingExtends(s);
      ExtendsLoosely(s, t, s, u);
      UnsentOwing(s, u);
      match v.kind {
        case 0 =>
          ReadingOwing(u, Stream(v.body), v.key);
          OwingChains(s, u, next);
        case 1 =>
          AfterStateOwing(u, clock, v.body.state.issued);
          OwingChains(s, u, next);
        case 4 =>
          if u.host.Some? {
            HostHears(u.host.value, v.body.key, v.body.declared);
            var w := u.(host := Some(Announce(u.host.value, v.body.key, v.body.declared)));
            HeardQuiet(u, w);
            QuietOwing(u, w);
            OwingChains(s, u, w);
            StatePublishingOwing(w, clock, Announced, listing, seals);
            OwingChains(s, w, next);
          }
        case _ =>
          QuietItself(u, next);
          QuietOwing(u, next);
          OwingChains(s, u, next);
      }
    }
  }

  lemma UnsentOwing(s: Session, t: Session)
    requires Extends(s, t)
    requires t.debts == s.debts || (t.debts == s.debts.(resyncFrom := t.debts.resyncFrom) && t.debts.resyncFrom.Some?)
    ensures Owing(s, t)
  {
  }

  lemma TickingOwing(s: Session, clock: nat, listing: seq<Path>, seals: bool)
    requires Sane(s)
    ensures Owing(s, Tick(s, clock, listing, seals))
  {
    hide PublishState, Reannounce, Resync, AnnounceHolds, AnnounceKey, SpendBudget, Housekept, Extends, Quiet, Owing;
    var t, next := Housekept(s, clock), Tick(s, clock, listing, seals);
    HousekeepingQuiet(s, clock);
    QuietOwing(s, t);
    HousekeptDebts(s, clock);
    if t.ending.None? {
      if t.who.budget <= t.wire.roomFrames {
        SpendingQuiet(t, seals);
        QuietOwing(t, next);
      } else if WindowPassed(t, clock).Some? {
        QuietItself(t, next);
        QuietOwing(t, next);
      } else {
        var a := PublishState(t, clock, Announced, listing, seals);
        StatePublishingOwing(t, clock, Announced, listing, seals);
        var b := Reannounce(a, clock);
        SmallStepsQuiet(a, clock);
        QuietOwing(a, b);
        ReannouncingKeepsReader(a, clock);
        OwingChains(t, a, b);
        var c := Resync(b, clock);
        ResyncOwing(b, clock);
        OwingChains(t, b, c);
        SmallStepsQuiet(c, clock);
        QuietOwing(c, next);
        SmallStepsKeepReplica(c, clock);
        OwingChains(t, c, next);
      }
      OwingChains(s, t, next);
    }
  }

  lemma HousekeptDebts(s: Session, clock: nat)
    ensures var t := Housekept(s, clock);
            && t.debts == s.debts && t.reader == s.reader && t.ending == s.ending && t.who == s.who && t.wire == s.wire
            && t.replica == s.replica && t.view.stateIssued == s.view.stateIssued
  {
    hide HostSeat;
  }

  lemma ReannouncingKeepsReader(s: Session, clock: nat)
    ensures Reannounce(s, clock).reader == s.reader
  {
    SmallStepsKeepReplica(s, clock);
  }

  lemma JoiningOwing(s: Session, clock: nat, seat: Seat, listing: seq<Path>, seals: bool)
    requires Sane(s)
    ensures Owing(s, SeatJoins(s, clock, seat, listing, seals))
  {
    hide PublishState, AnnounceHolds, HostSeat, AddSeat, Quiet, Owing;
    var t := s.(host := if s.host.Some? then Some(SeatJoined(s.host.value, seat)) else None,
                view := s.view.(roster := s.view.roster + {seat}),
                holds := s.holds.(at := None));
    assert Added(s, t) == [];
    HostNotedQuiet(s, t);
    QuietOwing(s, t);
    var u := if t.host.Some? then PublishState(t, clock, RosterChange, listing, seals)
             else if HostIsAway(t) then Republish(t) else t;
    if t.host.Some? {
      StatePublishingOwing(t, clock, RosterChange, listing, seals);
    } else {
      RepublishingQuiet(t);
      QuietItself(t, t);
      QuietOwing(t, u);
    }
    OwingChains(s, t, u);
    SmallStepsQuiet(u, clock);
    QuietOwing(u, AnnounceHolds(u, clock));
    SmallStepsKeepReplica(u, clock);
    OwingChains(s, u, AnnounceHolds(u, clock));
  }

  lemma LeavingOwing(s: Session, clock: nat, seat: Seat, listing: seq<Path>, seals: bool)
    requires Sane(s)
    ensures Owing(s, SeatLeaves(s, clock, seat, listing, seals))
  {
    hide PublishState, HostSeat, DropSeat, DropLabel, Quiet, Owing;
    var t := s.(host := if s.host.Some? then Some(SeatLeft(s.host.value, seat)) else None,
                view := s.view.(roster := s.view.roster - {seat}));
    var u := RefreshHostAway(t, clock, false);
    assert Added(s, u) == [];
    HostNotedQuiet(s, u);
    QuietOwing(s, u);
    StatePublishingOwing(u, clock, RosterChange, listing, seals);
    OwingChains(s, u, PublishState(u, clock, RosterChange, listing, seals));
  }

  /** Every step: what is owed is gone only by a request, or by a state that retires it. */
  lemma OnlyARequestPays(s: Session, i: Input)
    requires Sane(s) && !i.Taken?
    ensures Owing(s, Step(s, i))
  {
    hide Deliver, Tick, Insert, SeatJoins, SeatLeaves, PublishState, AnnounceHolds, CloseRoom, Extends, Quiet, Owing;
    match i
    case Delivered(clock, frame, listing, seals) => DeliveringOwing(s, clock, frame, listing, seals);
    case Ticked(clock, listing, seals) => TickingOwing(s, clock, listing, seals);
    case Inserted(payload, fits) =>
      InsertingQuiet(s, payload, fits);
      QuietOwing(s, Step(s, i));
    case SomeoneJoined(clock, seat, listing, seals) => JoiningOwing(s, clock, seat, listing, seals);
    case SomeoneLeft(clock, seat, listing, seals) => LeavingOwing(s, clock, seat, listing, seals);
    case ListingChanged(clock, listing, seals) => StatePublishingOwing(s, clock, ListingChange, listing, seals);
    case Held(clock, held) =>
      var t := s.(holds := s.holds.(held := held));
      QuietItself(s, t);
      SmallStepsQuiet(t, clock);
      QuietChains(s, t, AnnounceHolds(t, clock));
      QuietOwing(s, AnnounceHolds(t, clock));
    case RoomClosed(seals) =>
      ClosingQuiet(s, seals);
      QuietOwing(s, CloseRoom(s, seals));
  }

  // --- a due tick ------------------------------------------------------------------------------

  /** A request is owed, and the last one is a renewal old; the first one waits for nothing. */
  predicate DueAt(s: Session, clock: nat) {
    || s.debts.handshakenAt.None?
    || ((s.debts.resyncFrom.Some? || s.debts.pending != {} || s.debts.readiness)
        && (s.debts.handshakenAt.value + s.who.renew <= clock || s.who.renew == 0))
  }

  predicate NothingOwed(s: Session) {
    s.debts.resyncFrom.None? && s.debts.pending == {} && !s.debts.readiness
  }

  /** The request a session would seal next: its whole publication replica's vector. */
  ghost function NextRequest(s: Session): Frame {
    Frame.Frame(s.who.me.id, 0, 0, s.wire.counter + 1, Some(s.who.me), true, StreamBody([SyncStep1(StateVector(PublicationDoc(s)))]))
  }

  /** A host with no new edition changes nothing a request is built from. */
  lemma OldStateAsksNothing(s: Session, clock: nat, reason: HostReason, listing: seq<Path>, seals: bool)
    requires Sane(s) && Quiescence.NothingNew(s.host, clock, reason, listing, seals)
    ensures var t := PublishState(s, clock, reason, listing, seals);
            && Quiet(s, t) && t.reader == s.reader && t.who == s.who && t.replica == s.replica && t.ending == s.ending
            && t.wire.counter == s.wire.counter && t.wire.roomFrames == s.wire.roomFrames && t.view == s.view
  {
    hide AfterState, Publish, Extends;
    var next := PublishState(s, clock, reason, listing, seals);
    QuietItself(s, s);
    if s.wire.roomFrames < s.who.budget && s.host.Some? {
      HostPublishes(s.host.value, clock, reason, listing, seals);
      PublishStateShape(s, clock, reason, listing, seals);
      StatePublishingExtends(s, clock, reason, listing, seals);
      var (h, out) := Publish(s.host.value, clock, reason, listing, seals);
      if out.None? {
        HostNotedQuiet(s, next);
      } else {
        OldStateExtends(s, h, out.value);
        StateFrameQuiet(s, next, out.value.frame);
      }
    }
  }

  lemma RequestExactly(s: Session, clock: nat)
    requires MayPublish(s) && s.wire.roomFrames < s.who.budget
    ensures var t := RequestSync(s, clock);
            && Extends(s, t) && t.reader == s.reader
            && if s.wire.counter + 1 !in s.who.unsealable
               then Added(s, t) == [NextRequest(s)] && NothingOwed(t) && t.debts.handshakenAt == Some(clock)
               else Added(s, t) == [] && t.debts == s.debts
  {
    hide StateVector, Extends;
    var body := StreamBody([SyncStep1(StateVector(PublicationDoc(s)))]);
    PublishingExtends(s, Syncing, body);
    RequestExtends(s, clock);
  }

  /** Exactly what the re-sync half of a tick does to a session that may publish. */
  lemma ResyncExactly(s: Session, clock: nat)
    requires MayPublish(s) && s.wire.roomFrames < s.who.budget
    ensures var t := Resync(s, clock);
            && Extends(s, t) && t.reader == s.reader
            && if DueAt(s, clock) && s.wire.counter + 1 !in s.who.unsealable
               then Added(s, t) == [NextRequest(s)] && NothingOwed(t) && t.debts.handshakenAt == Some(clock)
               else Added(s, t) == [] && t.debts == s.debts
  {
    hide RequestSync, Extends, NextRequest;
    RequestExactly(s, clock);
    ExtendsItself(s, s);
    assert Added(s, s) == [];
  }

  /** The wire of a tick, part by part: only the re-sync may ask. */
  lemma AskedOfParts(s: Session, a: Session, c: Session, t: Session)
    requires Quiet(s, a) && Extends(a, c) && Quiet(c, t)
    ensures Extends(s, t) && s.wire.outbound <= t.wire.outbound && a.wire.outbound <= c.wire.outbound
    ensures Asked(s, t) == Count(Added(a, c), AsksSync)
    ensures forall f <- Added(a, c) :: f in Added(s, t)
  {
    hide Extends;
    AskedAdds(s, a, c);
    AskedAdds(s, c, t);
    ExtendsChains(s, a, c);
    ExtendsChains(s, c, t);
  }

  /**
   A tick asks if and only if a request is due and its attempt can be sealed: then it queues the one
   request, with the publication replica's whole vector, and nothing is owed any more; otherwise it
   queues none and every debt stands. So for every session that may publish, lives past the tick
   and has no new edition of its own to publish first.
   */
  lemma ATickAsksExactly(s: Session, clock: nat, listing: seq<Path>, seals: bool)
    requires Sane(s) && MayPublish(s) && Quiescence.Steady(s, Ticked(clock, listing, seals))
    requires Tick(s, clock, listing, seals).ending.None?
    ensures var t := Tick(s, clock, listing, seals);
            && s.wire.outbound <= t.wire.outbound
            && if DueAt(s, clock) && s.wire.counter + 1 !in s.who.unsealable
               then Asked(s, t) == 1 && NextRequest(s) in Added(s, t) && NothingOwed(t) && t.debts.handshakenAt == Some(clock)
               else Asked(s, t) == 0 && t.debts == s.debts
  {
    hide Tick, PublishState, Resync, AnnounceHolds, Housekept, Extends, Quiet, Quiescence.NothingNew, DueAt, NothingOwed, NextRequest;
    var h := Housekept(s, clock);
    HousekeepingQuiet(s, clock);
    HousekeptDebts(s, clock);
    HousekeptHost(s, clock);
    TickOf(s, clock, listing, seals);
    var a := PublishState(h, clock, Announced, listing, seals);
    OldStateAsksNothing(h, clock, Announced, listing, seals);
    QuietChains(s, h, a);
    QuietMeans(s, a);
    var c := Resync(a, clock);
    ResyncExactly(a, clock);
    DueAlike(s, a, clock);
    SmallStepsQuiet(c, clock);
    AnnouncingHoldsKeepsDebts(c, clock);
    AskedOfParts(s, a, c, AnnounceHolds(c, clock));
    CountOne(NextRequest(s), AsksSync);
    RequestsAsk(s);
  }

  lemma QuietMeans(s: Session, t: Session)
    requires Quiet(s, t)
    ensures t.debts == s.debts && t.who == s.who
  {
  }

  lemma RequestsAsk(s: Session)
    ensures AsksSync(NextRequest(s)) && Count([], AsksSync) == 0
  {
  }

  lemma HousekeptHost(s: Session, clock: nat)
    ensures Housekept(s, clock).host == (if s.host.Some? then Some(FlushFrames(s.host.value, clock)) else None)
  {
    hide HostSeat;
  }

  lemma DueAlike(s: Session, t: Session, clock: nat)
    requires t.debts == s.debts && t.who == s.who && t.replica == s.replica && t.wire.counter == s.wire.counter
    ensures (DueAt(s, clock) <==> DueAt(t, clock)) && NextRequest(t) == NextRequest(s)
  {
  }

  lemma AnnouncingHoldsKeepsDebts(s: Session, clock: nat)
    ensures AnnounceHolds(s, clock).debts == s.debts && AnnounceHolds(s, clock).ending == s.ending
    ensures NothingOwed(AnnounceHolds(s, clock)) <==> NothingOwed(s)
  {
  }

  /** The tick of a live session that a live one comes of. */
  lemma TickOf(s: Session, clock: nat, listing: seq<Path>, seals: bool)
    requires s.ending.None? && Tick(s, clock, listing, seals).ending.None?
    ensures var h := Housekept(s, clock);
            && h.wire.roomFrames < h.who.budget
            && Tick(s, clock, listing, seals) == PayDue(h, clock, listing, seals)
  {
    hide Housekept, PayDue;
    HousekeptDebts(s, clock);
  }

  /** A renewal has passed since the last request, or none ever went out. */
  predicate Renewed(s: Session, clock: nat) {
    s.debts.handshakenAt.None? || s.debts.handshakenAt.value + s.who.renew <= clock || s.who.renew == 0
  }

  /**
   A host that publishes on the same tick too: whatever the new state retires or takes on, a
   session that still works and is still committed when the tick is over owes nothing then.
   */
  lemma AWorkingTickOwesNothing(s: Session, clock: nat, listing: seq<Path>, seals: bool)
    requires Sane(s) && s.ending.None? && s.view.stateIssued.Some? && Renewed(s, clock)
    requires var t := Tick(s, clock, listing, seals); Sharing.Working(t) && CommitsOurs(t)
    ensures NothingOwed(Tick(s, clock, listing, seals))
  {
    hide Tick, PublishState, Resync, AnnounceHolds, Housekept, Extends, Quiet, Asks;
    var h := Housekept(s, clock);
    HousekeepingQuiet(s, clock);
    HousekeptDebts(s, clock);
    TickOf(s, clock, listing, seals);
    var a := PublishState(h, clock, Announced, listing, seals);
    StatePublishingAsks(h, clock, Announced, listing, seals);
    AskedClock(h, a, clock);
    PublishingKeepsHolding(h, clock, Announced, listing, seals);
    var b := Reannounce(a, clock);
    var c := Resync(b, clock);
    ReannouncingKeepsReader(a, clock);
    ResyncOwing(b, clock);
    SmallStepsKeepReplica(c, clock);
    SmallStepsQuiet(a, clock);
    SmallStepsQuiet(c, clock);
    ResyncAsks(b, clock);
    AsksMeansMore(b, c, clock);
    QuietMeans(c, AnnounceHolds(c, clock));
    QuietMeans(a, b);
    GrowsInBudget(c, AnnounceHolds(c, clock));
    assert CommitsOurs(b) && b == a;
    ResyncKeepsEnding(b, clock);
    if OwesRequest(b.debts) || b.debts.handshakenAt.None? {
      ResyncExactly(b, clock);
    }
    AnnouncingHoldsKeepsDebts(c, clock);
  }

  lemma AskedClock(s: Session, t: Session, clock: nat)
    requires Asks(s, t, clock)
    ensures s.wire.outbound <= t.wire.outbound && t.who == s.who
    ensures if Asked(s, t) == 0 then t.debts.handshakenAt == s.debts.handshakenAt else NothingOwed(t) && t.debts.handshakenAt == Some(clock)
  {
  }

  lemma AsksMeansMore(s: Session, t: Session, clock: nat)
    requires Asks(s, t, clock)
    ensures t.who == s.who && s.wire.roomFrames <= t.wire.roomFrames
  {
  }

  lemma GrowsInBudget(s: Session, t: Session)
    requires Quiet(s, t)
    ensures t.who == s.who && s.wire.roomFrames <= t.wire.roomFrames
  {
  }

  lemma ResyncKeepsEnding(s: Session, clock: nat)
    ensures Resync(s, clock).ending == s.ending
  {
  }

  /** Publishing leaves a session that held a state holding one, as live as it was. */
  lemma PublishingKeepsHolding(s: Session, clock: nat, reason: HostReason, listing: seq<Path>, seals: bool)
    requires s.view.stateIssued.Some?
    ensures PublishState(s, clock, reason, listing, seals).view.stateIssued.Some?
    ensures PublishState(s, clock, reason, listing, seals).ending == s.ending
  {
    hide AfterState, Publish, NewStateFolded;
    if s.wire.roomFrames < s.who.budget && s.host.Some? {
      PublishStateShape(s, clock, reason, listing, seals);
      var (h, out) := Publish(s.host.value, clock, reason, listing, seals);
      if out.Some? && out.value.isNew && out.value.state.Some? {
        FoldedEnding(s, h, out.value);
        AfterStateHolds(NewStateFolded(s, h, out.value), clock, out.value.issued);
      }
    }
  }

  lemma FoldedEnding(s: Session, h: Host, out: Publication)
    requires out.state.Some?
    ensures NewStateFolded(s, h, out).ending == s.ending
  {
  }

  lemma AfterStateHolds(s: Session, clock: nat, issued: nat)
    ensures AfterState(s, clock, issued).view.stateIssued.Some? && AfterState(s, clock, issued).ending == s.ending
  {
    hide RequestSync, AnnounceHolds, AnnounceKey, ResolveSpeculation, FlushHeldBack, HostSeat, Writers;
    AfterStateShape(s, clock, issued);
    var a := StateNoted(s, clock, issued);
    var r := ResolveSpeculation(a);
    ResolvingKeepsEnding(a);
    SmallStepsKeepReplica(r, clock);
    var c := HandshakeOnce(r, clock);
    FlushingKeepsEnding(c);
    SmallStepsKeepReplica(FlushHeldBack(c), clock);
    SmallStepsKeepReplica(a, clock);
    SmallStepsKeepReplica(AnnounceKey(a, clock), clock);
  }

  lemma ResolvingKeepsEnding(s: Session)
    ensures ResolveSpeculation(s).ending == s.ending && ResolveSpeculation(s).view == s.view
  {
  }

  lemma FlushingKeepsEnding(s: Session)
    ensures FlushHeldBack(s).ending == s.ending && FlushHeldBack(s).view == s.view
  {
    hide SendAll;
    var t := AcceptSpeculation(s);
    SendingKeepsReplica(t.(replica := t.replica.(unsent := [])), t.replica.unsent);
  }

  // --- whole runs --------------------------------------------------------------------------------

  datatype Debt = Refusal | Reciprocal(key: PublicKey) | Readiness

  predicate Owes(s: Session, d: Debt) {
    match d
    case Refusal => s.debts.resyncFrom.Some?
    case Reciprocal(key) => key in s.debts.pending
    case Readiness => s.debts.readiness
  }

  /** No state the session held in the run has retired the debt. */
  ghost predicate StillDue(s: Session, inputs: seq<Input>, d: Debt) {
    && (match d
        case Refusal => true
        case Reciprocal(key) => key in Writers(Run(s, inputs).reader.committed)
        case Readiness => IsWriter(Run(s, inputs)))
    && (inputs == [] || StillDue(s, inputs[..|inputs| - 1], d))
  }

  /** Until a request goes out, a debt no state retires is still owed, and its clock still runs. */
  lemma {:induction false} ADebtStands(s: Session, inputs: seq<Input>, d: Debt)
    requires Sane(s) && Owes(s, d) && StillDue(s, inputs, d) && s.debts.handshakenAt.Some?
    requires Count(Emitted(s, inputs), AsksSync) == 0
    ensures Owes(Run(s, inputs), d) && Run(s, inputs).debts.handshakenAt == s.debts.handshakenAt
    ensures Run(s, inputs).who == s.who
    decreases |inputs|
  {
    hide Step, Sane, Extends, Writers, IsWriter;
    if inputs != [] {
      var rest, last := inputs[..|inputs| - 1], inputs[|inputs| - 1];
      var t := Run(s, rest);
      var emitted := Emitted(s, rest);
      if last.Taken? {
        ADebtStands(s, rest, d);
        DrainingKeepsDebts(t);
      } else {
        StepExtends(t, last);
        ExtendsMeans(t, Step(t, last));
        CountAdds(emitted, Added(t, Step(t, last)), AsksSync);
        ADebtStands(s, rest, d);
        OnlyARequestPays(t, last);
        SameWho(t, Step(t, last));
        StepAsks(t, last, if ClockOf(last).Some? then ClockOf(last).value else 0);
      }
    }
  }

  /**
   Every debt is paid by the first tick that is due: let a session owe a request when its last one
   went out at some time, and run on in any way; by a tick a renewal later, a request has gone out,
   whatever the debt, unless a state retired it. And if it went out with the tick, nothing is owed.
   */
  lemma ADebtIsPaidByADueTick(s: Session, rest: seq<Input>, clock: nat, listing: seq<Path>, seals: bool, d: Debt)
    requires Sane(s) && Owes(s, d) && s.debts.handshakenAt.Some?
    requires s.debts.handshakenAt.value + s.who.renew <= clock
    requires var inputs := rest + [Ticked(clock, listing, seals)];
             && StillDue(s, inputs, d)
             && Run(s, rest).ending.None? && Run(s, rest).view.stateIssued.Some?
             && Sharing.Working(Run(s, inputs)) && CommitsOurs(Run(s, inputs))
    ensures var inputs := rest + [Ticked(clock, listing, seals)];
            && Count(Emitted(s, inputs), AsksSync) > 0
            && (Count(Emitted(s, rest), AsksSync) == 0 ==>
                  NothingOwed(Run(s, inputs)) && Run(s, inputs).debts.handshakenAt == Some(clock))
  {
    hide Step, Sane, Extends, Writers, IsWriter, Sharing.Working;
    var tick := Ticked(clock, listing, seals);
    var inputs := rest + [tick];
    assert inputs[..|inputs| - 1] == rest;
    var t := Run(s, rest);
    var emitted := Emitted(s, rest);
    StepExtends(t, tick);
    ExtendsMeans(t, Step(t, tick));
    CountAdds(emitted, Added(t, Step(t, tick)), AsksSync);
    if Count(emitted, AsksSync) == 0 {
      ADebtStands(s, rest, d);
      TickIsAStep(t, clock, listing, seals);
      AWorkingTickOwesNothing(t, clock, listing, seals);
      OnlyARequestPays(t, tick);
      SameWho(t, Step(t, tick));
      StepAsks(t, tick, clock);
      AskedClock(t, Step(t, tick), clock);
    }
  }

  lemma TickIsAStep(s: Session, clock: nat, listing: seq<Path>, seals: bool)
    ensures Step(s, Ticked(clock, listing, seals)) == Tick(s, clock, listing, seals)
  {
  }

  // --- how a debt arises -------------------------------------------------------------------------

  /** A content frame refused, for whatever reason, is owed a request; nothing else of it is kept. */
  lemma ARefusalIsOwedARequest(s: Session, clock: nat, frame: Frame, listing: seq<Path>, seals: bool)
    requires frame.Frame? && frame.kind == 0 && Judge(s.reader, frame).Refused?
    ensures var t := Deliver(s, clock, frame, listing, seals);
            && t.debts.resyncFrom == (if s.debts.resyncFrom.Some? then s.debts.resyncFrom else Some(clock))
            && t.replica == s.replica && t.reader == s.reader && t.wire.outbound == s.wire.outbound
  {
    RefusalsSayTheKind(s.reader, frame);
  }

  lemma RefusalsSayTheKind(r: ReaderState, frame: Frame)
    requires frame.Frame?
    ensures var v := Judge(r, frame);
            v.Refused? ==> v.claimed == Some(frame.kind)
  {
  }

  /** The debts as an applied state settles them, before anything is sent. */
  ghost predicate SettlesDebts(s: Session, t: Session) {
    && t.debts.served == s.debts.served * Writers(t.reader.committed)
    && t.debts.pending == s.debts.pending * Writers(t.reader.committed)
    && t.debts.readiness == (IsWriter(t) && (s.debts.readiness || (s.debts.handshakenAt.Some? && !IsWriterRole(s.debts.roleSeen))))
    && t.debts.roleSeen == OwnRole(t) && t.debts.resyncFrom == s.debts.resyncFrom && t.debts.handshakenAt == s.debts.handshakenAt
  }

  /**
   What a state does to the debts. One that is not the first to commit the key only settles them:
   debts to keys it makes no writers go, a key it makes a writer again after one handshake owes a
   request, and one it makes none owes it no more. The first to commit the key of a live session
   sends the first request at once, if the attempt seals, and then nothing is owed.
   */
  lemma AStateSettlesTheDebts(s: Session, clock: nat, issued: nat)
    ensures var t := AfterState(s, clock, issued);
            && t.reader == s.reader
            && (s.debts.handshakenAt.Some? || !CommitsOurs(s) ==> SettlesDebts(s, t))
            && (CommitsOurs(s) && s.ending.None? && s.debts.handshakenAt.None? && s.wire.roomFrames < s.who.budget ==>
                  && s.wire.outbound <= t.wire.outbound
                  && if s.wire.counter + 1 in s.who.unsealable then SettlesDebts(s, t)
                     else NothingOwed(t) && t.debts.handshakenAt == Some(clock) && Added(s, t) != [] && IsRequest(s, Added(s, t)[0]))
  {
    hide StateNoted, RequestSync, FlushHeldBack, AnnounceHolds, AnnounceKey, ResolveSpeculation, Quiet, Writers, Extends;
    AfterStateShape(s, clock, issued);
    AfterStateKeepsReader(s, clock, issued);
    AfterStateExtends(s, clock, issued);
    var a, t := StateNoted(s, clock, issued), AfterState(s, clock, issued);
    NotingSettles(s, clock, issued);
    if CommitsOurs(a) {
      var r := ResolveSpeculation(a);
      ResolvingQuiet(a);
      QuietMeans(a, r);
      ResolvingKeepsTheRest(a);
      var c := HandshakeOnce(r, clock);
      FlushingQuiet(c);
      QuietMeans(c, FlushHeldBack(c));
      SmallStepsQuiet(FlushHeldBack(c), clock);
      QuietMeans(FlushHeldBack(c), t);
      AskedAdds(c, FlushHeldBack(c), t) by { QuietExtends(c, FlushHeldBack(c)); QuietExtends(FlushHeldBack(c), t); }
      OnlyAdds(c, t);
      NothingOwedAlike(c, t);
      if r.debts.handshakenAt.None? && MayPublish(r) && r.wire.roomFrames < r.who.budget {
        RequestExactly(r, clock);
        OnlyAdds(r, c);
        FirstOfAdded(s, c, t, NextRequest(r));
      }
    } else {
      SmallStepsQuiet(a, clock);
      QuietMeans(a, AnnounceKey(a, clock));
      SmallStepsQuiet(AnnounceKey(a, clock), clock);
      QuietMeans(AnnounceKey(a, clock), t);
    }
  }

  /** A request of this session's next attempt, whatever of its replica it asks over. */
  ghost predicate IsRequest(s: Session, frame: Frame) {
    && frame.Frame? && frame.kind == 0 && frame.counter == s.wire.counter + 1 && frame.signer == Some(s.who.me)
    && exists doc :: frame.body == StreamBody([SyncStep1(StateVector(doc))])
  }

  lemma NotingSettles(s: Session, clock: nat, issued: nat)
    ensures var a := StateNoted(s, clock, issued);
            && SettlesDebts(s, a) && a.reader == s.reader && a.wire == s.wire && a.who == s.who && a.ending == s.ending
            && a.view.stateIssued.Some?
  {
    hide HostSeat;
  }

  lemma ResolvingKeepsTheRest(s: Session)
    ensures var r := ResolveSpeculation(s);
            r.reader == s.reader && r.wire == s.wire && r.who == s.who && r.ending == s.ending && r.view == s.view
  {
  }

  lemma QuietExtends(s: Session, t: Session)
    requires Quiet(s, t)
    ensures Extends(s, t)
  {
  }

  lemma OnlyAdds(s: Session, t: Session)
    requires Extends(s, t)
    ensures s.wire.outbound <= t.wire.outbound
  {
  }

  lemma NothingOwedAlike(s: Session, t: Session)
    requires t.debts == s.debts
    ensures NothingOwed(t) <==> NothingOwed(s)
  {
  }

  lemma FirstOfAdded(s: Session, c: Session, t: Session, frame: Frame)
    requires s.wire.outbound <= c.wire.outbound <= t.wire.outbound
    ensures Added(s, c) == [frame] ==> Added(s, t) != [] && Added(s, t)[0] == frame
  {
  }
}
