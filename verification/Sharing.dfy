/**
 What one step shares while a state stands: an edit leaves with the step that makes it, what is
 heard joins the replica, and a request is answered with every atom its vector is short of.
 */
module Sharing {
  import opened Options
  import opened Replica
  import opened Frames
  import opened Sealed
  import opened Producer
  import opened Session
  import opened SessionFrames
  import opened Speculation
  import opened Quiescence
  import opened Room

  // --- what frames carry and ask for ---------------------------------------------------------

  predicate OneMessage(frame: Frame) {
    frame.Frame? && frame.kind == 0 && frame.body.StreamBody? && |frame.body.messages| == 1
  }

  function Carried(frame: Frame): set<Atom> {
    if OneMessage(frame) && CarriesContent(frame.body.messages[0]) && frame.body.messages[0].delta.Atoms?
    then frame.body.messages[0].delta.atoms else {}
  }

  function CarriedBy(frames: seq<Frame>): set<Atom> {
    set f <- frames, a <- Carried(f) :: a
  }

  /** A request whose vector is short of `a`. */
  predicate Asks(frame: Frame, a: Atom) {
    OneMessage(frame) && frame.body.messages[0].SyncStep1? && Known(frame.body.messages[0].vector, a.client) <= a.clock
  }

  lemma CarriedAdds(left: seq<Frame>, right: seq<Frame>)
    ensures CarriedBy(left + right) == CarriedBy(left) + CarriedBy(right)
  {
  }

  // --- a step that shares nothing --------------------------------------------------------------

  /** The replica stands, no content leaves, and an ended session stays ended. */
  ghost predicate Quiet(s: Session, t: Session) {
    Extends(s, t) && t.replica == s.replica && CarriedBy(Added(s, t)) == {} && (s.ending.Some? ==> t.ending.Some?)
  }

  lemma QuietItself(s: Session, t: Session)
    requires t.who == s.who && t.host == s.host && t.wire == s.wire && (Sane(s) ==> Sane(t))
    requires t.replica == s.replica && (s.ending.Some? ==> t.ending.Some?)
    ensures Quiet(s, t)
  {
    ExtendsItself(s, t);
    assert Added(s, t) == [];
  }

  lemma QuietChains(s: Session, t: Session, u: Session)
    requires Quiet(s, t) && Quiet(t, u)
    ensures Quiet(s, u)
  {
    hide CarriedBy;
    ExtendsChains(s, t, u);
    CarriedAdds(Added(s, t), Added(t, u));
  }

  /** A step that adds nothing, or one frame that is neither an edit nor an answer. */
  lemma QuietFrame(s: Session, t: Session, frame: Frame)
    requires Extends(s, t) && (Added(s, t) == [frame] || Added(s, t) == []) && Carried(frame) == {}
    requires t.replica == s.replica && (s.ending.Some? ==> t.ending.Some?)
    ensures Quiet(s, t)
  {
  }

  lemma PublishingQuiet(s: Session, what: Kind, body: Body)
    requires !IsContent(body)
    ensures Quiet(s, PublishFrame(s, what, body).0)
  {
    PublishingExtends(s, what, body);
    PublishingKeepsReplica(s, what, body);
    QuietFrame(s, PublishFrame(s, what, body).0, OwnFrame(s, what, s.wire.counter + 1, body));
  }

  lemma SmallStepsQuiet(s: Session, clock: nat)
    ensures Quiet(s, Resync(s, clock)) && Quiet(s, AnnounceHolds(s, clock))
  {
    hide PublishFrame, Quiet;
    var asking := StreamBody([SyncStep1(StateVector(PublicationDoc(s)))]);
    QuietItself(s, s);
    PublishingQuiet(s, Syncing, asking);
    QuietItself(PublishFrame(s, Syncing, asking).0, RequestSync(s, clock));
    QuietChains(s, PublishFrame(s, Syncing, asking).0, RequestSync(s, clock));
    PublishingQuiet(s, Holding, HoldsBody(s.holds.held));
    var t := PublishFrame(s, Holding, HoldsBody(s.holds.held)).0;
    var u := t.(holds := HoldsSent(t.holds.held, t.holds.held, Some(clock)));
    QuietItself(t, u);
    QuietChains(s, t, u);
  }

  lemma StatePublishingQuiet(s: Session, clock: nat, reason: HostReason, listing: seq<Path>, seals: bool)
    requires Sane(s) && NothingNew(s.host, clock, reason, listing, seals)
    ensures Quiet(s, PublishState(s, clock, reason, listing, seals))
  {
    hide AfterState, Publish, Extends;
    var next := PublishState(s, clock, reason, listing, seals);
    QuietItself(s, s);
    if s.wire.roomFrames < s.who.budget && s.host.Some? {
      HostPublishes(s.host.value, clock, reason, listing, seals);
      PublishStateShape(s, clock, reason, listing, seals);
      StatePublishingExtends(s, clock, reason, listing, seals);
      var (h, out) := Publish(s.host.value, clock, reason, listing, seals);
      if out.None? {
        assert Added(s, next) == [];
      } else {
        SameEditionHost(s.host.value, clock, reason, listing, seals);
        OldStateExtends(s, h, out.value);
        QuietFrame(s, next, out.value.frame);
      }
    }
  }

  lemma ClosesQuietly(s: Session, t: Session, seals: bool)
    requires s.host.Some? && Extends(s, t) && t.replica == s.replica && (s.ending.Some? ==> t.ending.Some?)
    requires var out := Close(s.host.value, seals).1;
             Added(s, t) == if out.None? then [] else [out.value.frame]
    ensures Quiet(s, t)
  {
    hide Close;
    HostCloses(s.host.value, seals);
  }

  lemma SpendingQuiet(s: Session, seals: bool)
    requires Sane(s) && s.who.budget <= s.wire.roomFrames
    ensures Quiet(s, SpendBudget(s, seals))
  {
    hide Close, Extends;
    SpendingExtends(s, seals);
    var t := SpendBudget(s, seals);
    if s.host.None? {
      assert Added(s, t) == [];
    } else {
      var out := Close(s.host.value, seals).1;
      assert Added(s, t) == if out.None? then [] else [out.value.frame];
      ClosesQuietly(s, t, seals);
    }
  }

  lemma ClosingQuiet(s: Session, seals: bool)
    requires Sane(s)
    ensures Quiet(s, CloseRoom(s, seals))
  {
    hide Close, Extends;
    ClosingExtends(s, seals);
    var t := CloseRoom(s, seals);
    QuietItself(s, s);
    if s.host.Some? {
      var out := Close(s.host.value, seals).1;
      assert Added(s, t) == if out.None? then [] else [out.value.frame];
      ClosesQuietly(s, t, seals);
    }
  }

  lemma HousekeepingQuiet(s: Session, clock: nat)
    requires Sane(s)
    ensures Quiet(s, Housekept(s, clock)) && Sane(Housekept(s, clock)) && Housekept(s, clock).reader == s.reader
  {
    hide HostSeat;
    HousekeepingExtends(s, clock);
    assert Added(s, Housekept(s, clock)) == [];
  }

  lemma TickingQuiet(s: Session, clock: nat, listing: seq<Path>, seals: bool)
    requires Sane(s) && CommitsOurs(s) && Steady(s, Ticked(clock, listing, seals))
    ensures Quiet(s, Tick(s, clock, listing, seals))
  {
    hide PublishState, Resync, AnnounceHolds, SpendBudget, NothingNew, Quiet, HostSeat;
    var t, next := Housekept(s, clock), Tick(s, clock, listing, seals);
    HousekeepingQuiet(s, clock);
    if t.ending.None? {
      if t.who.budget <= t.wire.roomFrames {
        SpendingQuiet(t, seals);
      } else if WindowPassed(t, clock).Some? {
        QuietItself(t, next);
      } else {
        var a := PublishState(t, clock, Announced, listing, seals);
        StatePublishingQuiet(t, clock, Announced, listing, seals);
        StatePublishingKeepsReader(t, clock, Announced, listing, seals);
        var c := Resync(a, clock);
        SmallStepsQuiet(a, clock);
        QuietChains(t, a, c);
        SmallStepsQuiet(c, clock);
        QuietChains(t, c, next);
      }
      QuietChains(s, t, next);
    }
  }

  lemma StatePublishingKeepsReader(s: Session, clock: nat, reason: HostReason, listing: seq<Path>, seals: bool)
    requires NothingNew(s.host, clock, reason, listing, seals)
    ensures var t := PublishState(s, clock, reason, listing, seals);
            t.reader == s.reader && t.who == s.who
  {
    hide AfterState, Publish;
  }

  lemma SeatingQuiet(s: Session, t: Session)
    requires Sane(s) && t.who == s.who && t.wire == s.wire && t.replica == s.replica && t.ending == s.ending
    requires t.view.heldState == s.view.heldState
    requires (t.host.Some? <==> s.host.Some?) && (s.host.Some? ==> t.host.value.series == s.host.value.series)
    ensures Quiet(s, t) && Sane(t)
  {
    assert Added(s, t) == [];
  }

  lemma JoiningQuiet(s: Session, clock: nat, seat: Seat, listing: seq<Path>, seals: bool)
    requires Sane(s) && Steady(s, SomeoneJoined(clock, seat, listing, seals))
    ensures Quiet(s, SeatJoins(s, clock, seat, listing, seals))
  {
    hide PublishState, AnnounceHolds, HostSeat, AddSeat, NothingNew, Quiet, Sane;
    var t := s.(host := if s.host.Some? then Some(SeatJoined(s.host.value, seat)) else None,
                view := s.view.(roster := s.view.roster + {seat}),
                holds := s.holds.(at := None));
    SeatingQuiet(s, t);
    var u := if t.host.Some? then PublishState(t, clock, RosterChange, listing, seals)
             else if HostIsAway(t) then Republish(t) else t;
    if t.host.Some? {
      StatePublishingQuiet(t, clock, RosterChange, listing, seals);
    } else {
      RepublishingQuiet(t);
      QuietItself(t, t);
    }
    QuietChains(s, t, u);
    SmallStepsQuiet(u, clock);
    QuietChains(s, u, AnnounceHolds(u, clock));
  }

  lemma RepublishingQuiet(s: Session)
    requires Sane(s)
    ensures Quiet(s, Republish(s))
  {
    QuietItself(s, s);
    if s.view.heldState.Some? {
      QueueingAdds(s, s.view.heldState.value);
    }
  }

  lemma LeavingQuiet(s: Session, clock: nat, seat: Seat, listing: seq<Path>, seals: bool)
    requires Sane(s) && Steady(s, SomeoneLeft(clock, seat, listing, seals))
    ensures Quiet(s, SeatLeaves(s, clock, seat, listing, seals))
  {
    hide PublishState, HostSeat, DropSeat, DropLabel, NothingNew, Quiet;
    var t := s.(host := if s.host.Some? then Some(SeatLeft(s.host.value, seat)) else None,
                view := s.view.(roster := s.view.roster - {seat}));
    var u := RefreshHostAway(t, clock, false);
    SeatingQuiet(s, u);
    StatePublishingQuiet(u, clock, RosterChange, listing, seals);
    QuietChains(s, u, PublishState(u, clock, RosterChange, listing, seals));
  }

  lemma SteadyStepQuiet(s: Session, i: Input)
    requires Sane(s) && CommitsOurs(s) && Steady(s, i) && !i.Inserted?
    ensures Quiet(s, Step(s, i))
  {
    hide Tick, SeatJoins, SeatLeaves, PublishState, AnnounceHolds, CloseRoom, NothingNew, Quiet;
    match i
    case Ticked(clock, listing, seals) => TickingQuiet(s, clock, listing, seals);
    case SomeoneJoined(clock, seat, listing, seals) => JoiningQuiet(s, clock, seat, listing, seals);
    case SomeoneLeft(clock, seat, listing, seals) => LeavingQuiet(s, clock, seat, listing, seals);
    case ListingChanged(clock, listing, seals) => StatePublishingQuiet(s, clock, ListingChange, listing, seals);
    case Held(clock, held) =>
      var t := s.(holds := s.holds.(held := held));
      QuietItself(s, t);
      SmallStepsQuiet(t, clock);
      QuietChains(s, t, AnnounceHolds(t, clock));
    case RoomClosed(seals) => ClosingQuiet(s, seals);
  }

  // --- a step that shares -----------------------------------------------------------------------

  /** A live session with a frame left in its budget, whose seals hold. */
  predicate Working(s: Session) {
    s.who.unsealable == {} && s.ending.None? && s.wire.roomFrames < s.who.budget
  }

  /** The replica grows by what was heard and by what leaves with the step, and by nothing else. */
  ghost predicate Spreads(s: Session, t: Session, heard: set<Atom>) {
    && Extends(s, t) && t.replica.baseline.None?
    && s.replica.doc + heard + CarriedBy(Added(s, t)) == t.replica.doc
    && (s.ending.Some? ==> t.ending.Some?)
  }

  lemma QuietSpreads(s: Session, t: Session)
    requires Quiet(s, t) && s.replica.baseline.None?
    ensures Spreads(s, t, {})
  {
  }

  /** An edit of a working session leaves with the step that makes it. */
  lemma InsertingSpreads(s: Session, payload: string, fits: bool)
    requires CommitsOurs(s) && s.view.stateIssued.Some? && s.replica.baseline.None? && Working(Insert(s, payload, fits))
    ensures Spreads(s, Insert(s, payload, fits), {})
  {
    hide Diff, StateVector, NextClock, PublishFrame, Extends, Quiet;
    var next := Insert(s, payload, fits);
    InsertingExtends(s, payload, fits);
    RoleIsKnown(s);
    if OwnRole(s) == Some(ViewerRole) || !fits {
      QuietItself(s, s);
      QuietSpreads(s, s);
    } else {
      EditDeltaIsTheEdit(s.replica.doc, s.who.client, payload);
      var a := NewAtom(s, payload);
      var u := AcceptSpeculation(s.(replica := s.replica.(doc := s.replica.doc + {a})));
      var body := StreamBody([Update(Atoms({a}))]);
      assert next == (if PublishFrame(u, Content, body).1 then PublishFrame(u, Content, body).0 else HoldBack(PublishFrame(u, Content, body).0, Atoms({a}), false));
      WorkingPublishes(u, Content, body);
      CarriedByOne(OwnFrame(u, Content, u.wire.counter + 1, body));
    }
  }

  /** What a session that is still working after it tried to queue a frame has done. */
  lemma WorkingPublishes(s: Session, what: Kind, body: Body)
    requires MayPublish(s) && (IsContent(body) ==> IsWriter(s))
    ensures var (t, sent) := PublishFrame(s, what, body);
            && t.replica == s.replica && t.ending == s.ending && t.who == s.who && s.wire.roomFrames <= t.wire.roomFrames
            && (Working(s) ==> sent && t.wire.outbound == s.wire.outbound + [OwnFrame(s, what, s.wire.counter + 1, body)])
  {
  }

  lemma CarriedByOne(frame: Frame)
    ensures CarriedBy([frame]) == Carried(frame)
  {
  }

  /** One message read into a replica, and the answer to it. */
  lemma OneMessageShares(doc: Doc, answers: bool, frame: Frame)
    requires OneMessage(frame)
    requires CarriesContent(frame.body.messages[0]) ==> frame.body.messages[0].delta.Atoms?
    ensures var m, read := frame.body.messages[0], ApplyStream(doc, answers, frame.body.messages);
            && read.doc == doc + Carried(frame)
            && read.replies == (if m.SyncStep1? && answers then [SyncStep2(Atoms(Diff(doc, m.vector)))] else [])
  {
    var m := frame.body.messages[0];
    assert frame.body.messages == [m];
    var r := ReadState(doc, [], false);
    var (next, goesOn) := ReadMessage(r, answers, m);
    assert [m][0] == m && [m][1..] == [];
    assert ReadStream(next, answers, []) == next;
    assert ReadStream(r, answers, [m]) == next;
  }

  /** A frame heard: its atoms join the replica, and a request is answered with what its vector lacks. */
  ghost predicate Answers(s: Session, t: Session, frame: Frame)
    requires s.wire.outbound <= t.wire.outbound
  {
    IsWriter(s) ==> forall a <- s.replica.doc | Asks(frame, a) :: a in CarriedBy(Added(s, t))
  }

  lemma ReadingSpreads(s: Session, frame: Frame, peer: PublicKey)
    requires OneMessage(frame) && (CarriesContent(frame.body.messages[0]) ==> frame.body.messages[0].delta.Atoms?)
    requires CommitsOurs(s) && s.view.stateIssued.Some? && s.replica.baseline.None?
    requires Working(ApplyContent(s, frame.body.messages, peer))
    ensures var t := ApplyContent(s, frame.body.messages, peer);
            Spreads(s, t, Carried(frame)) && Answers(s, t, frame)
  {
    hide ApplyStream, PublishFrame, Writers, Extends;
    var messages := frame.body.messages;
    var next := ApplyContent(s, messages, peer);
    ReadingExtends(s, messages, peer);
    var answers := MayPublish(s) && IsWriter(s);
    var read := ApplyStream(s.replica.doc, answers, messages);
    OneMessageShares(s.replica.doc, answers, frame);
    var t := ReadInto(s, messages, answers);
    var u := if read.requested then ArmReciprocal(t, peer) else t;
    if answers && read.replies != [] {
      var body := StreamBody([read.replies[0]]);
      assert SendReplies(u, read.replies) == PublishFrame(u, Syncing, body).0 by {
        assert read.replies[1..] == [];
        NoMoreReplies(PublishFrame(u, Syncing, body).0);
      }
      WorkingPublishes(u, Syncing, body);
      CarriedByOne(OwnFrame(u, Syncing, u.wire.counter + 1, body));
    } else {
      NoMoreReplies(u);
      assert Added(s, next) == [];
    }
  }

  lemma NoMoreReplies(s: Session)
    ensures SendReplies(s, []) == s
  {
  }

  lemma DeliveringSpreads(s: Session, clock: nat, frame: Frame, listing: seq<Path>, seals: bool, peer: PublicKey, e: nat)
    requires Holds(s, e) && Timely(s.reader, frame, peer, e) && s.replica.baseline.None?
    requires Working(Deliver(s, clock, frame, listing, seals))
    ensures var t := Deliver(s, clock, frame, listing, seals);
            Spreads(s, t, Carried(frame)) && Answers(s, t, frame)
  {
    hide Judge, ApplyContent, AfterState, PublishState, Announce, Holds, CarriedBy;
    var t, next := Received(s, frame), Deliver(s, clock, frame, listing, seals);
    NothingIsRefused(s.reader, frame, peer, e);
    KnownKinds(s.reader, frame, peer, e);
    HearingMarks(s.reader, frame, peer, e);
    CountingExtends(s);
    ReceivingSendsNothing(s, frame);
    HoldsMeans(s, e);
    CommitsMeans(s, e);
    if frame.kind == 0 {
      OneFairMessage(frame, peer, s.reader.committed, e);
      ReadingSpreads(t, frame, peer);
      ReceivedSpreads(s, t, next, frame);
    } else {
      CarriesNothing(s, next);
    }
  }

  lemma CommitsMeans(s: Session, e: nat)
    requires Holds(s, e)
    ensures CommitsOurs(s) && Sane(s)
  {
  }

  lemma OneFairMessage(frame: Frame, peer: PublicKey, committed: map<PublicKey, PeerEntry>, e: nat)
    requires Fair(frame, peer, committed, e) && frame.kind == 0
    ensures OneMessage(frame) && (CarriesContent(frame.body.messages[0]) ==> frame.body.messages[0].delta.Atoms?)
  {
  }

  lemma ReceivedSpreads(s: Session, t: Session, u: Session, frame: Frame)
    requires t == Received(s, frame) && t.reader.committed == s.reader.committed && Spreads(t, u, Carried(frame)) && Answers(t, u, frame)
    ensures Spreads(s, u, Carried(frame)) && Answers(s, u, frame)
  {
    CountingExtends(s);
    ReceivingSendsNothing(s, frame);
    assert Extends(s, t);
    ExtendsChains(s, t, u);
    assert Added(s, u) == Added(t, u);
  }

  lemma CarriesNothing(s: Session, t: Session)
    requires Extends(s, t) && t.wire.outbound == s.wire.outbound && t.replica == s.replica && s.replica.baseline.None?
    requires s.ending.Some? ==> t.ending.Some?
    ensures Spreads(s, t, {})
  {
    assert Added(s, t) == [];
  }
}
