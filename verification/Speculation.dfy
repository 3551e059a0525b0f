/**
 Edits made before the session knows its role leave no trace when the role turns out to be
 `viewer`: the replica and every frame are those of the run without them.
 */
module Speculation {
  import opened Options
  import opened Replica
  import opened Frames
  import opened Sealed
  import opened Producer
  import opened Session
  import opened SessionFrames

  // --- the invariant -----------------------------------------------------------------------

  predicate AnySpeculative(unsent: seq<Unsent>) {
    exists u <- unsent :: u.speculative
  }

  /**
   A clean baseline is held only while no applied state commits this key, and only beside one
   are there speculative edits.
   */
  ghost predicate Tentative(s: Session) {
    && (s.replica.baseline.Some? ==> !CommitsOurs(s))
    && (AnySpeculative(s.replica.unsent) ==> s.replica.baseline.Some?)
  }

  /** The same session with its speculation taken out of it, whatever generation its replica is. */
  function Erased(s: Session): Session {
    s.(replica := ReplicaState(PublicationDoc(s), None, Settled(s.replica.unsent), 0))
  }

  function With(s: Session, r: ReplicaState): Session {
    s.(replica := r)
  }

  lemma {:induction false} SettledKeeps(unsent: seq<Unsent>)
    ensures !AnySpeculative(Settled(unsent))
    ensures !AnySpeculative(unsent) ==> Settled(unsent) == unsent
    ensures |Settled(unsent)| <= |unsent|
  {
    if unsent != [] {
      SettledKeeps(unsent[1..]);
      if !AnySpeculative(unsent) {
        assert !unsent[0].speculative;
        assert forall u <- unsent[1..] :: u in unsent;
        assert unsent == [unsent[0]] + unsent[1..];
      }
    }
  }

  lemma SettledTwice(unsent: seq<Unsent>)
    ensures Settled(Settled(unsent)) == Settled(unsent)
  {
    SettledKeeps(unsent);
    SettledKeeps(Settled(unsent));
  }

  lemma {:induction false} SettledAppend(unsent: seq<Unsent>, last: Unsent)
    ensures Settled(unsent + [last]) == if last.speculative then Settled(unsent) else Settled(unsent) + [last]
  {
    if unsent == [] {
      assert unsent + [last] == [last];
    } else {
      SettledAppend(unsent[1..], last);
      assert (unsent + [last])[1..] == unsent[1..] + [last];
    }
  }

  lemma AcceptPlain(unsent: seq<Unsent>)
    ensures !AnySpeculative(Accept(unsent)) && |Accept(unsent)| == |unsent|
    ensures !AnySpeculative(unsent) ==> Accept(unsent) == unsent
  {
    if !AnySpeculative(unsent) {
      forall i | 0 <= i < |unsent| ensures Accept(unsent)[i] == unsent[i] {
        assert unsent[i] in unsent;
      }
    }
  }

  // --- what never reads the replica ------------------------------------------------------------

  lemma PublishingBlind(s: Session, r: ReplicaState, what: Kind, body: Body)
    ensures PublishFrame(With(s, r), what, body) == (With(PublishFrame(s, what, body).0, r), PublishFrame(s, what, body).1)
  {
  }

  lemma AnnouncingBlind(s: Session, r: ReplicaState, clock: nat)
    ensures AnnounceKey(With(s, r), clock) == With(AnnounceKey(s, clock), r)
  {
    PublishingBlind(s, r, Announcing, AnnounceBody(s.who.me, s.who.declared));
  }

  lemma HoldingBlind(s: Session, r: ReplicaState, clock: nat)
    ensures AnnounceHolds(With(s, r), clock) == With(AnnounceHolds(s, clock), r)
  {
    hide PublishFrame;
    PublishingBlind(s, r, Holding, HoldsBody(s.holds.held));
  }

  lemma {:induction false} SendingBlind(s: Session, r: ReplicaState, held: seq<Unsent>)
    ensures SendAll(With(s, r), held) == (With(SendAll(s, held).0, r), SendAll(s, held).1)
    decreases |held|
  {
    hide PublishFrame;
    if held != [] {
      PublishingBlind(s, r, Content, StreamBody([Update(held[0].delta)]));
      SendingBlind(SendUpdate(s, held[0].delta).0, r, held[1..]);
    }
  }

  lemma {:induction false} ReplyingBlind(s: Session, r: ReplicaState, replies: seq<Message>)
    ensures SendReplies(With(s, r), replies) == With(SendReplies(s, replies), r)
    decreases |replies|
  {
    hide PublishFrame;
    if replies != [] {
      PublishingBlind(s, r, Syncing, StreamBody([replies[0]]));
      ReplyingBlind(PublishFrame(s, Syncing, StreamBody([replies[0]])).0, r, replies[1..]);
    }
  }

  /** Sending moves the wire and nothing of the replica. */
  lemma PublishingKeepsReplica(s: Session, what: Kind, body: Body)
    ensures var t := PublishFrame(s, what, body).0;
            t.replica == s.replica && t.reader == s.reader && t.ending == s.ending && t.view == s.view
  {
  }

  lemma {:induction false} SendingKeepsReplica(s: Session, held: seq<Unsent>)
    ensures var t := SendAll(s, held).0;
            t.replica == s.replica && t.reader == s.reader && t.ending == s.ending && t.view == s.view
    decreases |held|
  {
    hide PublishFrame;
    if held != [] {
      PublishingKeepsReplica(s, Content, StreamBody([Update(held[0].delta)]));
      SendingKeepsReplica(SendUpdate(s, held[0].delta).0, held[1..]);
    }
  }

  lemma {:induction false} ReplyingKeepsReplica(s: Session, replies: seq<Message>)
    ensures var t := SendReplies(s, replies);
            t.replica == s.replica && t.reader == s.reader && t.ending == s.ending && t.view == s.view
    decreases |replies|
  {
    hide PublishFrame;
    if replies != [] {
      PublishingKeepsReplica(s, Syncing, StreamBody([replies[0]]));
      ReplyingKeepsReplica(PublishFrame(s, Syncing, StreamBody([replies[0]])).0, replies[1..]);
    }
  }

  /** What the small steps leave alone. */
  lemma SmallStepsKeepReplica(s: Session, clock: nat)
    ensures forall t | t == RequestSync(s, clock) || t == AnnounceKey(s, clock) || t == AnnounceHolds(s, clock) ::
              t.replica == s.replica && t.reader == s.reader && t.ending == s.ending &&
              t.view.stateIssued == s.view.stateIssued
  {
    hide PublishFrame;
    PublishingKeepsReplica(s, Syncing, StreamBody([SyncStep1(StateVector(PublicationDoc(s)))]));
    PublishingKeepsReplica(s, Announcing, AnnounceBody(s.who.me, s.who.declared));
    PublishingKeepsReplica(s, Holding, HoldsBody(s.holds.held));
  }

  // --- erasure commutes with every step ----------------------------------------------------------

  lemma RequestErases(s: Session, clock: nat)
    ensures RequestSync(Erased(s), clock) == Erased(RequestSync(s, clock))
  {
    hide PublishFrame, StateVector;
    var r := Erased(s).replica;
    var body := StreamBody([SyncStep1(StateVector(PublicationDoc(s)))]);
    PublishingBlind(s, r, Syncing, body);
    PublishingKeepsReplica(s, Syncing, body);
    SmallStepsKeepReplica(s, clock);
  }

  lemma AnnouncingErases(s: Session, clock: nat)
    ensures AnnounceKey(Erased(s), clock) == Erased(AnnounceKey(s, clock))
  {
    hide AnnounceKey;
    AnnouncingBlind(s, Erased(s).replica, clock);
    SmallStepsKeepReplica(s, clock);
  }

  lemma HoldingErases(s: Session, clock: nat)
    ensures AnnounceHolds(Erased(s), clock) == Erased(AnnounceHolds(s, clock))
  {
    hide AnnounceHolds;
    HoldingBlind(s, Erased(s).replica, clock);
    SmallStepsKeepReplica(s, clock);
  }

  lemma ResolvingErases(s: Session)
    requires IsWriter(s) ==> s.replica.baseline.None? && !AnySpeculative(s.replica.unsent)
    ensures ResolveSpeculation(Erased(s)) == Erased(ResolveSpeculation(s))
  {
    SettledTwice(s.replica.unsent);
    SettledKeeps(s.replica.unsent);
    AcceptPlain(s.replica.unsent);
  }

  /** A flush of settled edits, as one call. */
  lemma FlushOfSettled(s: Session)
    requires s.replica.baseline.None? && !AnySpeculative(s.replica.unsent)
    ensures FlushHeldBack(s) ==
              if s.replica.unsent == [] then s
              else if s.ending.Some? then With(s, s.replica.(unsent := []))
              else if !IsWriter(s) || !MayPublish(s) then s
              else var (u, kept) := SendAll(s, s.replica.unsent);
                   With(u, s.replica.(unsent := kept))
  {
    hide SendAll, PublishFrame;
    AcceptPlain(s.replica.unsent);
    var cleared := s.(replica := s.replica.(unsent := []));
    SendingBlind(s, cleared.replica, s.replica.unsent);
    SendingKeepsReplica(s, s.replica.unsent);
    if s.replica.unsent != [] && s.ending.None? && IsWriter(s) {
      assert AcceptSpeculation(s) == s;
    }
  }

  lemma {:induction false} KeptAreHeld(s: Session, held: seq<Unsent>)
    ensures forall u <- SendAll(s, held).1 :: u in held
    decreases |held|
  {
    hide PublishFrame;
    if held != [] {
      KeptAreHeld(SendUpdate(s, held[0].delta).0, held[1..]);
    }
  }

  lemma FlushingErases(s: Session)
    requires IsWriter(s) ==> s.replica.baseline.None? && !AnySpeculative(s.replica.unsent)
    ensures FlushHeldBack(Erased(s)) == Erased(FlushHeldBack(s))
  {
    hide SendAll, AcceptSpeculation;
    SettledKeeps(s.replica.unsent);
    SettledTwice(s.replica.unsent);
    if IsWriter(s) {
      FlushOfSettled(s);
      FlushOfSettled(Erased(s));
      SendingBlind(s, Erased(s).replica, s.replica.unsent);
      SendingKeepsReplica(s, s.replica.unsent);
      KeptAreHeld(s, s.replica.unsent);
      SettledKeeps(SendAll(s, s.replica.unsent).1);
    }
  }

  lemma NotingErases(s: Session, clock: nat, issued: nat)
    ensures StateNoted(Erased(s), clock, issued) == Erased(StateNoted(s, clock, issued))
    ensures StateNoted(s, clock, issued).replica == s.replica && StateNoted(s, clock, issued).reader == s.reader
    ensures StateNoted(s, clock, issued).ending == s.ending && StateNoted(s, clock, issued).who == s.who
  {
    hide HostSeat, Writers;
  }

  lemma AfterStateErases(s: Session, clock: nat, issued: nat)
    requires IsWriter(s) ==> s.replica.baseline.None?
    requires AnySpeculative(s.replica.unsent) ==> s.replica.baseline.Some?
    ensures AfterState(Erased(s), clock, issued) == Erased(AfterState(s, clock, issued))
  {
    hide StateNoted, RequestSync, FlushHeldBack, AnnounceHolds, AnnounceKey, ResolveSpeculation, Settled;
    var a := StateNoted(s, clock, issued);
    NotingErases(s, clock, issued);
    AfterStateShape(s, clock, issued);
    AfterStateShape(Erased(s), clock, issued);
    if CommitsOurs(a) {
      ResolvingErases(a);
      var r := ResolveSpeculation(a);
      ResolvedHasNone(a);
      RequestErases(r, clock);
      var c := HandshakeOnce(r, clock);
      SmallStepsKeepReplica(r, clock);
      FlushingErases(c);
      HoldingErases(FlushHeldBack(c), clock);
    } else {
      AnnouncingErases(a, clock);
      HoldingErases(AnnounceKey(a, clock), clock);
    }
  }

  lemma ResolvedHasNone(s: Session)
    requires CommitsOurs(s)
    requires AnySpeculative(s.replica.unsent) ==> s.replica.baseline.Some?
    ensures var t := ResolveSpeculation(s);
            && t.replica.baseline.None? && !AnySpeculative(t.replica.unsent)
            && t.reader == s.reader && t.ending == s.ending && t.debts == s.debts && t.view == s.view && t.who == s.who
  {
    SettledKeeps(s.replica.unsent);
    AcceptPlain(s.replica.unsent);
    RoleIsKnown(s);
  }

  /** Which receiver a state leaves is fixed before anything the state owes is done. */
  lemma AfterStateKeepsReader(s: Session, clock: nat, issued: nat)
    ensures AfterState(s, clock, issued).reader == s.reader && AfterState(s, clock, issued).who == s.who
  {
    hide StateNoted, RequestSync, FlushHeldBack, AnnounceHolds, AnnounceKey, ResolveSpeculation, Settled;
    AfterStateExtends(s, clock, issued);
    AfterStateShape(s, clock, issued);
    var a := StateNoted(s, clock, issued);
    NotingErases(s, clock, issued);
    var r := ResolveSpeculation(a);
    ResolvingKeepsReader(a);
    SmallStepsKeepReplica(r, clock);
    var c := HandshakeOnce(r, clock);
    FlushingKeepsReader(c);
    SmallStepsKeepReplica(FlushHeldBack(c), clock);
    SmallStepsKeepReplica(a, clock);
    SmallStepsKeepReplica(AnnounceKey(a, clock), clock);
  }

  lemma ResolvingKeepsReader(s: Session)
    ensures ResolveSpeculation(s).reader == s.reader
  {
  }

  lemma FlushingKeepsReader(s: Session)
    ensures FlushHeldBack(s).reader == s.reader && FlushHeldBack(s).ending == s.ending
  {
    hide SendAll;
    var t := AcceptSpeculation(s);
    SendingKeepsReplica(t.(replica := t.replica.(unsent := [])), t.replica.unsent);
  }

  lemma FoldingErases(s: Session, h: Host, out: Publication)
    requires out.state.Some?
    ensures NewStateFolded(Erased(s), h, out) == Erased(NewStateFolded(s, h, out))
    ensures NewStateFolded(s, h, out).replica == s.replica && NewStateFolded(s, h, out).who == s.who
  {
    hide Applied, Settled;
  }

  lemma StatePublishingErases(s: Session, clock: nat, reason: HostReason, listing: seq<Path>, seals: bool)
    requires AnySpeculative(s.replica.unsent) ==> s.replica.baseline.Some?
    requires IsWriter(PublishState(s, clock, reason, listing, seals)) ==> s.replica.baseline.None?
    ensures PublishState(Erased(s), clock, reason, listing, seals) == Erased(PublishState(s, clock, reason, listing, seals))
  {
    hide AfterState, Publish, Settled, NewStateFolded;
    if s.wire.roomFrames < s.who.budget && s.host.Some? {
      var (h, out) := Publish(s.host.value, clock, reason, listing, seals);
      PublishStateShape(s, clock, reason, listing, seals);
      PublishStateShape(Erased(s), clock, reason, listing, seals);
      if out.Some? && out.value.isNew && out.value.state.Some? {
        hide PublishState;
        var w := NewStateFolded(s, h, out.value);
        FoldingErases(s, h, out.value);
        AfterStateKeepsReader(w, clock, out.value.issued);
        AfterStateErases(w, clock, out.value.issued);
      }
    }
  }

  /** A stream reads the same whatever replica it is read into: it fails by its bytes alone. */
  lemma ReadingErases(s: Session, messages: seq<Message>, verified: PublicKey)
    ensures ApplyContent(Erased(s), messages, verified) == Erased(ApplyContent(s, messages, verified))
  {
    hide ApplyStream, SendReplies, Writers, Settled;
    if s.view.stateIssued.Some? {
      var answers := MayPublish(s) && IsWriter(s);
      var read := ApplyStream(PublicationDoc(s), answers, messages);
      var t := ReadInto(s, messages, answers);
      ReadingIntoErases(s, messages, answers);
      var u := if read.requested then ArmReciprocal(t, verified) else t;
      ReplyingBlind(u, Erased(u).replica, read.replies);
      ReplyingKeepsReplica(u, read.replies);
    }
  }

  lemma ReadingIntoErases(s: Session, messages: seq<Message>, answers: bool)
    ensures ReadInto(Erased(s), messages, answers) == Erased(ReadInto(s, messages, answers))
  {
    hide ApplyStream;
    SettledTwice(s.replica.unsent);
  }

  lemma DeliveringErases(s: Session, clock: nat, frame: Frame, listing: seq<Path>, seals: bool)
    requires AnySpeculative(s.replica.unsent) ==> s.replica.baseline.Some?
    requires IsWriter(Deliver(s, clock, frame, listing, seals)) ==> s.replica.baseline.None?
    ensures Deliver(Erased(s), clock, frame, listing, seals) == Erased(Deliver(s, clock, frame, listing, seals))
  {
    hide Read, ApplyContent, AfterState, PublishState, Announce, Settled, SpelledFirst;
    var t := CountFrame(s);
    var v := Judge(t.reader, frame);
    if v.Accepted? && !(v.kind == 2 && t.view.stateIssued.None?) {
      var u := t.(reader := Read(t.reader, frame),
                  view := if v.kind == 1 then t.view.(heldState := Some(frame)) else t.view);
      match v.kind {
        case 0 => ReadingErases(u, Stream(v.body), v.key);
        case 1 =>
          AfterStateKeepsReader(u, clock, v.body.state.issued);
          AfterStateErases(u, clock, v.body.state.issued);
        case 4 =>
          if u.host.Some? {
            StatePublishingErases(u.(host := Some(Announce(u.host.value, v.body.key, v.body.declared))), clock, Announced, listing, seals);
          }
        case _ =>
      }
    }
  }

  lemma WhoNeverChanges(s: Session, clock: nat)
    ensures RequestSync(s, clock).who == s.who && AnnounceKey(s, clock).who == s.who && AnnounceHolds(s, clock).who == s.who
  {
    hide Extends;
  }

  lemma PayingErases(s: Session, clock: nat, listing: seq<Path>, seals: bool)
    requires AnySpeculative(s.replica.unsent) ==> s.replica.baseline.Some?
    requires IsWriter(PayDue(s, clock, listing, seals)) ==> s.replica.baseline.None?
    ensures PayDue(Erased(s), clock, listing, seals) == Erased(PayDue(s, clock, listing, seals))
  {
    hide PublishState, RequestSync, AnnounceHolds, AnnounceKey, Erased;
    var a := PublishState(s, clock, Announced, listing, seals);
    var b := Reannounce(a, clock);
    var c := Resync(b, clock);
    SmallStepsKeepReplica(a, clock);
    SmallStepsKeepReplica(b, clock);
    SmallStepsKeepReplica(c, clock);
    WhoNeverChanges(a, clock);
    WhoNeverChanges(b, clock);
    WhoNeverChanges(c, clock);
    StatePublishingErases(s, clock, Announced, listing, seals);
    ReannouncingErases(a, clock);
    ResyncingErases(b, clock);
    HoldingErases(c, clock);
  }

  lemma ReannouncingErases(s: Session, clock: nat)
    ensures Reannounce(Erased(s), clock) == Erased(Reannounce(s, clock))
  {
    hide AnnounceKey, Settled;
    AnnouncingErases(s, clock);
  }

  lemma ResyncingErases(s: Session, clock: nat)
    ensures Resync(Erased(s), clock) == Erased(Resync(s, clock))
  {
    hide RequestSync, Settled;
    RequestErases(s, clock);
  }

  lemma TickingErases(s: Session, clock: nat, listing: seq<Path>, seals: bool)
    requires AnySpeculative(s.replica.unsent) ==> s.replica.baseline.Some?
    requires IsWriter(Tick(s, clock, listing, seals)) ==> s.replica.baseline.None?
    ensures Tick(Erased(s), clock, listing, seals) == Erased(Tick(s, clock, listing, seals))
  {
    hide PayDue, Close, HostSeat, Settled;
    var t := Housekept(s, clock);
    if t.ending.None? && t.wire.roomFrames < t.who.budget && WindowPassed(t, clock).None? {
      PayingErases(t, clock, listing, seals);
    }
  }

  lemma JoiningErases(s: Session, clock: nat, seat: Seat, listing: seq<Path>, seals: bool)
    requires AnySpeculative(s.replica.unsent) ==> s.replica.baseline.Some?
    requires IsWriter(SeatJoins(s, clock, seat, listing, seals)) ==> s.replica.baseline.None?
    ensures SeatJoins(Erased(s), clock, seat, listing, seals) == Erased(SeatJoins(s, clock, seat, listing, seals))
  {
    hide PublishState, AnnounceHolds, HostSeat, AddSeat, Settled;
    var t := s.(host := if s.host.Some? then Some(SeatJoined(s.host.value, seat)) else None,
                view := s.view.(roster := s.view.roster + {seat}),
                holds := s.holds.(at := None));
    var u := if t.host.Some? then PublishState(t, clock, RosterChange, listing, seals)
             else if HostIsAway(t) then Republish(t) else t;
    SmallStepsKeepReplica(u, clock);
    WhoNeverChanges(u, clock);
    if t.host.Some? {
      StatePublishingErases(t, clock, RosterChange, listing, seals);
    }
    HoldingErases(u, clock);
  }

  lemma LeavingErases(s: Session, clock: nat, seat: Seat, listing: seq<Path>, seals: bool)
    requires AnySpeculative(s.replica.unsent) ==> s.replica.baseline.Some?
    requires IsWriter(SeatLeaves(s, clock, seat, listing, seals)) ==> s.replica.baseline.None?
    ensures SeatLeaves(Erased(s), clock, seat, listing, seals) == Erased(SeatLeaves(s, clock, seat, listing, seals))
  {
    hide PublishState, HostSeat, DropSeat, DropLabel, Settled;
    var t := s.(host := if s.host.Some? then Some(SeatLeft(s.host.value, seat)) else None,
                view := s.view.(roster := s.view.roster - {seat}));
    StatePublishingErases(RefreshHostAway(t, clock, false), clock, RosterChange, listing, seals);
  }

  /** An edit by a key whose role is known: nothing is speculative, and only the generation differs. */
  lemma InsertingErases(s: Session, payload: string, fits: bool)
    requires Tentative(s) && CommitsOurs(s)
    ensures Insert(Erased(s), payload, fits) == Erased(Insert(s, payload, fits))
  {
    hide Diff, StateVector, NextClock, PublishFrame;
    SettledKeeps(s.replica.unsent);
    AcceptPlain(s.replica.unsent);
    assert Erased(s) == s.(replica := s.replica.(epoch := 0));
    if IsWriter(s) {
      var before := StateVector(s.replica.doc);
      var u := s.(replica := s.replica.(doc := s.replica.doc + {NewAtom(s, payload)}));
      var delta := Atoms(Diff(u.replica.doc, before));
      PublishingBlind(u, u.replica.(epoch := 0), Content, StreamBody([Update(delta)]));
      PublishingKeepsReplica(u, Content, StreamBody([Update(delta)]));
      SettledAppend(u.replica.unsent, Unsent(delta, false));
    } else {
      RoleIsKnown(s);
    }
  }

  lemma RoleIsKnown(s: Session)
    requires CommitsOurs(s)
    ensures IsWriter(s) <==> OwnRole(s) != Some(ViewerRole)
  {
    match s.reader.committed[s.who.me].role
    case HostRole =>
    case GuestRole =>
    case ViewerRole =>
  }

  /** An edit whose role is unknown leaves the session as it was, once its speculation is erased. */
  lemma UnknownEditErases(s: Session, payload: string, fits: bool)
    requires Tentative(s) && !CommitsOurs(s)
    ensures Erased(Insert(s, payload, fits)) == Erased(s)
    ensures Insert(s, payload, fits).wire == s.wire && Tentative(Insert(s, payload, fits))
  {
    hide Diff, StateVector, NextClock, Settled;
    var t := BeginSpeculation(s);
    var u := t.(replica := t.replica.(doc := t.replica.doc + {NewAtom(t, payload)}));
    var delta := Atoms(Diff(u.replica.doc, StateVector(t.replica.doc)));
    SettledAppend(s.replica.unsent, Unsent(delta, true));
  }

  // --- the invariant over runs ---------------------------------------------------------------------

  lemma ReplicaOfStep(s: Session, i: Input)
    requires Tentative(s)
    ensures Tentative(Step(s, i))
  {
    hide Deliver, Tick, Insert, SeatJoins, SeatLeaves, PublishState, AnnounceHolds, Close, Tentative;
    match i
    case Delivered(clock, frame, listing, seals) => DeliveringTentative(s, clock, frame, listing, seals);
    case Ticked(clock, listing, seals) => TickingTentative(s, clock, listing, seals);
    case Inserted(payload, fits) => InsertingTentative(s, payload, fits);
    case SomeoneJoined(clock, seat, listing, seals) => JoiningTentative(s, clock, seat, listing, seals);
    case SomeoneLeft(clock, seat, listing, seals) => LeavingTentative(s, clock, seat, listing, seals);
    case ListingChanged(clock, listing, seals) => StatePublishingTentative(s, clock, ListingChange, listing, seals);
    case Held(clock, held) =>
      var t := s.(holds := s.holds.(held := held));
      SmallStepsKeepReplica(t, clock);
      WhoNeverChanges(t, clock);
      SameTentative(s, AnnounceHolds(t, clock));
    case RoomClosed(seals) => SameTentative(s, Step(s, i));
    case Taken => SameTentative(s, Step(s, i));
  }

  lemma SameTentative(s: Session, t: Session)
    requires Tentative(s) && t.replica == s.replica && t.who == s.who && (CommitsOurs(t) ==> CommitsOurs(s))
    ensures Tentative(t)
  {
  }

  lemma AfterStateTentative(s: Session, clock: nat, issued: nat)
    requires AnySpeculative(s.replica.unsent) ==> s.replica.baseline.Some?
    ensures Tentative(AfterState(s, clock, issued))
  {
    hide StateNoted, RequestSync, FlushHeldBack, AnnounceHolds, AnnounceKey, ResolveSpeculation, Settled;
    AfterStateKeepsReader(s, clock, issued);
    AfterStateShape(s, clock, issued);
    var a := StateNoted(s, clock, issued);
    NotingErases(s, clock, issued);
    if CommitsOurs(a) {
      ResolvedHasNone(a);
      var r := ResolveSpeculation(a);
      SmallStepsKeepReplica(r, clock);
      var c := HandshakeOnce(r, clock);
      FlushOfSettled(c);
      SendingKeepsReplica(c, c.replica.unsent);
      KeptAreHeld(c, c.replica.unsent);
      SmallStepsKeepReplica(FlushHeldBack(c), clock);
    } else {
      SmallStepsKeepReplica(a, clock);
      SmallStepsKeepReplica(AnnounceKey(a, clock), clock);
    }
  }

  lemma StatePublishingTentative(s: Session, clock: nat, reason: HostReason, listing: seq<Path>, seals: bool)
    requires Tentative(s)
    ensures Tentative(PublishState(s, clock, reason, listing, seals))
  {
    hide AfterState, Publish;
    if s.wire.roomFrames < s.who.budget && s.host.Some? {
      var (h, out) := Publish(s.host.value, clock, reason, listing, seals);
      if out.Some? && out.value.isNew && out.value.state.Some? {
        var t := s.(host := Some(h), wire := s.wire.(fault := s.wire.fault || h.faulted));
        var u := Queue(CountFrame(t), out.value.frame);
        AfterStateTentative(u.(reader := Applied(u.reader, out.value.state.value)), clock, out.value.issued);
      }
    }
  }

  lemma ReadingTentative(s: Session, messages: seq<Message>, verified: PublicKey)
    requires Tentative(s)
    ensures Tentative(ApplyContent(s, messages, verified))
    ensures ApplyContent(s, messages, verified).reader == s.reader
  {
    hide ApplyStream, SendReplies, Writers;
    var answers := MayPublish(s) && IsWriter(s);
    var read := ApplyStream(PublicationDoc(s), answers, messages);
    var t := ReadInto(s, messages, answers);
    var u := if read.requested then ArmReciprocal(t, verified) else t;
    ReplyingKeepsReplica(u, read.replies);
    ReadingExtends(s, messages, verified);
    ReplyingExtends(u, read.replies);
  }

  lemma ReadKeepsCommitted(r: ReaderState, frame: Frame)
    requires var v := Judge(r, frame); v.Accepted? && v.kind != 1
    ensures Read(r, frame).committed == r.committed
  {
  }

  lemma DeliveringTentative(s: Session, clock: nat, frame: Frame, listing: seq<Path>, seals: bool)
    requires Tentative(s)
    ensures Tentative(Deliver(s, clock, frame, listing, seals))
  {
    hide Read, ApplyContent, AfterState, PublishState, Announce, SpelledFirst;
    var t := CountFrame(s);
    var v := Judge(t.reader, frame);
    if v.Accepted? {
      if v.kind != 1 {
        ReadKeepsCommitted(t.reader, frame);
      }
      var u := t.(reader := Read(t.reader, frame),
                  view := if v.kind == 1 then t.view.(heldState := Some(frame)) else t.view);
      match v.kind {
        case 0 => ReadingTentative(u, Stream(v.body), v.key);
        case 1 => AfterStateTentative(u, clock, v.body.state.issued);
        case 4 =>
          if u.host.Some? {
            StatePublishingTentative(u.(host := Some(Announce(u.host.value, v.body.key, v.body.declared))), clock, Announced, listing, seals);
          }
        case _ =>
      }
    }
  }

  lemma TickingTentative(s: Session, clock: nat, listing: seq<Path>, seals: bool)
    requires Tentative(s)
    ensures Tentative(Tick(s, clock, listing, seals))
  {
    hide PublishState, RequestSync, AnnounceHolds, AnnounceKey, Close, HostSeat, Tentative;
    var t := Housekept(s, clock);
    SameTentative(s, t);
    if t.ending.Some? || t.who.budget <= t.wire.roomFrames || WindowPassed(t, clock).Some? {
      SameTentative(t, Tick(s, clock, listing, seals));
    } else {
      var a := PublishState(t, clock, Announced, listing, seals);
      StatePublishingTentative(t, clock, Announced, listing, seals);
      var b := Reannounce(a, clock);
      var c := Resync(b, clock);
      SmallStepsKeepReplica(a, clock);
      SmallStepsKeepReplica(b, clock);
      SmallStepsKeepReplica(c, clock);
      WhoNeverChanges(a, clock);
      WhoNeverChanges(b, clock);
      WhoNeverChanges(c, clock);
      SameTentative(a, b);
      SameTentative(b, c);
      SameTentative(c, AnnounceHolds(c, clock));
    }
  }

  lemma JoiningTentative(s: Session, clock: nat, seat: Seat, listing: seq<Path>, seals: bool)
    requires Tentative(s)
    ensures Tentative(SeatJoins(s, clock, seat, listing, seals))
  {
    hide PublishState, AnnounceHolds, HostSeat, AddSeat;
    var t := s.(host := if s.host.Some? then Some(SeatJoined(s.host.value, seat)) else None,
                view := s.view.(roster := s.view.roster + {seat}),
                holds := s.holds.(at := None));
    var u := if t.host.Some? then PublishState(t, clock, RosterChange, listing, seals)
             else if HostIsAway(t) then Republish(t) else t;
    StatePublishingTentative(t, clock, RosterChange, listing, seals);
    SmallStepsKeepReplica(u, clock);
    WhoNeverChanges(u, clock);
  }

  lemma LeavingTentative(s: Session, clock: nat, seat: Seat, listing: seq<Path>, seals: bool)
    requires Tentative(s)
    ensures Tentative(SeatLeaves(s, clock, seat, listing, seals))
  {
    hide PublishState, HostSeat, DropSeat, DropLabel;
    var t := s.(host := if s.host.Some? then Some(SeatLeft(s.host.value, seat)) else None,
                view := s.view.(roster := s.view.roster - {seat}));
    StatePublishingTentative(RefreshHostAway(t, clock, false), clock, RosterChange, listing, seals);
  }

  lemma InsertingTentative(s: Session, payload: string, fits: bool)
    requires Tentative(s)
    ensures Tentative(Insert(s, payload, fits))
  {
    hide Diff, StateVector, NextClock, PublishFrame, Settled;
    if CommitsOurs(s) {
      RoleIsKnown(s);
      AcceptPlain(s.replica.unsent);
      var u := s.(replica := s.replica.(doc := s.replica.doc + {NewAtom(s, payload)}));
      var delta := Atoms(Diff(u.replica.doc, StateVector(s.replica.doc)));
      PublishingKeepsReplica(AcceptSpeculation(u), Content, StreamBody([Update(delta)]));
      InsertingExtends(s, payload, fits);
    } else {
      UnknownEditErases(s, payload, fits);
    }
  }

  // --- whole runs --------------------------------------------------------------------------------

  /** An edit made while no applied state gives this key a role. */
  ghost predicate UnknownEdit(s: Session, i: Input) {
    i.Inserted? && !CommitsOurs(s)
  }

  /** The inputs without the edits that were made under an unknown role. */
  ghost function Without(s: Session, inputs: seq<Input>): seq<Input> {
    if inputs == [] then []
    else
      var rest, last := inputs[..|inputs| - 1], inputs[|inputs| - 1];
      Without(s, rest) + (if UnknownEdit(Run(s, rest), last) then [] else [last])
  }

  /** No state of the run turns a session that holds speculation into a writer. */
  ghost predicate NeverAdopted(s: Session, inputs: seq<Input>) {
    inputs == [] ||
    (var rest, last := inputs[..|inputs| - 1], inputs[|inputs| - 1];
     && NeverAdopted(s, rest)
     && (IsWriter(Step(Run(s, rest), last)) ==> Run(s, rest).replica.baseline.None?))
  }

  lemma StepErases(s: Session, i: Input)
    requires Tentative(s) && !UnknownEdit(s, i)
    requires IsWriter(Step(s, i)) ==> s.replica.baseline.None?
    ensures Step(Erased(s), i) == Erased(Step(s, i))
  {
    hide Deliver, Tick, Insert, SeatJoins, SeatLeaves, PublishState, AnnounceHolds, Close, Erased;
    match i
    case Delivered(clock, frame, listing, seals) => DeliveringErases(s, clock, frame, listing, seals);
    case Ticked(clock, listing, seals) => TickingErases(s, clock, listing, seals);
    case Inserted(payload, fits) => InsertingErases(s, payload, fits);
    case SomeoneJoined(clock, seat, listing, seals) => JoiningErases(s, clock, seat, listing, seals);
    case SomeoneLeft(clock, seat, listing, seals) => LeavingErases(s, clock, seat, listing, seals);
    case ListingChanged(clock, listing, seals) => StatePublishingErases(s, clock, ListingChange, listing, seals);
    case Held(clock, held) => HoldingPathsErases(s, clock, held);
    case RoomClosed(seals) => ClosingErases(s, seals);
    case Taken => DrainingErases(s);
  }

  lemma HoldingPathsErases(s: Session, clock: nat, held: set<Path>)
    ensures HoldPaths(Erased(s), clock, held) == Erased(HoldPaths(s, clock, held))
  {
    hide AnnounceHolds, Settled;
    HoldingErases(s.(holds := s.holds.(held := held)), clock);
  }

  lemma ClosingErases(s: Session, seals: bool)
    ensures CloseRoom(Erased(s), seals) == Erased(CloseRoom(s, seals))
  {
    hide Close, Settled;
  }

  lemma DrainingErases(s: Session)
    ensures Step(Erased(s), Taken) == Erased(Step(s, Taken))
  {
    hide Settled;
  }

  lemma ErasedTwice(s: Session)
    ensures Erased(Erased(s)) == Erased(s) && Tentative(Erased(s)) && (Sane(s) ==> Sane(Erased(s)))
    ensures Erased(s).wire == s.wire
  {
    SettledTwice(s.replica.unsent);
    SettledKeeps(s.replica.unsent);
  }

  /**
   Non-interference: erasing every edit made under an unknown role from a run whose speculation
   no writer state ever adopts changes no frame the session queues and nothing the session holds,
   once what is still speculative is set aside.
   */
  lemma {:induction false} SpeculationLeavesNoTrace(s: Session, inputs: seq<Input>)
    requires Tentative(s) && Sane(s) && Erased(s) == s && NeverAdopted(s, inputs)
    ensures Erased(Run(s, inputs)) == Run(s, Without(s, inputs)) && Tentative(Run(s, inputs))
    ensures Emitted(s, inputs) == Emitted(s, Without(s, inputs))
    decreases |inputs|
  {
    hide Step, Erased, Tentative, Sane;
    if inputs != [] {
      var rest, last := inputs[..|inputs| - 1], inputs[|inputs| - 1];
      SpeculationLeavesNoTrace(s, rest);
      var t, shorter := Run(s, rest), Without(s, rest);
      ReplicaOfStep(t, last);
      ErasedTwice(t);
      ErasedTwice(Step(t, last));
      if UnknownEdit(t, last) {
        UnknownEditStep(t, last);
        assert Without(s, inputs) == shorter;
      } else {
        StepErases(t, last);
        var longer := shorter + [last];
        assert Without(s, inputs) == longer;
        assert longer[..|longer| - 1] == shorter;
      }
    }
  }

  lemma UnknownEditStep(s: Session, i: Input)
    requires Tentative(s) && UnknownEdit(s, i)
    ensures Erased(Step(s, i)) == Erased(s) && Step(s, i).wire == s.wire
  {
    UnknownEditErases(s, i.payload, i.fits);
  }

  /**
   Once a `viewer` state has resolved the key the two sessions are the same session, but for the
   generation counter that tells a caller its replica was replaced.
   */
  lemma ResolvedSessionsAgree(s: Session, inputs: seq<Input>)
    requires Tentative(s) && Sane(s) && Erased(s) == s && NeverAdopted(s, inputs)
    requires CommitsOurs(Run(s, inputs))
    ensures var t, u := Run(s, inputs), Run(s, Without(s, inputs));
            t.(replica := t.replica.(epoch := 0)) == u
  {
    SpeculationLeavesNoTrace(s, inputs);
    SettledKeeps(Run(s, inputs).replica.unsent);
  }

  /** A joiner starts with nothing to erase. */
  lemma OpenedIsErased(who: Identity, hostKey: PublicKey, roster: set<Seat>)
    ensures var s := Opened(who, hostKey, roster, None);
            Erased(s) == s && Tentative(s) && Sane(s)
  {
  }
}
