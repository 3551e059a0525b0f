/**
 Which atoms a session's replicas hold, over every run: all the content it has accepted, in both
 of them while they differ, its own edits, and nothing else; and who wrote what it accepted.
 */
module ContentRuns {
  import opened Options
  import opened Replica
  import opened Frames
  import opened Sealed
  import Producer
  import opened Session
  import opened SessionFrames
  import opened Speculation
  import opened Flushes
  import opened Authority
  import opened Beginnings

  // --- what a stream brings ------------------------------------------------------------------

  /** A message the reading goes on past. */
  predicate Legible(m: Message) {
    !m.Custom? && (m.Awareness? ==> m.readable) && (CarriesContent(m) ==> m.delta.Atoms?)
  }

  /** Every atom of an update or an answer that stands before the first message that is not legible. */
  function Brought(messages: seq<Message>): set<Atom> {
    set i, a | 0 <= i < |messages| && (forall j | 0 <= j <= i :: Legible(messages[j])) && CarriesContent(messages[i])
               && a in messages[i].delta.atoms :: a
  }

  lemma BroughtUnrolls(messages: seq<Message>)
    requires messages != []
    ensures Brought(messages) ==
              if !Legible(messages[0]) then {}
              else (if CarriesContent(messages[0]) then messages[0].delta.atoms else {}) + Brought(messages[1..])
  {
    var rest := messages[1..];
    if Legible(messages[0]) {
      forall a | a in Brought(rest) ensures a in Brought(messages) {
        var i :| 0 <= i < |rest| && (forall j | 0 <= j <= i :: Legible(rest[j])) && CarriesContent(rest[i]) && a in rest[i].delta.atoms;
        assert forall j | 0 <= j <= i + 1 :: j > 0 ==> messages[j] == rest[j - 1];
        assert messages[i + 1] == rest[i];
      }
      forall a | a in Brought(messages)
        ensures a in Brought(rest) || (CarriesContent(messages[0]) && a in messages[0].delta.atoms)
      {
        var i :| 0 <= i < |messages| && (forall j | 0 <= j <= i :: Legible(messages[j])) && CarriesContent(messages[i]) && a in messages[i].delta.atoms;
        if i > 0 {
          assert forall j | 0 <= j <= i - 1 :: rest[j] == messages[j + 1];
          assert rest[i - 1] == messages[i];
        }
      }
      if CarriesContent(messages[0]) {
        forall a | a in messages[0].delta.atoms ensures a in Brought(messages) {
          assert forall j | 0 <= j <= 0 :: Legible(messages[j]);
        }
      }
    }
  }

  lemma {:induction false} ReadingBrings(r: ReadState, answers: bool, messages: seq<Message>)
    ensures ReadStream(r, answers, messages).doc == r.doc + Brought(messages)
    decreases |messages|
  {
    if messages != [] {
      BroughtUnrolls(messages);
      var (next, goesOn) := ReadMessage(r, answers, messages[0]);
      if goesOn {
        ReadingBrings(next, answers, messages[1..]);
      }
    }
  }

  /** The request a stream is answered for: its first, if the reading reaches it. */
  predicate IsFirstRequest(messages: seq<Message>, i: nat) {
    i < |messages| && messages[i].SyncStep1? && forall j | 0 <= j < i :: Legible(messages[j]) && !messages[j].SyncStep1?
  }

  /** One answer a stream, to its first request, with what the replica then holds beyond the vector. */
  lemma {:induction false} ReadingAnswersTheFirst(r: ReadState, answers: bool, messages: seq<Message>, i: nat)
    requires r.replies == [] && IsFirstRequest(messages, i)
    ensures var read := ReadStream(r, answers, messages);
            && read.requested
            && read.replies == if answers then [SyncStep2(Atoms(Diff(r.doc + Brought(messages[..i]), messages[i].vector)))] else []
    decreases |messages|
  {
    var (next, goesOn) := ReadMessage(r, answers, messages[0]);
    if i == 0 {
      ReadingKeepsTheAnswer(next, answers, messages[1..]);
      assert r.doc + Brought(messages[..0]) == r.doc;
    } else {
      assert Legible(messages[0]);
      ReadingAnswersTheFirst(next, answers, messages[1..], i - 1);
      BroughtUnrolls(messages[..i]);
      assert messages[..i][1..] == messages[1..][..i - 1] && messages[..i][0] == messages[0];
      assert next.doc + Brought(messages[1..][..i - 1]) == r.doc + Brought(messages[..i]);
    }
  }

  lemma {:induction false} ReadingKeepsTheAnswer(r: ReadState, answers: bool, messages: seq<Message>)
    requires r.requested && (answers ==> r.replies != [])
    ensures ReadStream(r, answers, messages).requested && ReadStream(r, answers, messages).replies == r.replies
    decreases |messages|
  {
    if messages != [] {
      ReadingKeepsTheAnswer(ReadMessage(r, answers, messages[0]).0, answers, messages[1..]);
    }
  }

  lemma {:induction false} NoRequestNoAnswer(r: ReadState, answers: bool, messages: seq<Message>)
    requires forall i :: !IsFirstRequest(messages, i)
    ensures var read := ReadStream(r, answers, messages);
            read.requested == r.requested && read.replies == r.replies
    decreases |messages|
  {
    if messages != [] {
      assert !IsFirstRequest(messages, 0);
      if Legible(messages[0]) {
        forall i: nat ensures !IsFirstRequest(messages[1..], i) {
          assert !IsFirstRequest(messages, i + 1);
          assert i < |messages[1..]| ==> messages[1..][i] == messages[i + 1];
          assert forall j | 0 <= j < i && j < |messages[1..]| :: messages[1..][j] == messages[j + 1];
        }
        NoRequestNoAnswer(ReadMessage(r, answers, messages[0]).0, answers, messages[1..]);
      }
    }
  }

  // --- one frame -----------------------------------------------------------------------------

  /** The content of an accepted frame joins both replicas, while they differ as when they do not. */
  lemma ContentReachesBoth(s: Session, clock: nat, frame: Frame, listing: seq<Path>, seals: bool)
    requires s.view.stateIssued.Some? && Judge(s.reader, frame).Accepted? && frame.kind == 0
    ensures var t, brought := Deliver(s, clock, frame, listing, seals), Brought(Stream(frame.body));
            && t.replica.doc == s.replica.doc + brought
            && PublicationDoc(t) == PublicationDoc(s) + brought
            && (t.replica.baseline.Some? <==> s.replica.baseline.Some?)
            && t.replica.unsent == s.replica.unsent && t.replica.epoch == s.replica.epoch
            && t.reader.committed == s.reader.committed && t.who == s.who
  {
    hide Judge, Brought, ReadStream, Writers, SendReplies;
    AcceptedExactly(s.reader, frame);
    var messages := Stream(frame.body);
    var u := CountFrame(s).(reader := Read(s.reader, frame));
    var answers := MayPublish(u) && IsWriter(u);
    ReadingBrings(ReadState(PublicationDoc(u), [], false), answers, messages);
    ReadingBrings(ReadState(u.replica.doc, [], false), false, messages);
    var r := ReadInto(u, messages, answers);
    var v := if ApplyStream(PublicationDoc(u), answers, messages).requested then ArmReciprocal(r, frame.signer.value) else r;
    ReplyingKeepsReplica(v, ApplyStream(PublicationDoc(u), answers, messages).replies);
    ReplyingExtends(v, ApplyStream(PublicationDoc(u), answers, messages).replies);
  }

  /**
   A request read is answered at once by a live writer with a frame left: one answer, with what the
   publication replica holds beyond the first request's vector, and a request owed back to a
   writer that has not been asked yet.
   */
  lemma ARequestIsAnswered(s: Session, clock: nat, frame: Frame, listing: seq<Path>, seals: bool, i: nat)
    requires MayPublish(s) && IsWriter(s) && s.wire.roomFrames + 1 < s.who.budget && s.wire.counter + 1 !in s.who.unsealable
    requires Judge(s.reader, frame).Accepted? && frame.kind == 0 && IsFirstRequest(Stream(frame.body), i)
    ensures var t := Deliver(s, clock, frame, listing, seals);
            var before, vector := Brought(Stream(frame.body)[..i]), Stream(frame.body)[i].vector;
            var answer := StreamBody([SyncStep2(Atoms(Diff(PublicationDoc(s) + before, vector)))]);
            && frame.signer.Some?
            && t.wire.outbound == s.wire.outbound + [Frame.Frame(s.who.me.id, 0, 0, s.wire.counter + 1, Some(s.who.me), true, answer)]
            && (IsWriterOf(s.reader.committed, frame.signer.value) && frame.signer.value !in s.debts.served ==>
                  frame.signer.value in t.debts.pending && frame.signer.value in t.debts.served)
  {
    hide Judge, Brought, ReadStream, Diff;
    AcceptedExactly(s.reader, frame);
    var messages := Stream(frame.body);
    var u := CountFrame(s).(reader := Read(s.reader, frame));
    ReadingAnswersTheFirst(ReadState(PublicationDoc(u), [], false), true, messages, i);
    var read := ApplyStream(PublicationDoc(u), true, messages);
    var v := ArmReciprocal(ReadInto(u, messages, true), frame.signer.value);
    OneReply(v, read.replies);
  }

  lemma OneReply(s: Session, replies: seq<Message>)
    requires |replies| == 1
    ensures SendReplies(s, replies) == PublishFrame(s, Syncing, StreamBody([replies[0]])).0
  {
    var t := PublishFrame(s, Syncing, StreamBody([replies[0]])).0;
    assert replies[1..] == [];
    assert SendReplies(t, []) == t;
  }

  // --- steps that bring nothing ----------------------------------------------------------------

  /** What is clean is in the replica it was copied from. */
  predicate Layered(s: Session) {
    PublicationDoc(s) <= s.replica.doc
  }

  /** The step resolved what was speculative against the session: a state named it a viewer. */
  predicate Refuses(s: Session, t: Session) {
    s.replica.baseline.Some? && t.replica.baseline.None? && OwnRole(t) == Some(ViewerRole)
  }

  /** Only a viewer's resolution takes anything out of the replica, and it leaves what is clean. */
  predicate Keeps(s: Session, t: Session) {
    || s.replica.doc <= t.replica.doc
    || Refuses(s, t)
  }

  /** Nothing enters either replica, and nothing clean leaves: a resolution at most joins the two. */
  predicate Settles(s: Session, t: Session) {
    && (Layered(s) ==> Layered(t) && PublicationDoc(s) <= PublicationDoc(t) && t.replica.doc <= s.replica.doc)
    && Keeps(s, t)
  }

  /** The same document for the same role, whatever was sent of it. */
  predicate SameDoc(s: Session, t: Session) {
    t.replica.doc == s.replica.doc && (s.replica.baseline.None? ==> t.replica.baseline.None?) && OwnRole(t) == OwnRole(s)
  }

  lemma SmallStepsKeepTheDoc(s: Session, clock: nat)
    ensures SameDoc(s, RequestSync(s, clock)) && SameDoc(s, AnnounceKey(s, clock)) && SameDoc(s, AnnounceHolds(s, clock))
    ensures SameDoc(s, Reannounce(s, clock)) && SameDoc(s, Resync(s, clock))
  {
    SmallStepsKeepReplica(s, clock);
    WhoNeverChanges(s, clock);
  }

  lemma SettlesChains(s: Session, t: Session, u: Session)
    requires Settles(s, t) && Settles(t, u)
    requires t.replica == s.replica || SameDoc(t, u)
    ensures Settles(s, u)
  {
  }

  lemma SameReplicaSettles(s: Session, t: Session)
    requires t.replica == s.replica
    ensures Settles(s, t)
  {
  }

  lemma ResolvingSettles(s: Session)
    ensures Settles(s, ResolveSpeculation(s))
  {
  }

  lemma FlushingSettles(s: Session)
    ensures Settles(s, FlushHeldBack(s)) && SameDoc(s, FlushHeldBack(s))
  {
    hide SendAll, Extends;
    FlushingExtends(s);
    SameWhoExtends(s, FlushHeldBack(s));
    FlushingKeepsReader(s);
    var t := AcceptSpeculation(s);
    SendingKeepsReplica(t.(replica := t.replica.(unsent := [])), t.replica.unsent);
  }

  lemma SameWhoExtends(s: Session, t: Session)
    requires Extends(s, t)
    ensures t.who == s.who
  {
  }

  lemma AfterStateSettles(s: Session, clock: nat, issued: nat)
    ensures Settles(s, AfterState(s, clock, issued))
  {
    hide StateNoted, RequestSync, FlushHeldBack, AnnounceHolds, AnnounceKey, ResolveSpeculation, Settles, SameDoc;
    AfterStateShape(s, clock, issued);
    var a := StateNoted(s, clock, issued);
    NotingErases(s, clock, issued);
    SameReplicaSettles(s, a);
    var b: Session;
    if CommitsOurs(a) {
      var r := ResolveSpeculation(a);
      ResolvingSettles(a);
      SettlesChains(s, a, r);
      var c := HandshakeOnce(r, clock);
      SmallStepsKeepReplica(r, clock);
      SmallStepsKeepTheDoc(r, clock);
      SameReplicaSettles(r, c);
      SettlesChains(s, r, c);
      b := FlushHeldBack(c);
      FlushingSettles(c);
      SettlesChains(s, c, b);
    } else {
      b := AnnounceKey(a, clock);
      SmallStepsKeepReplica(a, clock);
      SameReplicaSettles(a, b);
      SettlesChains(s, a, b);
    }
    SmallStepsKeepReplica(b, clock);
    SmallStepsKeepTheDoc(b, clock);
    SameReplicaSettles(b, AnnounceHolds(b, clock));
    SettlesChains(s, b, AnnounceHolds(b, clock));
  }

  lemma StatePublishingSettles(s: Session, clock: nat, reason: Producer.HostReason, listing: seq<Path>, seals: bool)
    ensures Settles(s, PublishState(s, clock, reason, listing, seals))
  {
    hide AfterState, Producer.Publish, Settles, NewStateFolded;
    var next := PublishState(s, clock, reason, listing, seals);
    if s.wire.roomFrames < s.who.budget && s.host.Some? {
      PublishStateShape(s, clock, reason, listing, seals);
      var (h, out) := Producer.Publish(s.host.value, clock, reason, listing, seals);
      if out.Some? && out.value.isNew && out.value.state.Some? {
        var w := NewStateFolded(s, h, out.value);
        FoldingErases(s, h, out.value);
        SameReplicaSettles(s, w);
        AfterStateSettles(w, clock, out.value.issued);
        SettlesChains(s, w, next);
      } else {
        SameReplicaSettles(s, next);
      }
    } else {
      SameReplicaSettles(s, next);
    }
  }

  lemma TickingSettles(s: Session, clock: nat, listing: seq<Path>, seals: bool)
    ensures Settles(s, Tick(s, clock, listing, seals))
  {
    hide PublishState, RequestSync, AnnounceHolds, AnnounceKey, Producer.Close, HostSeat, Settles;
    var t, next := Housekept(s, clock), Tick(s, clock, listing, seals);
    SameReplicaSettles(s, t);
    if t.ending.Some? || t.who.budget <= t.wire.roomFrames || WindowPassed(t, clock).Some? {
      SameReplicaSettles(t, next);
    } else {
      var a := PublishState(t, clock, Producer.Announced, listing, seals);
      StatePublishingSettles(t, clock, Producer.Announced, listing, seals);
      SmallStepsKeepReplica(a, clock);
      SmallStepsKeepTheDoc(a, clock);
      SmallStepsKeepTheDoc(Reannounce(a, clock), clock);
      SmallStepsKeepTheDoc(Resync(Reannounce(a, clock), clock), clock);
      SmallStepsKeepReplica(Reannounce(a, clock), clock);
      SmallStepsKeepReplica(Resync(Reannounce(a, clock), clock), clock);
      SameReplicaSettles(a, next);
      SettlesChains(t, a, next);
    }
    SettlesChains(s, t, next);
  }

  lemma JoiningSettles(s: Session, clock: nat, seat: Seat, listing: seq<Path>, seals: bool)
    ensures Settles(s, SeatJoins(s, clock, seat, listing, seals))
  {
    hide PublishState, AnnounceHolds, HostSeat, Producer.AddSeat, Settles, SameDoc;
    var t := s.(host := if s.host.Some? then Some(Producer.SeatJoined(s.host.value, seat)) else None,
                view := s.view.(roster := s.view.roster + {seat}),
                holds := s.holds.(at := None));
    var u := if t.host.Some? then PublishState(t, clock, Producer.RosterChange, listing, seals)
             else if HostIsAway(t) then Republish(t) else t;
    SameReplicaSettles(s, t);
    StatePublishingSettles(t, clock, Producer.RosterChange, listing, seals);
    if t.host.None? {
      SameReplicaSettles(t, u);
    }
    SettlesChains(s, t, u);
    SmallStepsKeepReplica(u, clock);
    SmallStepsKeepTheDoc(u, clock);
    SameReplicaSettles(u, AnnounceHolds(u, clock));
    SettlesChains(s, u, AnnounceHolds(u, clock));
  }

  lemma LeavingSettles(s: Session, clock: nat, seat: Seat, listing: seq<Path>, seals: bool)
    ensures Settles(s, SeatLeaves(s, clock, seat, listing, seals))
  {
    hide PublishState, HostSeat, Producer.DropSeat, Producer.DropLabel, Settles;
    var t := s.(host := if s.host.Some? then Some(Producer.SeatLeft(s.host.value, seat)) else None,
                view := s.view.(roster := s.view.roster - {seat}));
    var u := RefreshHostAway(t, clock, false);
    SameReplicaSettles(s, u);
    StatePublishingSettles(u, clock, Producer.RosterChange, listing, seals);
    SettlesChains(s, u, PublishState(u, clock, Producer.RosterChange, listing, seals));
  }

  /** A frame that is no accepted content brings nothing, and one that is refused moves nothing. */
  lemma DeliveringSettles(s: Session, clock: nat, frame: Frame, listing: seq<Path>, seals: bool)
    requires !(Judge(s.reader, frame).Accepted? && frame.Frame? && frame.kind == 0 && s.view.stateIssued.Some?)
    ensures var t := Deliver(s, clock, frame, listing, seals);
            && Settles(s, t)
            && (Judge(s.reader, frame).Refused? ==> t.replica == s.replica)
            && (frame.Frame? && (frame.kind == 0 || frame.kind == 2 || frame.kind == 3 || (frame.kind == 4 && s.host.None?)) ==>
                  t.replica == s.replica)
  {
    hide Judge, Read, AfterState, PublishState, Producer.Announce, Settles, SpelledFirst;
    AcceptedExactly(s.reader, frame);
    var t := CountFrame(s);
    var v := Judge(t.reader, frame);
    var next := Deliver(s, clock, frame, listing, seals);
    SameReplicaSettles(s, t);
    if v.Refused? || (v.kind == 2 && t.view.stateIssued.None?) || v.kind == 0 || v.kind == 2 || v.kind == 3 {
      SameReplicaSettles(s, next);
    } else {
      var u := t.(reader := Read(t.reader, frame),
                  view := if v.kind == 1 then t.view.(heldState := Some(frame)) else t.view);
      SameReplicaSettles(s, u);
      if v.kind == 1 {
        AfterStateSettles(u, clock, v.body.state.issued);
        SettlesChains(s, u, next);
      } else if u.host.Some? {
        var w := u.(host := Some(Producer.Announce(u.host.value, v.body.key, v.body.declared)));
        SameReplicaSettles(s, w);
        StatePublishingSettles(w, clock, Producer.Announced, listing, seals);
        SettlesChains(s, w, next);
      } else {
        SameReplicaSettles(s, next);
      }
    }
  }

  // --- a state heard ---------------------------------------------------------------------------

  /** What an applied state leaves of the session's role, of its view of the room, and of its replica. */
  ghost predicate Resolved(s: Session, t: Session, issued: nat) {
    && t.reader == s.reader && t.view.stateIssued == Some(issued) && t.view.heldState == s.view.heldState
    && (OwnRole(t) == Some(ViewerRole) ==> t.replica.doc == PublicationDoc(s) && t.replica.baseline.None?)
    && (IsWriter(t) ==> t.replica.doc == s.replica.doc && t.replica.baseline.None?)
    && (!CommitsOurs(t) ==> t.replica == s.replica)
  }

  lemma AfterStateResolves(s: Session, clock: nat, issued: nat)
    ensures Resolved(s, AfterState(s, clock, issued), issued)
  {
    hide StateNoted, RequestSync, FlushHeldBack, AnnounceHolds, AnnounceKey, ResolveSpeculation;
    AfterStateShape(s, clock, issued);
    AfterStateKeepsReader(s, clock, issued);
    var a, t := StateNoted(s, clock, issued), AfterState(s, clock, issued);
    NotingErases(s, clock, issued);
    NotingKeepsTheRest(s, clock, issued);
    if CommitsOurs(a) {
      var r := ResolveSpeculation(a);
      ResolvingByRole(a);
      var c := HandshakeOnce(r, clock);
      SmallStepsKeepReplica(r, clock);
      SmallStepsKeepHeld(r, clock);
      FlushingSettles(c);
      FlushingKeepsView(c);
      SmallStepsKeepReplica(FlushHeldBack(c), clock);
      SmallStepsKeepHeld(FlushHeldBack(c), clock);
    } else {
      SmallStepsKeepReplica(a, clock);
      SmallStepsKeepHeld(a, clock);
      SmallStepsKeepReplica(AnnounceKey(a, clock), clock);
      SmallStepsKeepHeld(AnnounceKey(a, clock), clock);
    }
  }

  lemma NotingKeepsTheRest(s: Session, clock: nat, issued: nat)
    ensures var a := StateNoted(s, clock, issued);
            a.view.stateIssued == Some(issued) && a.view.heldState == s.view.heldState
  {
    hide HostSeat, Writers;
  }

  lemma ResolvingByRole(s: Session)
    requires CommitsOurs(s)
    ensures var r := ResolveSpeculation(s);
            && r.view == s.view && r.who == s.who && r.reader == s.reader && r.replica.baseline.None?
            && r.replica.doc == (if OwnRole(s) == Some(ViewerRole) then PublicationDoc(s) else s.replica.doc)
  {
    RoleIsKnown(s);
  }

  lemma SmallStepsKeepHeld(s: Session, clock: nat)
    ensures forall t | t == RequestSync(s, clock) || t == AnnounceKey(s, clock) || t == AnnounceHolds(s, clock) ::
              t.view.heldState == s.view.heldState && t.view.stateIssued == s.view.stateIssued && t.who == s.who
  {
    hide PublishFrame;
    WhoNeverChanges(s, clock);
    PublishingKeepsReplica(s, Syncing, StreamBody([SyncStep1(StateVector(PublicationDoc(s)))]));
    PublishingKeepsReplica(s, Announcing, AnnounceBody(s.who.me, s.who.declared));
    PublishingKeepsReplica(s, Holding, HoldsBody(s.holds.held));
  }

  lemma FlushingKeepsView(s: Session)
    ensures FlushHeldBack(s).view == s.view && FlushHeldBack(s).reader == s.reader && FlushHeldBack(s).who == s.who
  {
    hide SendAll, Extends;
    FlushingExtends(s);
    SameWhoExtends(s, FlushHeldBack(s));
    var t := AcceptSpeculation(s);
    SendingKeepsReplica(t.(replica := t.replica.(unsent := [])), t.replica.unsent);
  }

  /**
   An accepted state is the one held and applied: its keys are the room's, and this session's replica
   is its own document if they make it a writer and the clean one if they make it a viewer.
   */
  lemma AStateHeardIsApplied(s: Session, clock: nat, frame: Frame, listing: seq<Path>, seals: bool)
    requires Judge(s.reader, frame).Accepted? && frame.kind == 1
    ensures var t := Deliver(s, clock, frame, listing, seals);
            && frame.body.StateBody? && t.reader.committed == frame.body.state.peers && t.reader.issued == frame.body.state.issued
            && t.view.stateIssued == Some(frame.body.state.issued) && t.view.heldState == Some(frame)
            && (OwnRole(t) == Some(ViewerRole) ==> t.replica.doc == PublicationDoc(s) && t.replica.baseline.None?)
            && (IsWriter(t) ==> t.replica.doc == s.replica.doc && t.replica.baseline.None?)
            && (!CommitsOurs(t) ==> t.replica == s.replica)
  {
    hide Judge, AfterState;
    AcceptedExactly(s.reader, frame);
    var u := CountFrame(s).(reader := Read(s.reader, frame));
    var v := u.(view := u.view.(heldState := Some(frame)));
    AfterStateResolves(v, clock, frame.body.state.issued);
  }

  // --- every step ------------------------------------------------------------------------------

  /** The content an input brings: that of an accepted frame, while a state is held. */
  function BroughtBy(s: Session, i: Input): set<Atom> {
    if i.Delivered? && i.frame.Frame? && i.frame.kind == 0 && s.view.stateIssued.Some? && Judge(s.reader, i.frame).Accepted?
    then Brought(Stream(i.frame.body)) else {}
  }

  ghost function MadeBy(s: Session, i: Input): set<Atom> {
    if Authored(s, i).Some? && Authored(s, i).value.Atoms? then Authored(s, i).value.atoms else {}
  }

  /**
   One step: both replicas gain what was brought, and the local one besides that its own edit only;
   and nothing goes but by a refusal.
   */
  ghost predicate Gains(s: Session, t: Session, brought: set<Atom>, made: set<Atom>) {
    Layered(s) ==>
      && Layered(t) && PublicationDoc(s) + brought <= PublicationDoc(t)
      && t.replica.doc <= s.replica.doc + brought + made
  }

  ghost predicate Holds(s: Session, t: Session, brought: set<Atom>, made: set<Atom>) {
    Refuses(s, t) || s.replica.doc + brought + made <= t.replica.doc
  }

  lemma InsertingGains(s: Session, i: Input)
    requires i.Inserted?
    ensures Gains(s, Step(s, i), {}, MadeBy(s, i)) && Holds(s, Step(s, i), {}, MadeBy(s, i))
  {
    hide Diff, StateVector, NextClock, PublishFrame, Layered;
    var t := if !IsWriter(s) then BeginSpeculation(s) else s;
    var u := t.(replica := t.replica.(doc := t.replica.doc + {NewAtom(t, i.payload)}));
    var ready := AcceptSpeculation(u);
    PublishingKeepsReplica(ready, Content, StreamBody([Update(Atoms(Diff(u.replica.doc, StateVector(t.replica.doc))))]));
    EditKeepsLayers(s, Step(s, i), i);
  }

  lemma EditKeepsLayers(s: Session, t: Session, i: Input)
    requires i.Inserted?
    requires t.replica.doc == s.replica.doc + MadeBy(s, i)
    requires t.replica.baseline == s.replica.baseline || t.replica.baseline == Some(s.replica.doc) || t.replica.baseline.None?
    ensures Gains(s, t, {}, MadeBy(s, i)) && Holds(s, t, {}, MadeBy(s, i))
  {
  }

  lemma StepGains(s: Session, i: Input)
    ensures Gains(s, Step(s, i), BroughtBy(s, i), MadeBy(s, i)) && Holds(s, Step(s, i), BroughtBy(s, i), MadeBy(s, i))
  {
    hide Deliver, Tick, Insert, SeatJoins, SeatLeaves, PublishState, AnnounceHolds, Producer.Close, Judge, Brought, NewAtom;
    match i
    case Delivered(clock, frame, listing, seals) =>
      if frame.Frame? && frame.kind == 0 && s.view.stateIssued.Some? && Judge(s.reader, frame).Accepted? {
        ContentReachesBoth(s, clock, frame, listing, seals);
      } else {
        DeliveringSettles(s, clock, frame, listing, seals);
      }
    case Ticked(clock, listing, seals) => TickingSettles(s, clock, listing, seals);
    case Inserted(payload, fits) => InsertingGains(s, i);
    case SomeoneJoined(clock, seat, listing, seals) => JoiningSettles(s, clock, seat, listing, seals);
    case SomeoneLeft(clock, seat, listing, seals) => LeavingSettles(s, clock, seat, listing, seals);
    case ListingChanged(clock, listing, seals) => StatePublishingSettles(s, clock, Producer.ListingChange, listing, seals);
    case Held(clock, held) => SmallStepsKeepReplica(s.(holds := s.holds.(held := held)), clock);
    case RoomClosed(seals) =>
    case Taken =>
  }

  // --- whole runs --------------------------------------------------------------------------------

  /** All the content a run's frames brought. */
  ghost function HeardIn(s: Session, inputs: seq<Input>): set<Atom> {
    if inputs == [] then {}
    else
      var rest := inputs[..|inputs| - 1];
      HeardIn(s, rest) + BroughtBy(Run(s, rest), inputs[|inputs| - 1])
  }

  ghost function MadeIn(s: Session, inputs: seq<Input>): set<Atom> {
    if inputs == [] then {}
    else
      var rest := inputs[..|inputs| - 1];
      MadeIn(s, rest) + MadeBy(Run(s, rest), inputs[|inputs| - 1])
  }

  lemma {:induction false} RunGains(s: Session, inputs: seq<Input>)
    ensures Gains(s, Run(s, inputs), HeardIn(s, inputs), MadeIn(s, inputs))
    decreases |inputs|
  {
    hide Step, BroughtBy, MadeBy, Layered;
    if inputs != [] {
      var rest, last := inputs[..|inputs| - 1], inputs[|inputs| - 1];
      RunGains(s, rest);
      StepGains(Run(s, rest), last);
    }
  }

  /** No state of the run resolved the session's speculation against it. */
  ghost predicate NeverRefused(s: Session, inputs: seq<Input>) {
    inputs == [] ||
    (var rest, last := inputs[..|inputs| - 1], inputs[|inputs| - 1];
     NeverRefused(s, rest) && !Refuses(Run(s, rest), Step(Run(s, rest), last)))
  }

  lemma {:induction false} RunHolds(s: Session, inputs: seq<Input>)
    requires NeverRefused(s, inputs)
    ensures s.replica.doc + HeardIn(s, inputs) + MadeIn(s, inputs) <= Run(s, inputs).replica.doc
    decreases |inputs|
  {
    hide Step, BroughtBy, MadeBy, Gains, Refuses;
    if inputs != [] {
      var rest, last := inputs[..|inputs| - 1], inputs[|inputs| - 1];
      RunHolds(s, rest);
      StepGains(Run(s, rest), last);
    }
  }

  /**
   Over every run from the opening on: what is clean lies within the replica, both hold all the
   content ever accepted, and the replica holds nothing besides that but the session's own edits:
   every one of them, unless a state refused it as a viewer's.
   */
  lemma AReplicaIsWhatItHeardAndMade(o: Opening, s: Session, inputs: seq<Input>)
    requires Begins(o, s)
    ensures var t := Run(s, inputs);
            && (t.replica.baseline.Some? ==> t.replica.baseline.value <= t.replica.doc)
            && HeardIn(s, inputs) <= PublicationDoc(t) && HeardIn(s, inputs) <= t.replica.doc
            && t.replica.doc <= HeardIn(s, inputs) + MadeIn(s, inputs)
            && (NeverRefused(s, inputs) ==> t.replica.doc == HeardIn(s, inputs) + MadeIn(s, inputs))
  {
    hide PublishState, HeardIn, MadeIn, NeverRefused;
    if NeverRefused(s, inputs) {
      RunHolds(s, inputs);
    }
    var b := Opened(o.who, o.hostKey, o.roster, o.host);
    assert s == PublishState(b, 0, Producer.Mint, o.listing, o.seals);
    StatePublishingSettles(b, 0, Producer.Mint, o.listing, o.seals);
    RunGains(s, inputs);
  }

  /** The `n`th input was a frame a writer of the state then applied really signed, and brought `a`. */
  ghost predicate AWriterSent(s: Session, inputs: seq<Input>, n: nat, a: Atom) {
    && n < |inputs| && inputs[n].Delivered? && inputs[n].frame.Frame? && inputs[n].frame.signer.Some?
    && Authentic(inputs[n].frame, inputs[n].frame.signer.value)
    && IsWriterOf(Run(s, inputs[..n]).reader.committed, inputs[n].frame.signer.value)
    && a in Brought(Stream(inputs[n].frame.body))
  }

  /** Every atom heard came on a frame that a host or guest of the moment signed. */
  lemma {:induction false} EveryAtomHeardHasAWriter(s: Session, inputs: seq<Input>, a: Atom) returns (n: nat)
    requires a in HeardIn(s, inputs)
    ensures AWriterSent(s, inputs, n, a)
    decreases |inputs|
  {
    hide Step, Judge;
    var rest, last := inputs[..|inputs| - 1], inputs[|inputs| - 1];
    if a in BroughtBy(Run(s, rest), last) {
      n := |inputs| - 1;
      AcceptedExactly(Run(s, rest).reader, last.frame);
      BroughtIsContent(Stream(last.frame.body), a);
    } else {
      n := EveryAtomHeardHasAWriter(s, rest, a);
      assert rest[..n] == inputs[..n];
    }
  }

  lemma BroughtIsContent(messages: seq<Message>, a: Atom)
    requires a in Brought(messages)
    ensures HasContent(messages)
  {
  }

  /** What a committed viewer's frame does to a session: to its replicas, nothing. */
  lemma AViewersFrameMovesNothing(s: Session, clock: nat, frame: Frame, listing: seq<Path>, seals: bool, key: PublicKey)
    requires frame.Frame? && frame.signer == Some(key) && key != s.reader.hostKey
    requires key in s.reader.committed && s.reader.committed[key].role == ViewerRole
    ensures var t := Deliver(s, clock, frame, listing, seals);
            && (Layered(s) ==> Layered(t) && t.replica.doc <= s.replica.doc && PublicationDoc(s) <= PublicationDoc(t))
            && (frame.kind != 4 || s.host.None? ==> t.replica == s.replica)
  {
    hide Judge, Deliver, Brought;
    AcceptedExactly(s.reader, frame);
    if Judge(s.reader, frame).Accepted? && frame.kind == 0 && s.view.stateIssued.Some? {
      assert Brought(Stream(frame.body)) == {} by {
        if a :| a in Brought(Stream(frame.body)) {
          BroughtIsContent(Stream(frame.body), a);
        }
      }
      ContentReachesBoth(s, clock, frame, listing, seals);
      var t := Deliver(s, clock, frame, listing, seals);
      assert t.replica.doc == s.replica.doc && PublicationDoc(t) == PublicationDoc(s);
      assert t.replica == s.replica;
    } else {
      DeliveringSettles(s, clock, frame, listing, seals);
    }
  }
}
