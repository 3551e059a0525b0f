/**
 Conservation of local edits, step by step: what a session sends of the edits it holds is what the
 step's mask picks, what it keeps is the rest, and besides that an edit is only discarded by a
 `viewer` resolution or dropped by an ending.
 */
module EditLedger {
  import opened Options
  import opened Replica
  import opened Frames
  import opened Sealed
  import opened Producer
  import opened Session
  import opened SessionFrames
  import opened Speculation
  import opened Flushes

  // --- the edits on the wire ---------------------------------------------------------------

  /** A frame that carries one local edit out. */
  predicate CarriesEdit(frame: Frame) {
    frame.Frame? && frame.kind == 0 && frame.body.StreamBody? && |frame.body.messages| == 1 && frame.body.messages[0].Update?
  }

  function EditOf(frame: Frame): seq<Delta> {
    if CarriesEdit(frame) then [frame.body.messages[0].delta] else []
  }

  function Sent(frames: seq<Frame>): seq<Delta> {
    if frames == [] then [] else Sent(frames[..|frames| - 1]) + EditOf(frames[|frames| - 1])
  }

  lemma {:induction false} SentAdds(left: seq<Frame>, right: seq<Frame>)
    ensures Sent(left + right) == Sent(left) + Sent(right)
    decreases |right|
  {
    if right == [] {
      assert left + right == left;
    } else {
      var n := |right| - 1;
      SentAdds(left, right[..n]);
      assert (left + right)[..|left + right| - 1] == left + right[..n];
    }
  }

  lemma SentOne(frame: Frame)
    ensures Sent([frame]) == EditOf(frame)
  {
    assert [frame][..0] == [];
  }

  function Deltas(unsent: seq<Unsent>): seq<Delta> {
    seq(|unsent|, i requires 0 <= i < |unsent| => unsent[i].delta)
  }

  // --- steps that move no edit ---------------------------------------------------------------

  ghost predicate Silent(s: Session, t: Session) {
    && Extends(s, t) && Sent(Added(s, t)) == [] && t.replica.unsent == s.replica.unsent
    && t.reader == s.reader && t.ending == s.ending && t.view.stateIssued == s.view.stateIssued
  }

  lemma SilentItself(s: Session, t: Session)
    requires t.who == s.who && t.host == s.host && t.wire == s.wire && (Sane(s) ==> Sane(t))
    requires t.replica.unsent == s.replica.unsent && t.reader == s.reader && t.ending == s.ending
    requires t.view.stateIssued == s.view.stateIssued
    ensures Silent(s, t)
  {
    ExtendsItself(s, t);
    assert Added(s, t) == [];
  }

  lemma SilentChains(s: Session, t: Session, u: Session)
    requires Silent(s, t) && Silent(t, u)
    ensures Silent(s, u)
  {
    hide Extends;
    ExtendsChains(s, t, u);
    ExtendsMeansPrefix(s, t);
    ExtendsMeansPrefix(t, u);
    SentAdds(Added(s, t), Added(t, u));
  }

  lemma ExtendsMeansPrefix(s: Session, t: Session)
    requires Extends(s, t)
    ensures s.wire.outbound <= t.wire.outbound && t.who == s.who && s.wire.roomFrames <= t.wire.roomFrames
  {
  }

  lemma PublishingSilent(s: Session, what: Kind, body: Body)
    requires what != Content && (body.StreamBody? ==> forall m <- body.messages :: !m.Update?)
    ensures Silent(s, PublishFrame(s, what, body).0)
  {
    PublishingExtends(s, what, body);
    PublishingKeepsReplica(s, what, body);
    SentOne(OwnFrame(s, what, s.wire.counter + 1, body));
  }

  lemma SmallStepsSilent(s: Session, clock: nat)
    ensures Silent(s, RequestSync(s, clock)) && Silent(s, AnnounceKey(s, clock)) && Silent(s, AnnounceHolds(s, clock))
  {
    hide PublishFrame;
    PublishingSilent(s, Syncing, StreamBody([SyncStep1(StateVector(PublicationDoc(s)))]));
    PublishingSilent(s, Announcing, AnnounceBody(s.who.me, s.who.declared));
    PublishingSilent(s, Holding, HoldsBody(s.holds.held));
    RequestExtends(s, clock);
    AnnouncingExtends(s, clock);
    HoldingExtends(s, clock);
    SmallStepsKeepReplica(s, clock);
    SilentItself(s, s);
  }

  // --- a flush -----------------------------------------------------------------------------------

  predicate SealsHold(s: Session) {
    s.who.unsealable == {}
  }

  lemma SendingOne(s: Session, delta: Delta)
    ensures var (t, sent) := SendUpdate(s, delta);
            && Extends(s, t) && Sent(Added(s, t)) == (if sent then [delta] else [])
            && t.replica == s.replica && t.reader == s.reader && t.ending == s.ending && t.view == s.view
  {
    var body := StreamBody([Update(delta)]);
    PublishingExtends(s, Content, body);
    PublishingKeepsReplica(s, Content, body);
    SentOne(OwnFrame(s, Content, s.wire.counter + 1, body));
  }

  /** A flush sends the held edits its mask picks, in their order, and keeps the others in theirs. */
  lemma {:induction false} SendingPicks(s: Session, held: seq<Unsent>)
    ensures var (t, kept) := SendAll(s, held);
            var mask := SendMask(s, held);
            Extends(s, t) && Sent(Added(s, t)) == Picked(Deltas(held), mask) && Deltas(kept) == Skipped(Deltas(held), mask)
    decreases |held|
  {
    hide Extends, SendUpdate, Picked, Skipped, Sent, Added, Deltas;
    if held == [] {
      SendingNothing(s);
    } else {
      var (t, sent) := SendUpdate(s, held[0].delta);
      SendingOne(s, held[0].delta);
      SendingPicks(t, held[1..]);
      var (u, kept) := SendAll(t, held[1..]);
      AddedThenAdded(s, t, u);
      DeltasOfHead(held);
      DeltasOfCons(held[0], kept);
      var mask := SendMask(s, held);
      assert mask[0] == sent && mask[1..] == SendMask(t, held[1..]);
      ConsPicked(held[0].delta, Deltas(held[1..]), mask);
    }
  }

  lemma SendingNothing(s: Session)
    ensures Extends(s, s) && Sent(Added(s, s)) == [] && Deltas([]) == []
    ensures forall mask :: Picked([], mask) == [] && Skipped([], mask) == []
  {
    ExtendsItself(s, s);
    assert Added(s, s) == [];
  }

  lemma AddedThenAdded(s: Session, t: Session, u: Session)
    requires Extends(s, t) && Extends(t, u)
    ensures Extends(s, u) && Sent(Added(s, u)) == Sent(Added(s, t)) + Sent(Added(t, u))
  {
    ExtendsChains(s, t, u);
    SentAdds(Added(s, t), Added(t, u));
  }

  lemma DeltasOfCons(head: Unsent, rest: seq<Unsent>)
    ensures Deltas([head] + rest) == [head.delta] + Deltas(rest)
  {
  }

  /** Absent failures a writer keeps an edit only for want of a frame to send it in. */
  lemma {:induction false} SealedSendingDrains(s: Session, held: seq<Unsent>)
    requires SealsHold(s) && MayFlush(s)
    ensures var (t, kept) := SendAll(s, held);
            kept != [] ==> t.who.budget <= t.wire.roomFrames
    decreases |held|
  {
    hide SendUpdate, MayFlush;
    if held != [] {
      SendingOneTells(s, held[0].delta);
      if s.who.budget <= s.wire.roomFrames {
        SpentSendsNothing(s, held);
      } else {
        SealedSendingDrains(SendUpdate(s, held[0].delta).0, held[1..]);
      }
    }
  }

  lemma DeltasOfHead(held: seq<Unsent>)
    requires held != []
    ensures Deltas(held) == [held[0].delta] + Deltas(held[1..])
  {
  }

  lemma {:induction false} SpentSendsNothing(s: Session, held: seq<Unsent>)
    requires s.who.budget <= s.wire.roomFrames || held == []
    ensures SendAll(s, held) == (s, held)
    decreases |held|
  {
    if held != [] {
      SpentSendsNothing(s, held[1..]);
      assert held == [held[0]] + held[1..];
    }
  }

  lemma AcceptKeepsDeltas(unsent: seq<Unsent>)
    ensures Deltas(Accept(unsent)) == Deltas(unsent)
  {
  }

  /** What a flush does to the edits of a session whose speculation is resolved. */
  lemma FlushingPicks(s: Session)
    requires s.replica.baseline.None? && !AnySpeculative(s.replica.unsent)
    requires s.view.stateIssued.Some? && CommitsOurs(s)
    ensures var t, held, mask := FlushHeldBack(s), s.replica.unsent, FlushMask(s);
            && Extends(s, t)
            && t.reader == s.reader && t.ending == s.ending && t.view.stateIssued == s.view.stateIssued
            && |mask| <= |held| && (SealsHold(s) ==> !OutOfOrder(mask))
            && if s.ending.Some? then Sent(Added(s, t)) == [] && t.replica.unsent == []
               else if !IsWriter(s) then Sent(Added(s, t)) == [] && t.replica.unsent == held
               else && Sent(Added(s, t)) == Picked(Deltas(held), mask) && Deltas(t.replica.unsent) == Skipped(Deltas(held), mask)
                    && (SealsHold(s) && t.replica.unsent != [] ==> t.who.budget <= t.wire.roomFrames)
  {
    hide SendAll, SendMask, Extends;
    FlushOfSettled(s);
    FlushingExtends(s);
    SendingKeepsReplica(s, s.replica.unsent);
    SendingExtends(s, s.replica.unsent);
    ExtendsMeansPrefix(s, SendAll(s, s.replica.unsent).0);
    ExtendsMeansPrefix(s, FlushHeldBack(s));
    assert Added(s, s) == [];
    if s.ending.None? && IsWriter(s) {
      SendingPicks(s, s.replica.unsent);
      SendMaskLength(s, s.replica.unsent);
      if SealsHold(s) {
        SealedFlushesKeepOrder(s, s.replica.unsent);
        SealedSendingDrains(s, s.replica.unsent);
      }
    } else {
      assert Added(s, FlushHeldBack(s)) == [];
    }
  }

  // --- what an applied state does to the edits -----------------------------------------------------

  /**
   The fate of the edits `before` holds, across a step that leaves `after` and makes none: those
   the mask picks are sent, and absent failures they are the front.
   */
  ghost predicate Moves(before: Session, after: Session, mask: seq<bool>) {
    && Extends(before, after) && |mask| <= |before.replica.unsent| && (SealsHold(before) ==> !OutOfOrder(mask))
    && (var sent, held, left := Sent(Added(before, after)), before.replica.unsent, after.replica.unsent;
        if before.ending.Some? then mask == [] && sent == [] && (left == held || left == [])
        else || (sent == Picked(Deltas(held), mask) && Deltas(left) == Skipped(Deltas(held), mask))
             || (mask == [] && sent == [] && OwnRole(after) == Some(ViewerRole) && left == Settled(held)))
  }

  /** No live writer holds an edit back while it has frames left to send it in. */
  ghost predicate Drained(s: Session) {
    s.ending.None? && IsWriter(s) && s.view.stateIssued.Some? && s.replica.unsent != [] ==> s.who.budget <= s.wire.roomFrames
  }

  lemma SilentMoves(s: Session, t: Session)
    requires Silent(s, t)
    ensures Moves(s, t, []) && (Drained(s) ==> Drained(t))
  {
  }

  lemma MovesThenSilent(s: Session, t: Session, u: Session, mask: seq<bool>)
    requires Moves(s, t, mask) && Silent(t, u)
    ensures Moves(s, u, mask) && (Drained(t) ==> Drained(u))
  {
    hide Extends;
    ExtendsChains(s, t, u);
    ExtendsMeansPrefix(s, t);
    ExtendsMeansPrefix(t, u);
    SentAdds(Added(s, t), Added(t, u));
  }

  /** A step that sends no edit and touches none. */
  ghost predicate Still(s: Session, t: Session) {
    Extends(s, t) && Sent(Added(s, t)) == [] && t.replica.unsent == s.replica.unsent && t.ending == s.ending
  }

  lemma StillThenMoves(s: Session, t: Session, u: Session, mask: seq<bool>)
    requires Still(s, t) && Moves(t, u, mask)
    ensures Moves(s, u, mask)
  {
    hide Extends;
    MovesExtends(t, u, mask);
    ExtendsChains(s, t, u);
    ExtendsMeansPrefix(s, t);
    ExtendsMeansPrefix(t, u);
    SentAdds(Added(s, t), Added(t, u));
  }

  lemma MovesExtends(s: Session, t: Session, mask: seq<bool>)
    requires Moves(s, t, mask)
    ensures Extends(s, t)
  {
  }

  lemma NotingSilent(s: Session, clock: nat, issued: nat)
    ensures var a := StateNoted(s, clock, issued);
            && Extends(s, a) && Sent(Added(s, a)) == [] && a.replica == s.replica
            && a.reader == s.reader && a.ending == s.ending && a.who == s.who && a.view.stateIssued == Some(issued)
  {
    hide HostSeat, Writers;
    assert Added(s, StateNoted(s, clock, issued)) == [];
  }

  lemma AfterStateMoves(s: Session, clock: nat, issued: nat)
    requires AnySpeculative(s.replica.unsent) ==> s.replica.baseline.Some?
    ensures var t := AfterState(s, clock, issued);
            Moves(s, t, StateMask(s, clock, issued)) && (SealsHold(s) ==> Drained(t))
  {
    hide StateNoted, FlushMask, RequestSync, FlushHeldBack, AnnounceHolds, AnnounceKey, ResolveSpeculation, Silent, Moves, Drained, Extends;
    AfterStateShape(s, clock, issued);
    var a := StateNoted(s, clock, issued);
    NotingSilent(s, clock, issued);
    var b: Session;
    if CommitsOurs(a) {
      ResolvedHasNone(a);
      ResolvingIsLocal(a);
      var r := ResolveSpeculation(a);
      SmallStepsSilent(r, clock);
      SilentItself(r, r);
      var c := HandshakeOnce(r, clock);
      SmallStepsKeepReplica(r, clock);
      SilentMeans(r, c);
      FlushingPicks(c);
      b := FlushHeldBack(c);
      CommittedStateMoves(s, a, r, c, b);
    } else {
      SmallStepsSilent(a, clock);
      b := AnnounceKey(a, clock);
      UncommittedStateMoves(s, a, b);
    }
    SmallStepsSilent(b, clock);
    MovesThenSilent(s, b, AnnounceHolds(b, clock), StateMask(s, clock, issued));
  }

  lemma SilentMeans(s: Session, t: Session)
    requires Silent(s, t)
    ensures Extends(s, t) && Sent(Added(s, t)) == [] && t.replica.unsent == s.replica.unsent && t.reader == s.reader
    ensures t.ending == s.ending && t.view.stateIssued == s.view.stateIssued && t.who == s.who
  {
  }

  lemma ResolvingIsLocal(s: Session)
    ensures var r := ResolveSpeculation(s);
            && r.wire == s.wire && r.host == s.host && r.who == s.who
            && (OwnRole(s) == Some(ViewerRole) ==> r.replica.unsent == Settled(s.replica.unsent))
            && (IsWriter(s) ==> r.replica.unsent == Accept(s.replica.unsent))
  {
  }

  lemma UncommittedStateMoves(s: Session, a: Session, b: Session)
    requires Extends(s, a) && Sent(Added(s, a)) == [] && a.replica == s.replica && a.reader == s.reader && a.ending == s.ending
    requires a.who == s.who && Silent(a, b) && !CommitsOurs(a)
    ensures Moves(s, b, []) && Drained(b)
  {
    hide Extends;
    SilentMeans(a, b);
    ExtendsChains(s, a, b);
    ExtendsMeansPrefix(s, a);
    ExtendsMeansPrefix(a, b);
    SentAdds(Added(s, a), Added(a, b));
  }

  lemma CommittedStateMoves(s: Session, a: Session, r: Session, c: Session, b: Session)
    requires Extends(s, a) && Sent(Added(s, a)) == [] && a.replica == s.replica && a.reader == s.reader && a.ending == s.ending
    requires a.who == s.who && CommitsOurs(a) && a.view.stateIssued.Some?
    requires r == ResolveSpeculation(a) && Silent(r, c) && c.replica.baseline.None? && !AnySpeculative(c.replica.unsent)
    requires b == FlushHeldBack(c)
    ensures Moves(s, b, FlushMask(c)) && (SealsHold(s) ==> Drained(b))
  {
    hide Extends, SendMask, FlushHeldBack, ResolveSpeculation, Silent;
    ResolvingIsLocal(a);
    ResolvingKeepsReader(a);
    ResolvingKeepsTheRest(a);
    ExtendsItself(a, r);
    assert Added(a, r) == [];
    SilentMeans(r, c);
    FlushingPicks(c);
    FourExtend(s, a, r, c, b);
    AcceptKeepsDeltas(a.replica.unsent);
    RoleIsKnown(a);
  }

  lemma FourExtend(s: Session, a: Session, r: Session, c: Session, b: Session)
    requires Extends(s, a) && Extends(a, r) && Extends(r, c) && Extends(c, b)
    requires Sent(Added(s, a)) == [] && Sent(Added(a, r)) == [] && Sent(Added(r, c)) == []
    ensures Extends(s, b) && Sent(Added(s, b)) == Sent(Added(c, b)) && c.who == s.who && b.who == s.who && r.who == s.who
  {
    hide Extends;
    ExtendsMeansPrefix(s, a);
    ExtendsMeansPrefix(a, r);
    ExtendsMeansPrefix(r, c);
    ExtendsMeansPrefix(c, b);
    ExtendsChains(s, a, r);
    ExtendsChains(s, r, c);
    ExtendsChains(s, c, b);
    SentAdds(Added(s, a), Added(a, r));
    SentAdds(Added(s, r), Added(r, c));
    SentAdds(Added(s, c), Added(c, b));
  }

  lemma ResolvingKeepsTheRest(s: Session)
    ensures var r := ResolveSpeculation(s);
            r.ending == s.ending && r.view == s.view && (Sane(s) ==> Sane(r))
  {
  }

  // --- every other step -------------------------------------------------------------------------

  lemma StatePublishingMoves(s: Session, clock: nat, reason: HostReason, listing: seq<Path>, seals: bool)
    requires Sane(s) && (AnySpeculative(s.replica.unsent) ==> s.replica.baseline.Some?)
    ensures var t := PublishState(s, clock, reason, listing, seals);
            Moves(s, t, PublicationMask(s, clock, reason, listing, seals)) && (SealsHold(s) && Drained(s) ==> Drained(t))
  {
    hide AfterState, StateMask, Publish, Moves, Silent, Extends, Drained;
    SilentItself(s, s);
    SilentMoves(s, s);
    if s.wire.roomFrames < s.who.budget && s.host.Some? {
      HostPublishes(s.host.value, clock, reason, listing, seals);
      PublishStateShape(s, clock, reason, listing, seals);
      var (h, out) := Publish(s.host.value, clock, reason, listing, seals);
      var next := PublishState(s, clock, reason, listing, seals);
      if out.None? {
        HostQuietly(s, next);
      } else if !out.value.isNew {
        OldStateExtends(s, h, out.value);
        SentOne(out.value.frame);
        QueuedStateMoves(s, next);
      } else {
        var w := NewStateFolded(s, h, out.value);
        NewStateExtends(s, h, out.value);
        SentOne(out.value.frame);
        AfterStateMoves(w, clock, out.value.issued);
        StillThenMoves(s, w, next, StateMask(w, clock, out.value.issued));
      }
    }
  }

  lemma HostQuietly(s: Session, t: Session)
    requires Sane(s) && s.host.Some? && t.host.Some? && t == s.(host := t.host, wire := t.wire) && t.wire == s.wire.(fault := t.wire.fault)
    requires t.host.value.series.counter == s.host.value.series.counter
    requires t.host.value.series.last.Some? ==> t.host.value.series.last == s.host.value.series.last || IsStateFrame(t.host.value.series.last.value.frame)
    ensures Moves(s, t, []) && (Drained(s) ==> Drained(t))
  {
    assert Added(s, t) == [];
  }

  lemma QueuedStateMoves(s: Session, t: Session)
    requires Extends(s, t) && Sent(Added(s, t)) == [] && t == s.(host := t.host, wire := t.wire)
    ensures Moves(s, t, []) && (Drained(s) ==> Drained(t))
  {
  }

  predicate Answers(replies: seq<Message>) {
    forall m <- replies :: m.SyncStep2?
  }

  lemma {:induction false} RepliesAreAnswers(r: ReadState, answers: bool, messages: seq<Message>)
    requires Answers(r.replies) && |r.replies| <= 1
    ensures Answers(ReadStream(r, answers, messages).replies) && |ReadStream(r, answers, messages).replies| <= 1
    decreases |messages|
  {
    if messages != [] {
      RepliesAreAnswers(ReadMessage(r, answers, messages[0]).0, answers, messages[1..]);
    }
  }

  lemma StreamRepliesAreAnswers(doc: Doc, answers: bool, messages: seq<Message>)
    ensures Answers(ApplyStream(doc, answers, messages).replies) && |ApplyStream(doc, answers, messages).replies| <= 1
  {
    RepliesAreAnswers(ReadState(doc, [], false), answers, messages);
  }

  lemma {:induction false} ReplyingSilent(s: Session, replies: seq<Message>)
    requires Answers(replies)
    ensures Silent(s, SendReplies(s, replies))
    decreases |replies|
  {
    hide PublishFrame, Silent;
    if replies == [] {
      SilentItself(s, s);
    } else {
      assert replies[0] in replies;
      PublishingSilent(s, Syncing, StreamBody([replies[0]]));
      var t := PublishFrame(s, Syncing, StreamBody([replies[0]])).0;
      ReplyingSilent(t, replies[1..]);
      SilentChains(s, t, SendReplies(t, replies[1..]));
    }
  }

  lemma ReadingSilent(s: Session, messages: seq<Message>, verified: PublicKey)
    ensures Silent(s, ApplyContent(s, messages, verified))
  {
    hide ApplyStream, SendReplies, Writers, Silent;
    var answers := MayPublish(s) && IsWriter(s);
    var read := ApplyStream(PublicationDoc(s), answers, messages);
    StreamRepliesAreAnswers(PublicationDoc(s), answers, messages);
    var t := ReadInto(s, messages, answers);
    var u := if read.requested then ArmReciprocal(t, verified) else t;
    SilentItself(s, s);
    SilentItself(s, u);
    ReplyingSilent(u, read.replies);
    SilentChains(s, u, SendReplies(u, read.replies));
  }

  lemma CountingStill(s: Session, t: Session)
    requires t.who == s.who && t.wire == CountFrame(s).wire && t.host == CountFrame(s).host
    requires t.replica == s.replica && t.ending == s.ending
    requires t.view == s.view || (t.view == s.view.(heldState := t.view.heldState) && t.view.heldState.Some? && IsStateFrame(t.view.heldState.value))
    ensures Still(s, t)
    ensures t.reader.committed == s.reader.committed && Drained(s) ==> Drained(t)
  {
    assert Added(s, t) == [];
  }

  lemma StillThenSilent(s: Session, t: Session, u: Session)
    requires Still(s, t) && Silent(t, u)
    ensures Moves(s, u, []) && (Drained(t) ==> Drained(u))
  {
    hide Silent, Still, Moves, Drained;
    SilentMoves(t, u);
    StillThenMoves(s, t, u, []);
  }

  lemma DeliveringMoves(s: Session, clock: nat, frame: Frame, listing: seq<Path>, seals: bool)
    requires Sane(s) && (AnySpeculative(s.replica.unsent) ==> s.replica.baseline.Some?)
    ensures var t := Deliver(s, clock, frame, listing, seals);
            Moves(s, t, DeliveryMask(s, clock, frame, listing, seals)) && (SealsHold(s) && Drained(s) ==> Drained(t))
  {
    hide StateMask, PublicationMask, Read, ApplyContent, AfterState, PublishState, Announce, SpelledFirst, Silent, Still, Moves, Extends;
    var t := CountFrame(s);
    var v := Judge(t.reader, frame);
    var next := Deliver(s, clock, frame, listing, seals);
    if v.Refused? || (v.kind == 2 && t.view.stateIssued.None?) {
      if v.Accepted? {
        ReadKeepsCommitted(t.reader, frame);
      }
      CountingStill(s, next);
      SilentItself(next, next);
      StillThenSilent(s, next, next);
    } else {
      if v.kind != 1 {
        ReadKeepsCommitted(t.reader, frame);
      }
      var u := t.(reader := Read(t.reader, frame),
                  view := if v.kind == 1 then t.view.(heldState := Some(frame)) else t.view);
      CountingStill(s, u);
      match v.kind {
        case 0 =>
          ReadingSilent(u, Stream(v.body), v.key);
          StillThenSilent(s, u, next);
        case 1 =>
          AfterStateMoves(u, clock, v.body.state.issued);
          StillThenMoves(s, u, next, StateMask(u, clock, v.body.state.issued));
        case 2 =>
          EndingMoves(s, u, next);
        case 3 =>
          SilentItself(u, u);
          StillThenSilent(s, u, u);
        case 4 =>
          if u.host.Some? {
            HostHears(u.host.value, v.body.key, v.body.declared);
            var w := u.(host := Some(Announce(u.host.value, v.body.key, v.body.declared)));
            HostOnly(u, w);
            StillSane(s, u);
            var mask := PublicationMask(w, clock, Announced, listing, seals);
            StatePublishingMoves(w, clock, Announced, listing, seals);
            StillThenMoves(u, w, next, mask);
            StillThenMoves(s, u, next, mask);
          } else {
            SilentItself(u, u);
            StillThenSilent(s, u, u);
          }
      }
    }
  }

  lemma StillSane(s: Session, t: Session)
    requires Still(s, t) && Sane(s)
    ensures Sane(t) && t.who == s.who
  {
  }

  /** A host that only took note of something. */
  lemma HostOnly(s: Session, t: Session)
    requires s.host.Some? && t.host.Some? && t == s.(host := t.host)
    requires t.host.value.series.counter == s.host.value.series.counter && t.host.value.series.last == s.host.value.series.last
    ensures Still(s, t) && (Sane(s) ==> Sane(t)) && (Drained(s) ==> Drained(t))
  {
    assert Added(s, t) == [];
  }

  /** A session that ends where it stands. */
  lemma EndingMoves(s: Session, t: Session, u: Session)
    requires Still(s, t) && u == t.(ending := u.ending) && u.ending.Some?
    ensures Moves(s, u, []) && Drained(u)
  {
  }

  lemma SpendingMoves(s: Session, seals: bool)
    requires Sane(s) && s.who.budget <= s.wire.roomFrames
    ensures Moves(s, SpendBudget(s, seals), []) && Drained(SpendBudget(s, seals))
  {
    hide Close, Extends;
    SpendingExtends(s, seals);
    var t := SpendBudget(s, seals);
    if s.host.None? || Close(s.host.value, seals).1.None? {
      assert Added(s, t) == [];
    } else {
      HostCloses(s.host.value, seals);
      assert Added(s, t) == [Close(s.host.value, seals).1.value.frame];
      SentOne(Close(s.host.value, seals).1.value.frame);
    }
  }

  lemma ClosingMoves(s: Session, seals: bool)
    requires Sane(s)
    ensures Moves(s, CloseRoom(s, seals), []) && (Drained(s) ==> Drained(CloseRoom(s, seals)))
  {
    hide Close, Extends;
    ClosingExtends(s, seals);
    var t := CloseRoom(s, seals);
    if s.host.None? || Close(s.host.value, seals).1.None? {
      assert Added(s, t) == [];
    } else {
      HostCloses(s.host.value, seals);
      assert Added(s, t) == [Close(s.host.value, seals).1.value.frame];
      SentOne(Close(s.host.value, seals).1.value.frame);
    }
  }

  lemma PayingMoves(s: Session, clock: nat, listing: seq<Path>, seals: bool)
    requires Sane(s) && (AnySpeculative(s.replica.unsent) ==> s.replica.baseline.Some?)
    ensures var t := PayDue(s, clock, listing, seals);
            Moves(s, t, PublicationMask(s, clock, Announced, listing, seals)) && (SealsHold(s) && Drained(s) ==> Drained(t))
  {
    hide PublicationMask, PublishState, RequestSync, AnnounceHolds, AnnounceKey, Silent, Moves, Drained;
    var a := PublishState(s, clock, Announced, listing, seals);
    var b := Reannounce(a, clock);
    var c := Resync(b, clock);
    var mask := PublicationMask(s, clock, Announced, listing, seals);
    StatePublishingMoves(s, clock, Announced, listing, seals);
    SmallStepsSilent(a, clock);
    SilentItself(a, a);
    MovesThenSilent(s, a, b, mask);
    SmallStepsSilent(b, clock);
    SilentItself(b, b);
    MovesThenSilent(s, b, c, mask);
    SmallStepsSilent(c, clock);
    MovesThenSilent(s, c, AnnounceHolds(c, clock), mask);
  }

  lemma HousekeepingStill(s: Session, clock: nat)
    requires Sane(s)
    ensures Still(s, Housekept(s, clock)) && (Drained(s) ==> Drained(Housekept(s, clock)))
    ensures Housekept(s, clock).replica == s.replica
  {
    hide HostSeat;
    HousekeepingExtends(s, clock);
    assert Added(s, Housekept(s, clock)) == [];
  }

  lemma TickingMoves(s: Session, clock: nat, listing: seq<Path>, seals: bool)
    requires Sane(s) && (AnySpeculative(s.replica.unsent) ==> s.replica.baseline.Some?)
    ensures var t := Tick(s, clock, listing, seals);
            Moves(s, t, TickMask(s, clock, listing, seals)) && (SealsHold(s) && Drained(s) ==> Drained(t))
  {
    hide PublicationMask, PayDue, SpendBudget, Housekept, Still, Moves, Drained, Silent;
    var t := Housekept(s, clock);
    HousekeepingStill(s, clock);
    StillSane(s, t);
    if t.ending.Some? {
      SilentItself(t, t);
      StillThenSilent(s, t, t);
    } else if t.who.budget <= t.wire.roomFrames {
      SpendingMoves(t, seals);
      StillThenMoves(s, t, SpendBudget(t, seals), []);
    } else if WindowPassed(t, clock).Some? {
      EndingMoves(s, t, Tick(s, clock, listing, seals));
    } else {
      PayingMoves(t, clock, listing, seals);
      StillThenMoves(s, t, PayDue(t, clock, listing, seals), PublicationMask(t, clock, Announced, listing, seals));
    }
  }

  lemma JoiningMoves(s: Session, clock: nat, seat: Seat, listing: seq<Path>, seals: bool)
    requires Sane(s) && (AnySpeculative(s.replica.unsent) ==> s.replica.baseline.Some?)
    ensures var t := SeatJoins(s, clock, seat, listing, seals);
            Moves(s, t, StepMask(s, SomeoneJoined(clock, seat, listing, seals))) && (SealsHold(s) && Drained(s) ==> Drained(t))
  {
    hide PublicationMask, PublishState, AnnounceHolds, HostSeat, AddSeat, Moves, Silent;
    var t := s.(host := if s.host.Some? then Some(SeatJoined(s.host.value, seat)) else None,
                view := s.view.(roster := s.view.roster + {seat}),
                holds := s.holds.(at := None));
    assert Added(s, t) == [];
    assert Still(s, t);
    var u := if t.host.Some? then PublishState(t, clock, RosterChange, listing, seals)
             else if HostIsAway(t) then Republish(t) else t;
    var mask := PublicationMask(t, clock, RosterChange, listing, seals);
    if t.host.Some? {
      StatePublishingMoves(t, clock, RosterChange, listing, seals);
    } else {
      RepublishingSilent(t);
      SilentItself(t, t);
      SilentMoves(t, u);
      NoHostNoMask(t, clock, RosterChange, listing, seals);
    }
    SmallStepsSilent(u, clock);
    MovesThenSilent(t, u, AnnounceHolds(u, clock), mask);
    StillThenMoves(s, t, AnnounceHolds(u, clock), mask);
  }

  lemma RepublishingSilent(s: Session)
    requires Sane(s)
    ensures Silent(s, Republish(s))
  {
    SilentItself(s, s);
    if s.view.heldState.Some? {
      QueueingAdds(s, s.view.heldState.value);
      SentOne(s.view.heldState.value);
    }
  }

  lemma LeavingMoves(s: Session, clock: nat, seat: Seat, listing: seq<Path>, seals: bool)
    requires Sane(s) && (AnySpeculative(s.replica.unsent) ==> s.replica.baseline.Some?)
    ensures var t := SeatLeaves(s, clock, seat, listing, seals);
            Moves(s, t, StepMask(s, SomeoneLeft(clock, seat, listing, seals))) && (SealsHold(s) && Drained(s) ==> Drained(t))
  {
    hide PublicationMask, PublishState, HostSeat, DropSeat, DropLabel, Moves;
    var t := s.(host := if s.host.Some? then Some(SeatLeft(s.host.value, seat)) else None,
                view := s.view.(roster := s.view.roster - {seat}));
    var u := RefreshHostAway(t, clock, false);
    assert Added(s, u) == [];
    assert Still(s, u);
    StatePublishingMoves(u, clock, RosterChange, listing, seals);
    StillThenMoves(s, u, PublishState(u, clock, RosterChange, listing, seals), PublicationMask(u, clock, RosterChange, listing, seals));
  }

  lemma NoHostNoMask(s: Session, clock: nat, reason: HostReason, listing: seq<Path>, seals: bool)
    requires s.host.None?
    ensures PublicationMask(s, clock, reason, listing, seals) == []
  {
  }

  /** Every step that is not an edit moves the held edits as `Moves` says, and keeps a live writer drained while seals hold. */
  lemma StepMoves(s: Session, i: Input)
    requires Sane(s) && Tentative(s) && !i.Inserted? && !i.Taken?
    ensures Moves(s, Step(s, i), StepMask(s, i)) && (SealsHold(s) && Drained(s) ==> Drained(Step(s, i)))
  {
    hide PublicationMask, DeliveryMask, TickMask, Deliver, Tick, SeatJoins, SeatLeaves, PublishState, AnnounceHolds, CloseRoom, Moves, Drained, Silent, Still;
    match i
    case Delivered(clock, frame, listing, seals) => DeliveringMoves(s, clock, frame, listing, seals);
    case Ticked(clock, listing, seals) => TickingMoves(s, clock, listing, seals);
    case SomeoneJoined(clock, seat, listing, seals) => JoiningMoves(s, clock, seat, listing, seals);
    case SomeoneLeft(clock, seat, listing, seals) => LeavingMoves(s, clock, seat, listing, seals);
    case ListingChanged(clock, listing, seals) => StatePublishingMoves(s, clock, ListingChange, listing, seals);
    case Held(clock, held) =>
      var t := s.(holds := s.holds.(held := held));
      SilentItself(s, t);
      SilentMoves(s, t);
      SmallStepsSilent(t, clock);
      MovesThenSilent(s, t, AnnounceHolds(t, clock), []);
    case RoomClosed(seals) => ClosingMoves(s, seals);
  }

  // --- an edit ---------------------------------------------------------------------------------------

  /** The edits a step has to do with: those held, and last the one it makes. */
  ghost function Pending(s: Session, i: Input): seq<Delta> {
    Deltas(s.replica.unsent) + (if Authored(s, i).Some? && s.ending.None? then [Authored(s, i).value] else [])
  }

  /** A writer's edit, its delta and its one attempt. */
  lemma WritersEditMoves(s: Session, i: Input)
    requires Tentative(s) && i.Inserted? && i.fits && IsWriter(s) && s.ending.None?
    ensures var t, held := Step(s, i), s.replica.unsent;
            var delta := Atoms({NewAtom(s, i.payload)});
            && s.wire.outbound <= t.wire.outbound
            && Sent(Added(s, t)) == (if SendsAtOnce(s) then [delta] else [])
            && t.replica.unsent == (if SendsAtOnce(s) then held else held + [Unsent(delta, false)])
            && t.ending == s.ending && t.reader == s.reader && t.view == s.view && t.who == s.who
            && s.wire.roomFrames <= t.wire.roomFrames
  {
    hide Diff, StateVector, NextClock, SendUpdate, Extends, Sent, Added;
    RoleIsKnown(s);
    AcceptPlain(s.replica.unsent);
    EditDeltaIsTheEdit(s.replica.doc, s.who.client, i.payload);
    var delta := Atoms({NewAtom(s, i.payload)});
    var u := s.(replica := s.replica.(doc := s.replica.doc + {NewAtom(s, i.payload)}));
    assert AcceptSpeculation(u) == u;
    SendingOne(u, delta);
    SendingOneTells(u, delta);
    ExtendsMeansPrefix(u, SendUpdate(u, delta).0);
    AddedOfWires(s, Step(s, i), u, SendUpdate(u, delta).0);
    AddedOfWires(s, s, u, u);
    SilentItself(s, s);
    SilentMeans(s, s);
  }

  lemma AddedOfWires(s: Session, t: Session, s': Session, t': Session)
    requires s.wire == s'.wire
    ensures t.wire == t'.wire && s.wire.outbound <= t.wire.outbound ==> Added(s, t) == Added(s', t')
  {
  }

  /** Any other edit: nothing leaves, and it is held unless it is refused or the session ended. */
  lemma OtherEditMoves(s: Session, i: Input)
    requires Tentative(s) && i.Inserted? && !(i.fits && IsWriter(s) && s.ending.None?)
    ensures var t, held := Step(s, i), s.replica.unsent;
            && t.wire == s.wire && t.ending == s.ending && t.reader == s.reader && t.view == s.view && t.who == s.who
            && t.replica.unsent == (if Authored(s, i).Some? && s.ending.None? then held + [Unsent(Authored(s, i).value, true)] else held)
  {
    hide Diff, StateVector, NextClock, SendUpdate;
    EditDeltaIsTheEdit(s.replica.doc, s.who.client, i.payload);
    AcceptPlain(s.replica.unsent);
    if CommitsOurs(s) {
      RoleIsKnown(s);
    }
  }

  /** A taken edit is sent when it is a writer's and can be, and otherwise held or, once ended, dropped. */
  lemma EditMoves(s: Session, i: Input)
    requires Sane(s) && Tentative(s) && i.Inserted?
    ensures var t, mask := Step(s, i), StepMask(s, i);
            && Extends(s, t) && Sent(Added(s, t)) == Picked(Pending(s, i), mask)
            && Deltas(t.replica.unsent) == Skipped(Pending(s, i), mask) && t.ending == s.ending
            && (s.ending.Some? || Authored(s, i).None? ==> t.replica.unsent == s.replica.unsent)
            && |mask| <= |Pending(s, i)| && (SealsHold(s) && Drained(s) ==> Drained(t))
  {
    hide Insert, Extends, Sane, Tentative, NewAtom, Deltas, Picked, Skipped;
    StepExtends(s, i);
    ExtendsMeansPrefix(s, Step(s, i));
    var held := s.replica.unsent;
    DeltasLength(held);
    NothingPicked(Pending(s, i), []);
    if Authored(s, i).Some? {
      var delta := Atoms({NewAtom(s, i.payload)});
      HeldDeltas(held, Unsent(delta, !IsWriter(s)));
      LastOne(Deltas(held), delta, SendsAtOnce(s));
    }
    if i.fits && IsWriter(s) && s.ending.None? {
      RoleIsKnown(s);
      WritersEditMoves(s, i);
    } else {
      OtherEditMoves(s, i);
      assert Added(s, Step(s, i)) == [];
    }
  }

  lemma DeltasLength(held: seq<Unsent>)
    ensures |Deltas(held)| == |held|
  {
  }

  /** The step sends and keeps of the pending edits what its mask says. */
  ghost predicate Picks(s: Session, i: Input)
    requires s.wire.outbound <= Step(s, i).wire.outbound
  {
    && Sent(Added(s, Step(s, i))) == Picked(Pending(s, i), StepMask(s, i))
    && Deltas(Step(s, i).replica.unsent) == Skipped(Pending(s, i), StepMask(s, i))
    && |StepMask(s, i)| <= |Pending(s, i)|
  }

  /**
   What becomes of the pending edits in a step, an edit or not: an ended session sends none, a live
   one sends and keeps what its mask says, and only a viewer's resolution discards.
   */
  ghost predicate Follows(s: Session, i: Input) {
    var t := Step(s, i);
    && s.wire.outbound <= t.wire.outbound
    && if s.ending.Some? then
         StepMask(s, i) == [] && Sent(Added(s, t)) == [] && (t.replica.unsent == s.replica.unsent || t.replica.unsent == [])
       else
         || Picks(s, i)
         || (Authored(s, i).None? && StepMask(s, i) == [] && Sent(Added(s, t)) == [] && t.replica.unsent == Settled(s.replica.unsent))
  }

  lemma StepFollows(s: Session, i: Input)
    requires Sane(s) && Tentative(s) && !i.Taken?
    ensures Follows(s, i)
  {
    hide Extends, Sane, Tentative;
    if i.Inserted? {
      hide Insert;
      EditMoves(s, i);
      ExtendsMeansPrefix(s, Step(s, i));
      assert Deltas(s.replica.unsent) + [] == Deltas(s.replica.unsent);
    } else {
      hide Step, StepMask;
      StepMoves(s, i);
      MovesExtends(s, Step(s, i), StepMask(s, i));
      ExtendsMeansPrefix(s, Step(s, i));
      assert Pending(s, i) == Deltas(s.replica.unsent);
    }
  }

  /** A live session's step that overtakes nothing sends the front of the pending edits and keeps the rest. */
  lemma AnOrderlyStep(s: Session, i: Input)
    requires Sane(s) && Tentative(s) && !i.Taken? && s.ending.None? && !Overtakes(s, i)
    ensures var t := Step(s, i);
            && s.wire.outbound <= t.wire.outbound
            && (|| Sent(Added(s, t)) + Deltas(t.replica.unsent) == Pending(s, i)
                || (Sent(Added(s, t)) == [] && Authored(s, i).None? && t.replica.unsent == Settled(s.replica.unsent)))
  {
    hide Step, StepMask, Authored, Sane, Tentative, OutOfOrder;
    StepFollows(s, i);
    InOrderPicksAFront(Pending(s, i), StepMask(s, i));
  }

  /** Flags that are set for the last edit at most. */
  lemma {:induction false} LastOne(held: seq<Delta>, last: Delta, sent: bool)
    ensures var mask := seq(|held|, _ => false) + [sent];
            && Picked(held + [last], mask) == (if sent then [last] else [])
            && Skipped(held + [last], mask) == (if sent then held else held + [last])
  {
    var mask := seq(|held|, _ => false) + [sent];
    if held != [] {
      LastOne(held[1..], last, sent);
      assert (held + [last])[1..] == held[1..] + [last];
      assert mask[1..] == seq(|held[1..]|, _ => false) + [sent];
    }
  }

  lemma HeldDeltas(unsent: seq<Unsent>, last: Unsent)
    ensures Deltas(unsent + [last]) == Deltas(unsent) + [last.delta]
  {
  }
}
