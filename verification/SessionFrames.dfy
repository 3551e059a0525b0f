/**
 What every step of a session does to its wire: frames are only ever appended, the ones its key
 signs are numbered upward without repetition, and none is sealed past the room's frame budget.
 */
module SessionFrames {
  import opened Options
  import opened Frames
  import opened Sealed
  import opened Producer
  import opened Session

  // --- counting frames -------------------------------------------------------------------

  /** The frames a session's own key signs: every one of kinds 0, 3 and 4. */
  function OwnCount(frames: seq<Frame>): nat {
    if frames == [] then 0
    else OwnCount(frames[..|frames| - 1]) + (if Marking(frames[|frames| - 1]) then 1 else 0)
  }

  function Closings(frames: seq<Frame>): nat {
    if frames == [] then 0
    else Closings(frames[..|frames| - 1]) + (if IsClosing(frames[|frames| - 1]) then 1 else 0)
  }

  predicate IsClosing(frame: Frame) {
    frame.Frame? && frame.kind == 2
  }

  lemma {:induction false} CountsAdd(left: seq<Frame>, right: seq<Frame>)
    ensures OwnCount(left + right) == OwnCount(left) + OwnCount(right)
    ensures Closings(left + right) == Closings(left) + Closings(right)
    decreases |right|
  {
    if right == [] {
      assert left + right == left;
    } else {
      var n := |right| - 1;
      CountsAdd(left, right[..n]);
      assert (left + right)[..|left + right| - 1] == left + right[..n];
    }
  }

  // --- the relation every step keeps -------------------------------------------------------

  ghost predicate Numbered(frames: seq<Frame>, me: PublicKey, low: nat, high: nat) {
    && (forall i | 0 <= i < |frames| && Marking(frames[i]) ::
          frames[i].signer == Some(me) && frames[i].keyId == me.id && low < frames[i].counter <= high)
    && (forall i, j | 0 <= i < j < |frames| && Marking(frames[i]) && Marking(frames[j]) ::
          frames[i].counter < frames[j].counter)
  }

  predicate IsStateFrame(frame: Frame) {
    frame.Frame? && frame.kind == 1
  }

  /** What a session keeps to re-send is a state. */
  ghost predicate Sane(s: Session) {
    && (s.view.heldState.Some? ==> IsStateFrame(s.view.heldState.value))
    && (s.host.Some? && s.host.value.series.last.Some? ==> IsStateFrame(s.host.value.series.last.value.frame))
  }

  function HostCounter(s: Session): nat {
    if s.host.Some? then s.host.value.series.counter else 0
  }

  /** How much of the budget the count has used. */
  function Used(s: Session): nat {
    if s.wire.roomFrames < s.who.budget then s.wire.roomFrames else s.who.budget
  }

  function Added(s: Session, t: Session): seq<Frame>
    requires s.wire.outbound <= t.wire.outbound
  {
    t.wire.outbound[|s.wire.outbound|..]
  }

  ghost predicate Extends(s: Session, t: Session) {
    && t.who == s.who && (t.host.Some? <==> s.host.Some?)
    && s.wire.outbound <= t.wire.outbound
    && s.wire.counter <= t.wire.counter && s.wire.roomFrames <= t.wire.roomFrames
    && HostCounter(s) + Closings(Added(s, t)) <= HostCounter(t)
    && Numbered(Added(s, t), s.who.me, s.wire.counter, t.wire.counter)
    && OwnCount(Added(s, t)) + HostCounter(t) + Used(s) <= Used(t) + HostCounter(s) + Closings(Added(s, t))
    && (Sane(s) ==> Sane(t))
  }

  lemma ExtendsItself(s: Session, t: Session)
    requires t.who == s.who && t.host == s.host && t.wire == s.wire && (Sane(s) ==> Sane(t))
    ensures Extends(s, t)
  {
    assert Added(s, t) == [];
  }

  lemma ExtendsChains(s: Session, t: Session, u: Session)
    requires Extends(s, t) && Extends(t, u)
    ensures Extends(s, u)
    ensures Added(s, u) == Added(s, t) + Added(t, u)
  {
    assert Added(s, u) == Added(s, t) + Added(t, u);
    CountsAdd(Added(s, t), Added(t, u));
  }

  // --- the primitive steps -----------------------------------------------------------------

  lemma CountingExtends(s: Session)
    ensures Extends(s, CountFrame(s)) && Added(s, CountFrame(s)) == []
  {
    assert Added(s, CountFrame(s)) == [];
  }

  lemma QueueingAdds(s: Session, frame: Frame)
    ensures s.wire.outbound <= Queue(s, frame).wire.outbound && Added(s, Queue(s, frame)) == [frame]
    ensures OwnCount([frame]) == (if Marking(frame) then 1 else 0)
    ensures Closings([frame]) == (if IsClosing(frame) then 1 else 0)
  {
    assert [frame][..0] == [];
  }

  lemma PublishingExtends(s: Session, what: Kind, body: Body)
    ensures var (t, sent) := PublishFrame(s, what, body);
            Extends(s, t) && Added(s, t) == if sent then [OwnFrame(s, what, s.wire.counter + 1, body)] else []
  {
    var (t, sent) := PublishFrame(s, what, body);
    if sent {
      QueueingAdds(s, OwnFrame(s, what, s.wire.counter + 1, body));
      assert Added(s, t) == [OwnFrame(s, what, s.wire.counter + 1, body)];
    } else {
      assert Added(s, t) == [];
    }
  }

  lemma RequestExtends(s: Session, clock: nat)
    ensures Extends(s, RequestSync(s, clock))
  {
    PublishingExtends(s, Syncing, StreamBody([SyncStep1(Replica.StateVector(PublicationDoc(s)))]));
  }

  lemma AnnouncingExtends(s: Session, clock: nat)
    ensures Extends(s, AnnounceKey(s, clock))
  {
    PublishingExtends(s, Announcing, AnnounceBody(s.who.me, s.who.declared));
  }

  lemma HoldingExtends(s: Session, clock: nat)
    ensures Extends(s, AnnounceHolds(s, clock))
  {
    PublishingExtends(s, Holding, HoldsBody(s.holds.held));
    ExtendsItself(s, s);
  }

  lemma {:induction false} SendingExtends(s: Session, held: seq<Unsent>)
    ensures Extends(s, SendAll(s, held).0)
    decreases |held|
  {
    if held == [] {
      ExtendsItself(s, s);
    } else {
      PublishingExtends(s, Content, StreamBody([Update(held[0].delta)]));
      var t := SendUpdate(s, held[0].delta).0;
      SendingExtends(t, held[1..]);
      ExtendsChains(s, t, SendAll(t, held[1..]).0);
    }
  }

  lemma {:induction false} ReplyingExtends(s: Session, replies: seq<Message>)
    ensures Extends(s, SendReplies(s, replies))
    decreases |replies|
  {
    if replies == [] {
      ExtendsItself(s, s);
    } else {
      PublishingExtends(s, Syncing, StreamBody([replies[0]]));
      var t := PublishFrame(s, Syncing, StreamBody([replies[0]])).0;
      ReplyingExtends(t, replies[1..]);
      ExtendsChains(s, t, SendReplies(t, replies[1..]));
    }
  }

  /** Extends, up to parts of a session that no frame is built from. */
  lemma ExtendsLoosely(s: Session, t: Session, s': Session, t': Session)
    requires Extends(s, t)
    requires s'.who == s.who && s'.host == s.host && s'.wire == s.wire && (Sane(s') ==> Sane(s))
    requires t'.who == t.who && t'.host == t.host && t'.wire == t.wire && (Sane(t) ==> Sane(t'))
    ensures Extends(s', t')
  {
  }

  lemma FlushingExtends(s: Session)
    ensures Extends(s, FlushHeldBack(s))
  {
    hide SendAll;
    var t := AcceptSpeculation(s);
    var cleared := t.(replica := t.replica.(unsent := []));
    SendingExtends(cleared, t.replica.unsent);
    ExtendsItself(s, s);
    ExtendsItself(s, t);
    if s.replica.unsent != [] && s.ending.None? && IsWriter(s) && MayPublish(t) {
      ExtendsLoosely(cleared, SendAll(cleared, t.replica.unsent).0, s, FlushHeldBack(s));
    } else {
      ExtendsItself(s, FlushHeldBack(s));
    }
  }

  // --- the composed steps ------------------------------------------------------------------

  ghost function StateNoted(s: Session, clock: nat, issued: nat): Session {
    NoteEligibility(PruneReciprocal(RefreshHostAway(NoteVerified(s, issued), clock, true)))
  }

  lemma NotingExtends(s: Session, clock: nat, issued: nat)
    ensures Extends(s, StateNoted(s, clock, issued))
  {
    hide HostSeat, Writers;
    assert Added(s, StateNoted(s, clock, issued)) == [];
  }

  lemma AfterStateExtends(s: Session, clock: nat, issued: nat)
    ensures Extends(s, AfterState(s, clock, issued))
  {
    hide Extends, StateNoted, RequestSync, FlushHeldBack, AnnounceHolds, AnnounceKey;
    var a := StateNoted(s, clock, issued);
    NotingExtends(s, clock, issued);
    var b: Session;
    if CommitsOurs(a) {
      var r := ResolveSpeculation(a);
      ExtendsItself(a, r);
      var c := HandshakeOnce(r, clock);
      RequestExtends(r, clock);
      ExtendsItself(r, r);
      FlushingExtends(c);
      ExtendsChains(a, r, c);
      b := FlushHeldBack(c);
      ExtendsChains(a, c, b);
    } else {
      AnnouncingExtends(a, clock);
      b := AnnounceKey(a, clock);
    }
    HoldingExtends(b, clock);
    ExtendsChains(s, a, b);
    ExtendsChains(s, b, AnnounceHolds(b, clock));
    AfterStateShape(s, clock, issued);
  }

  lemma AfterStateShape(s: Session, clock: nat, issued: nat)
    ensures var a := StateNoted(s, clock, issued);
            var b := if CommitsOurs(a) then FlushHeldBack(HandshakeOnce(ResolveSpeculation(a), clock)) else AnnounceKey(a, clock);
            AfterState(s, clock, issued) == AnnounceHolds(b, clock)
  {
  }

  lemma HostPublishes(h: Host, clock: nat, reason: HostReason, listing: seq<Path>, seals: bool)
    ensures var (t, out) := Publish(h, clock, reason, listing, seals);
            && t.series.counter == h.series.counter + (if out.Some? && out.value.isNew then 1 else 0)
            && (out.Some? && out.value.isNew ==> out.value.state.Some? && IsStateFrame(out.value.frame))
            && (out.Some? && !out.value.isNew ==> h.series.last.Some? && out.value.frame == h.series.last.value.frame)
            && (t.series.last.Some? ==> t.series.last == h.series.last || IsStateFrame(t.series.last.value.frame))
  {
  }

  /** The session that has queued a new state and folded it in, before anything the state owes. */
  ghost function NewStateFolded(s: Session, h: Host, out: Publication): Session
    requires out.state.Some?
  {
    var t := s.(host := Some(h), wire := s.wire.(fault := s.wire.fault || h.faulted));
    var u := Queue(CountFrame(t), out.frame);
    u.(reader := Applied(u.reader, out.state.value))
  }

  /** The session that has put the state it last published back on the wire. */
  ghost function OldStateQueued(s: Session, h: Host, out: Publication): Session {
    Queue(s.(host := Some(h), wire := s.wire.(fault := s.wire.fault || h.faulted)), out.frame)
  }

  lemma PublishStateShape(s: Session, clock: nat, reason: HostReason, listing: seq<Path>, seals: bool)
    requires s.wire.roomFrames < s.who.budget && s.host.Some?
    ensures var (h, out) := Publish(s.host.value, clock, reason, listing, seals);
            PublishState(s, clock, reason, listing, seals) ==
              if out.None? then s.(host := Some(h), wire := s.wire.(fault := s.wire.fault || h.faulted))
              else if !out.value.isNew then OldStateQueued(s, h, out.value)
              else if out.value.state.Some? then AfterState(NewStateFolded(s, h, out.value), clock, out.value.issued)
              else Queue(CountFrame(s.(host := Some(h), wire := s.wire.(fault := s.wire.fault || h.faulted))), out.value.frame)
  {
    hide AfterState, Publish, CountFrame, Queue, Applied;
    var (h, out) := Publish(s.host.value, clock, reason, listing, seals);
    if out.Some? && out.value.isNew && out.value.state.Some? {
      var t := s.(host := Some(h), wire := s.wire.(fault := s.wire.fault || h.faulted));
      var u := Queue(CountFrame(t), out.value.frame);
      assert NewStateFolded(s, h, out.value) == u.(reader := Applied(u.reader, out.value.state.value));
    }
  }

  lemma NewStateExtends(s: Session, h: Host, out: Publication)
    requires Sane(s) && s.wire.roomFrames < s.who.budget && s.host.Some?
    requires out.state.Some? && IsStateFrame(out.frame)
    requires h.series.counter == s.host.value.series.counter + 1
    requires h.series.last.Some? ==> h.series.last == s.host.value.series.last || IsStateFrame(h.series.last.value.frame)
    ensures Extends(s, NewStateFolded(s, h, out)) && Added(s, NewStateFolded(s, h, out)) == [out.frame]
  {
    var w := NewStateFolded(s, h, out);
    assert Added(s, w) == [out.frame];
    QueueingAdds(s, out.frame);
  }

  lemma OldStateExtends(s: Session, h: Host, out: Publication)
    requires Sane(s) && s.host.Some? && IsStateFrame(out.frame)
    requires h.series.counter == s.host.value.series.counter && (h.series.last.Some? ==> h.series.last == s.host.value.series.last || IsStateFrame(h.series.last.value.frame))
    ensures Extends(s, OldStateQueued(s, h, out)) && Added(s, OldStateQueued(s, h, out)) == [out.frame]
  {
    assert Added(s, OldStateQueued(s, h, out)) == [out.frame];
    QueueingAdds(s, out.frame);
  }

  lemma StatePublishingExtends(s: Session, clock: nat, reason: HostReason, listing: seq<Path>, seals: bool)
    requires Sane(s)
    ensures Extends(s, PublishState(s, clock, reason, listing, seals))
  {
    hide AfterState, Publish, NewStateFolded, OldStateQueued;
    ExtendsItself(s, s);
    if s.wire.roomFrames < s.who.budget && s.host.Some? {
      HostPublishes(s.host.value, clock, reason, listing, seals);
      PublishStateShape(s, clock, reason, listing, seals);
      var (h, out) := Publish(s.host.value, clock, reason, listing, seals);
      if out.None? {
        assert Added(s, PublishState(s, clock, reason, listing, seals)) == [];
      } else if !out.value.isNew {
        OldStateExtends(s, h, out.value);
      } else {
        var w := NewStateFolded(s, h, out.value);
        NewStateExtends(s, h, out.value);
        AfterStateExtends(w, clock, out.value.issued);
        ExtendsChains(s, w, AfterState(w, clock, out.value.issued));
      }
    }
  }

  lemma ReadingExtends(s: Session, messages: seq<Message>, verified: PublicKey)
    ensures Extends(s, ApplyContent(s, messages, verified))
  {
    hide ApplyStream, SendReplies, Writers;
    var answers := MayPublish(s) && IsWriter(s);
    var read := ApplyStream(PublicationDoc(s), answers, messages);
    var t := ReadInto(s, messages, answers);
    var u := if read.requested then ArmReciprocal(t, verified) else t;
    ExtendsItself(s, s);
    ExtendsItself(s, u);
    ReplyingExtends(u, read.replies);
    ExtendsChains(s, u, SendReplies(u, read.replies));
  }

  lemma HostHears(h: Host, key: PublicKey, declared: Option<Role>)
    ensures Announce(h, key, declared).series == h.series
  {
  }

  lemma DeliveringExtends(s: Session, clock: nat, frame: Frame, listing: seq<Path>, seals: bool)
    requires Sane(s)
    ensures Extends(s, Deliver(s, clock, frame, listing, seals))
  {
    hide Read, ApplyContent, AfterState, PublishState, Announce;
    var t := CountFrame(s);
    CountingExtends(s);
    var v := Judge(t.reader, frame);
    var next := Deliver(s, clock, frame, listing, seals);
    if v.Refused? || (v.kind == 2 && t.view.stateIssued.None?) {
      ExtendsLoosely(s, t, s, next);
    } else {
      var u := t.(reader := Read(t.reader, frame),
                  view := if v.kind == 1 then t.view.(heldState := Some(frame)) else t.view);
      ExtendsLoosely(s, t, s, u);
      match v.kind {
        case 0 => ReadingExtends(u, Stream(v.body), v.key);
        case 1 => AfterStateExtends(u, clock, v.body.state.issued);
        case 4 =>
          if u.host.Some? {
            HostHears(u.host.value, v.body.key, v.body.declared);
            var w := u.(host := Some(Announce(u.host.value, v.body.key, v.body.declared)));
            assert Added(u, w) == [];
            StatePublishingExtends(w, clock, Announced, listing, seals);
            ExtendsChains(u, w, next);
          } else {
            ExtendsItself(u, u);
          }
        case _ => ExtendsItself(u, next);
      }
      ExtendsChains(s, u, next);
    }
  }

  lemma HostCloses(h: Host, seals: bool)
    ensures var (t, out) := Close(h, seals);
            && t.series.last == h.series.last
            && t.series.counter == h.series.counter + (if out.Some? then 1 else 0)
            && (out.Some? ==> IsClosing(out.value.frame))
  {
  }

  lemma SpendingExtends(s: Session, seals: bool)
    requires Sane(s) && s.who.budget <= s.wire.roomFrames
    ensures Extends(s, SpendBudget(s, seals))
  {
    hide Close;
    if s.host.None? {
      ExtendsItself(s, SpendBudget(s, seals));
    } else {
      HostCloses(s.host.value, seals);
      var (h, out) := Close(s.host.value, seals);
      var closed := s.(host := Some(h));
      if out.None? {
        assert Added(s, SpendBudget(s, seals)) == [];
      } else {
        QueueingAdds(CountFrame(closed), out.value.frame);
        assert Added(s, SpendBudget(s, seals)) == [out.value.frame];
      }
    }
  }

  lemma ClosingExtends(s: Session, seals: bool)
    requires Sane(s)
    ensures Extends(s, CloseRoom(s, seals))
  {
    hide Close;
    ExtendsItself(s, s);
    if s.host.Some? {
      HostCloses(s.host.value, seals);
      var (h, out) := Close(s.host.value, seals);
      if out.None? {
        assert Added(s, CloseRoom(s, seals)) == [];
      } else {
        QueueingAdds(CountFrame(s.(host := Some(h))), out.value.frame);
        assert Added(s, CloseRoom(s, seals)) == [out.value.frame];
      }
    }
  }

  lemma PayingExtends(s: Session, clock: nat, listing: seq<Path>, seals: bool)
    requires Sane(s)
    ensures Extends(s, PayDue(s, clock, listing, seals))
  {
    hide PublishState, RequestSync, AnnounceHolds, AnnounceKey, Extends;
    var a := PublishState(s, clock, Announced, listing, seals);
    var b := Reannounce(a, clock);
    var c := Resync(b, clock);
    StatePublishingExtends(s, clock, Announced, listing, seals);
    AnnouncingExtends(a, clock);
    ExtendsItself(a, a);
    RequestExtends(b, clock);
    ExtendsItself(b, b);
    HoldingExtends(c, clock);
    ExtendsChains(s, a, b);
    ExtendsChains(s, b, c);
    ExtendsChains(s, c, AnnounceHolds(c, clock));
  }

  lemma TickingExtends(s: Session, clock: nat, listing: seq<Path>, seals: bool)
    requires Sane(s)
    ensures Extends(s, Tick(s, clock, listing, seals))
  {
    hide PayDue, SpendBudget, Housekept, Extends;
    var t, next := Housekept(s, clock), Tick(s, clock, listing, seals);
    HousekeepingExtends(s, clock);
    if t.ending.None? {
      if t.who.budget <= t.wire.roomFrames {
        SpendingExtends(t, seals);
      } else if WindowPassed(t, clock).Some? {
        ExtendsItself(t, next);
      } else {
        PayingExtends(t, clock, listing, seals);
      }
      ExtendsChains(s, t, next);
    }
  }

  lemma HousekeepingExtends(s: Session, clock: nat)
    requires Sane(s)
    ensures Extends(s, Housekept(s, clock)) && Sane(Housekept(s, clock))
  {
    hide HostSeat;
    assert Added(s, Housekept(s, clock)) == [];
  }

  lemma JoiningExtends(s: Session, clock: nat, seat: Seat, listing: seq<Path>, seals: bool)
    requires Sane(s)
    ensures Extends(s, SeatJoins(s, clock, seat, listing, seals))
  {
    hide PublishState, AnnounceHolds, HostSeat, AddSeat;
    var t := s.(host := if s.host.Some? then Some(SeatJoined(s.host.value, seat)) else None,
                view := s.view.(roster := s.view.roster + {seat}),
                holds := s.holds.(at := None));
    assert Added(s, t) == [];
    var u := if t.host.Some? then PublishState(t, clock, RosterChange, listing, seals)
             else if HostIsAway(t) then Republish(t) else t;
    if t.host.Some? {
      StatePublishingExtends(t, clock, RosterChange, listing, seals);
    } else {
      ExtendsItself(t, t);
      if t.view.heldState.Some? {
        QueueingAdds(t, t.view.heldState.value);
      }
    }
    assert Extends(t, u);
    HoldingExtends(u, clock);
    ExtendsChains(s, t, u);
    ExtendsChains(s, u, AnnounceHolds(u, clock));
  }

  lemma LeavingExtends(s: Session, clock: nat, seat: Seat, listing: seq<Path>, seals: bool)
    requires Sane(s)
    ensures Extends(s, SeatLeaves(s, clock, seat, listing, seals))
  {
    hide PublishState, HostSeat, DropSeat, DropLabel;
    var t := s.(host := if s.host.Some? then Some(SeatLeft(s.host.value, seat)) else None,
                view := s.view.(roster := s.view.roster - {seat}));
    var u := RefreshHostAway(t, clock, false);
    assert Added(s, u) == [];
    StatePublishingExtends(u, clock, RosterChange, listing, seals);
    ExtendsChains(s, u, PublishState(u, clock, RosterChange, listing, seals));
  }

  lemma InsertingExtends(s: Session, payload: string, fits: bool)
    ensures Extends(s, Insert(s, payload, fits))
  {
    hide NewAtom, Replica.Diff, Replica.StateVector;
    ExtendsItself(s, s);
    var next := Insert(s, payload, fits);
    if OwnRole(s) != Some(ViewerRole) {
      var t := if !IsWriter(s) then BeginSpeculation(s) else s;
      var before := Replica.StateVector(t.replica.doc);
      var u := t.(replica := t.replica.(doc := t.replica.doc + {NewAtom(t, payload)}));
      var delta := Replica.Atoms(Replica.Diff(u.replica.doc, before));
      if !fits || !MayPublish(u) || !IsWriter(u) {
        ExtendsItself(s, next);
      } else {
        var ready := AcceptSpeculation(u);
        PublishingExtends(ready, Content, StreamBody([Update(delta)]));
        ExtendsLoosely(ready, SendUpdate(ready, delta).0, s, next);
      }
    }
  }

  /** Every step but the drain only extends the session's wire. */
  lemma StepExtends(s: Session, i: Input)
    requires Sane(s) && !i.Taken?
    ensures Extends(s, Step(s, i))
  {
    hide Deliver, Tick, Insert, SeatJoins, SeatLeaves, PublishState, AnnounceHolds, CloseRoom, Extends;
    match i
    case Delivered(clock, frame, listing, seals) => DeliveringExtends(s, clock, frame, listing, seals);
    case Ticked(clock, listing, seals) => TickingExtends(s, clock, listing, seals);
    case Inserted(payload, fits) => InsertingExtends(s, payload, fits);
    case SomeoneJoined(clock, seat, listing, seals) => JoiningExtends(s, clock, seat, listing, seals);
    case SomeoneLeft(clock, seat, listing, seals) => LeavingExtends(s, clock, seat, listing, seals);
    case ListingChanged(clock, listing, seals) => StatePublishingExtends(s, clock, ListingChange, listing, seals);
    case Held(clock, held) =>
      var t := s.(holds := s.holds.(held := held));
      HoldingExtends(t, clock);
      ExtendsItself(s, t);
      ExtendsChains(s, t, AnnounceHolds(t, clock));
    case RoomClosed(seals) => ClosingExtends(s, seals);
  }

  // --- whole runs --------------------------------------------------------------------------

  /** Every frame a run puts on the wire, drained or not, in the order it was queued. */
  ghost function Emitted(s: Session, inputs: seq<Input>): seq<Frame>
    requires Sane(s)
    ensures Sane(Run(s, inputs))
  {
    hide Step, Sane;
    if inputs == [] then []
    else
      var rest, last := inputs[..|inputs| - 1], inputs[|inputs| - 1];
      var earlier := Emitted(s, rest);
      var t := Run(s, rest);
      if last.Taken? then
        assert Sane(Step(t, last)) by { DrainingKeepsSane(t); }
        earlier
      else
        StepExtends(t, last);
        ExtendsMeans(t, Step(t, last));
        earlier + Added(t, Step(t, last))
  }

  lemma DrainingKeepsSane(s: Session)
    requires Sane(s)
    ensures Sane(Step(s, Taken)) && Step(s, Taken).who == s.who && Step(s, Taken).host == s.host
    ensures Step(s, Taken).wire == s.wire.(outbound := [])
  {
  }

  lemma ExtendsMeans(s: Session, t: Session)
    requires Extends(s, t) && Sane(s)
    ensures Sane(t) && s.wire.outbound <= t.wire.outbound
  {
  }

  lemma JoinNumbered(left: seq<Frame>, right: seq<Frame>, me: PublicKey, low: nat, mid: nat, high: nat)
    requires Numbered(left, me, low, mid) && Numbered(right, me, mid, high) && low <= mid <= high
    ensures Numbered(left + right, me, low, high)
  {
  }

  /**
   Over every run: the frames the session's key signs leave in strictly rising counter order, and
   the frames sealed under the room's key, closings aside, are at most what its budget had left
   when the run began.
   */
  lemma {:induction false} RunKeepsTheWire(s: Session, inputs: seq<Input>)
    requires Sane(s)
    ensures var t := Run(s, inputs);
            && t.who == s.who && (t.host.Some? <==> s.host.Some?)
            && s.wire.counter <= t.wire.counter && s.wire.roomFrames <= t.wire.roomFrames
            && HostCounter(s) + Closings(Emitted(s, inputs)) <= HostCounter(t)
            && Numbered(Emitted(s, inputs), s.who.me, s.wire.counter, t.wire.counter)
            && OwnCount(Emitted(s, inputs)) + HostCounter(t) + Used(s) <= Used(t) + HostCounter(s) + Closings(Emitted(s, inputs))
    decreases |inputs|
  {
    hide Step, Sane;
    if inputs != [] {
      var rest, last := inputs[..|inputs| - 1], inputs[|inputs| - 1];
      RunKeepsTheWire(s, rest);
      var t := Run(s, rest);
      if last.Taken? {
        DrainingKeepsSane(t);
      } else {
        StepExtends(t, last);
        ExtendsMeans(t, Step(t, last));
        var added := Added(t, Step(t, last));
        CountsAdd(Emitted(s, rest), added);
        JoinNumbered(Emitted(s, rest), added, s.who.me, s.wire.counter, t.wire.counter, Step(t, last).wire.counter);
      }
    }
  }

  /** The room's half of the bound in section 8.3 of NIST SP 800-38D, as one session keeps it. */
  lemma BudgetBoundsTheSeals(s: Session, inputs: seq<Input>)
    requires Sane(s)
    ensures var states := HostCounter(Run(s, inputs)) - HostCounter(s) - Closings(Emitted(s, inputs));
            var left := if s.wire.roomFrames < s.who.budget then s.who.budget - s.wire.roomFrames else 0;
            0 <= states && OwnCount(Emitted(s, inputs)) + states <= left
  {
    hide Step, Emitted;
    RunKeepsTheWire(s, inputs);
  }
}
