/**
 The requests a session makes of its room: one clock paces them all, so any two leave at least a
 renewal apart whatever owed them.
 */
module SyncDebts {
  import opened Arithmetic
  import opened Options
  import opened Frames
  import opened Sealed
  import opened Producer
  import opened Session
  import opened SessionFrames

  // --- frames of one sort --------------------------------------------------------------------

  function Count(frames: seq<Frame>, sort: Frame -> bool): nat {
    if frames == [] then 0
    else Count(frames[..|frames| - 1], sort) + (if sort(frames[|frames| - 1]) then 1 else 0)
  }

  lemma {:induction false} CountAdds(left: seq<Frame>, right: seq<Frame>, sort: Frame -> bool)
    ensures Count(left + right, sort) == Count(left, sort) + Count(right, sort)
    decreases |right|
  {
    if right == [] {
      assert left + right == left;
    } else {
      var n := |right| - 1;
      CountAdds(left, right[..n], sort);
      assert (left + right)[..|left + right| - 1] == left + right[..n];
    }
  }

  lemma CountOne(frame: Frame, sort: Frame -> bool)
    ensures Count([frame], sort) == if sort(frame) then 1 else 0
  {
    assert [frame][..0] == [];
  }

  /** A content frame that opens with a `SyncStep1`: what `sync_step1` seals, and nothing else. */
  predicate AsksSync(frame: Frame) {
    frame.Frame? && frame.kind == 0 && frame.body.StreamBody?
    && frame.body.messages != [] && frame.body.messages[0].SyncStep1?
  }

  function Asked(s: Session, t: Session): nat
    requires s.wire.outbound <= t.wire.outbound
  {
    Count(Added(s, t), AsksSync)
  }

  // --- how a step may ask --------------------------------------------------------------------

  predicate RequestDue(s: Session, clock: nat) {
    s.debts.handshakenAt.None? || s.who.renew <= Since(clock, s.debts.handshakenAt.value)
  }

  /** No request, and no debt moved. */
  ghost predicate Quiet(s: Session, t: Session) {
    Extends(s, t) && Asked(s, t) == 0 && t.debts == s.debts
  }

  /** No request, though a debt may have been taken on or retired. */
  ghost predicate Calm(s: Session, t: Session) {
    Extends(s, t) && Asked(s, t) == 0 && t.debts.handshakenAt == s.debts.handshakenAt
  }

  /** At most one request, only when it is due, paying every debt and restarting the clock. */
  ghost predicate Asks(s: Session, t: Session, clock: nat) {
    && Extends(s, t)
    && if Asked(s, t) == 0 then t.debts.handshakenAt == s.debts.handshakenAt
       else Asked(s, t) == 1 && RequestDue(s, clock) && t.debts.handshakenAt == Some(clock) && !OwesRequest(t.debts)
  }

  lemma AskedAdds(s: Session, t: Session, u: Session)
    requires Extends(s, t) && Extends(t, u)
    ensures s.wire.outbound <= t.wire.outbound <= u.wire.outbound
    ensures Extends(s, u) && Asked(s, u) == Asked(s, t) + Asked(t, u)
    ensures t.who == s.who
  {
    ExtendsChains(s, t, u);
    CountAdds(Added(s, t), Added(t, u), AsksSync);
  }

  lemma QuietChains(s: Session, t: Session, u: Session)
    requires Quiet(s, t) && Quiet(t, u)
    ensures Quiet(s, u)
  {
    hide Extends;
    AskedAdds(s, t, u);
  }

  lemma AsksThenQuiet(s: Session, t: Session, u: Session, clock: nat)
    requires Asks(s, t, clock) && Quiet(t, u)
    ensures Asks(s, u, clock)
  {
    hide Extends;
    AskedAdds(s, t, u);
  }

  lemma CalmThenAsks(s: Session, t: Session, u: Session, clock: nat)
    requires Calm(s, t) && Asks(t, u, clock)
    ensures Asks(s, u, clock)
  {
    hide Extends;
    AskedAdds(s, t, u);
  }

  lemma AsksMeans(s: Session, t: Session, clock: nat)
    requires Asks(s, t, clock)
    ensures s.wire.outbound <= t.wire.outbound
  {
  }

  lemma QuietIsCalm(s: Session, t: Session, clock: nat)
    ensures Quiet(s, t) ==> Calm(s, t)
    ensures Calm(s, t) ==> Asks(s, t, clock)
  {
  }

  lemma QuietItself(s: Session, t: Session)
    requires t.who == s.who && t.host == s.host && t.wire == s.wire && t.debts == s.debts && (Sane(s) ==> Sane(t))
    ensures Quiet(s, t)
  {
    ExtendsItself(s, t);
    assert Added(s, t) == [];
  }

  // --- the parts of a step ---------------------------------------------------------------------

  lemma PublishingQuiet(s: Session, what: Kind, body: Body)
    requires what == Announcing || what == Holding || (body.StreamBody? && body.messages != [] && !body.messages[0].SyncStep1?)
    ensures Quiet(s, PublishFrame(s, what, body).0)
  {
    PublishingExtends(s, what, body);
    CountOne(OwnFrame(s, what, s.wire.counter + 1, body), AsksSync);
  }

  lemma SmallStepsQuiet(s: Session, clock: nat)
    ensures Quiet(s, AnnounceKey(s, clock)) && Quiet(s, Reannounce(s, clock)) && Quiet(s, AnnounceHolds(s, clock))
  {
    hide PublishFrame;
    PublishingQuiet(s, Announcing, AnnounceBody(s.who.me, s.who.declared));
    PublishingQuiet(s, Holding, HoldsBody(s.holds.held));
    QuietItself(s, s);
    AnnouncingExtends(s, clock);
    HoldingExtends(s, clock);
  }

  /** A request that is due goes out, or nothing does. */
  lemma RequestAsks(s: Session, clock: nat)
    requires RequestDue(s, clock)
    ensures Asks(s, RequestSync(s, clock), clock)
  {
    var body := StreamBody([SyncStep1(Replica.StateVector(PublicationDoc(s)))]);
    PublishingExtends(s, Syncing, body);
    CountOne(OwnFrame(s, Syncing, s.wire.counter + 1, body), AsksSync);
    RequestExtends(s, clock);
  }

  lemma ResyncAsks(s: Session, clock: nat)
    ensures Asks(s, Resync(s, clock), clock)
    ensures !OwesRequest(s.debts) && s.debts.handshakenAt.Some? ==> Resync(s, clock) == s
  {
    hide RequestSync;
    QuietItself(s, s);
    if RequestDue(s, clock) {
      RequestAsks(s, clock);
    }
  }

  lemma {:induction false} SendingQuiet(s: Session, held: seq<Unsent>)
    ensures Quiet(s, SendAll(s, held).0)
    decreases |held|
  {
    hide PublishFrame, Quiet;
    QuietItself(s, s);
    if held != [] {
      var t := SendUpdate(s, held[0].delta).0;
      PublishingQuiet(s, Content, StreamBody([Update(held[0].delta)]));
      SendingQuiet(t, held[1..]);
      QuietChains(s, t, SendAll(t, held[1..]).0);
    }
  }

  lemma FlushingQuiet(s: Session)
    ensures Quiet(s, FlushHeldBack(s))
  {
    hide SendAll;
    QuietItself(s, s);
    var t := AcceptSpeculation(s);
    var cleared := t.(replica := t.replica.(unsent := []));
    SendingQuiet(cleared, t.replica.unsent);
    FlushingExtends(s);
    if !(s.replica.unsent != [] && s.ending.None? && IsWriter(s) && MayPublish(t)) {
      QuietItself(s, FlushHeldBack(s));
    }
  }

  lemma {:induction false} ReplyingQuiet(s: Session, replies: seq<Message>)
    requires forall m <- replies :: !m.SyncStep1?
    ensures Quiet(s, SendReplies(s, replies))
    decreases |replies|
  {
    hide PublishFrame, Quiet;
    QuietItself(s, s);
    if replies != [] {
      var t := PublishFrame(s, Syncing, StreamBody([replies[0]])).0;
      PublishingQuiet(s, Syncing, StreamBody([replies[0]]));
      ReplyingQuiet(t, replies[1..]);
      QuietChains(s, t, SendReplies(t, replies[1..]));
    }
  }

  lemma NotingCalm(s: Session, clock: nat, issued: nat)
    ensures Calm(s, StateNoted(s, clock, issued))
  {
    hide HostSeat, Writers;
    NotingExtends(s, clock, issued);
    assert Added(s, StateNoted(s, clock, issued)) == [];
  }

  /** An applied state asks only for the handshake of a key it commits first. */
  lemma AfterStateAsks(s: Session, clock: nat, issued: nat)
    ensures Asks(s, AfterState(s, clock, issued), clock)
  {
    hide StateNoted, RequestSync, FlushHeldBack, AnnounceHolds, AnnounceKey, ResolveSpeculation, Quiet, Calm, Asks;
    AfterStateShape(s, clock, issued);
    var a := StateNoted(s, clock, issued);
    NotingCalm(s, clock, issued);
    var b: Session;
    if CommitsOurs(a) {
      var r := ResolveSpeculation(a);
      ResolvingQuiet(a);
      var c := HandshakeOnce(r, clock);
      QuietItself(r, r);
      QuietIsCalm(r, r, clock);
      if r.debts.handshakenAt.None? {
        RequestAsks(r, clock);
      }
      QuietIsCalm(a, r, clock);
      CalmThenAsks(a, r, c, clock);
      FlushingQuiet(c);
      b := FlushHeldBack(c);
      AsksThenQuiet(a, c, b, clock);
    } else {
      SmallStepsQuiet(a, clock);
      b := AnnounceKey(a, clock);
      QuietIsCalm(a, b, clock);
    }
    SmallStepsQuiet(b, clock);
    AsksThenQuiet(a, b, AnnounceHolds(b, clock), clock);
    CalmThenAsks(s, a, AnnounceHolds(b, clock), clock);
  }

  lemma ResolvingQuiet(s: Session)
    ensures Quiet(s, ResolveSpeculation(s))
  {
    QuietItself(s, ResolveSpeculation(s));
  }

  lemma StateFrameQuiet(s: Session, t: Session, frame: Frame)
    requires Extends(s, t) && Added(s, t) == [frame] && IsStateFrame(frame) && t.debts == s.debts
    ensures Quiet(s, t)
  {
    CountOne(frame, AsksSync);
  }

  lemma HostNotedQuiet(s: Session, t: Session)
    requires Extends(s, t) && t.wire.outbound == s.wire.outbound && t.debts == s.debts
    ensures Quiet(s, t)
  {
    assert Added(s, t) == [];
  }

  lemma StatePublishingAsks(s: Session, clock: nat, reason: HostReason, listing: seq<Path>, seals: bool)
    requires Sane(s)
    ensures Asks(s, PublishState(s, clock, reason, listing, seals), clock)
  {
    hide AfterState, Publish, Quiet, Calm, Asks, Extends;
    var next := PublishState(s, clock, reason, listing, seals);
    QuietItself(s, s);
    QuietIsCalm(s, next, clock);
    if s.wire.roomFrames < s.who.budget && s.host.Some? {
      HostPublishes(s.host.value, clock, reason, listing, seals);
      PublishStateShape(s, clock, reason, listing, seals);
      StatePublishingExtends(s, clock, reason, listing, seals);
      var (h, out) := Publish(s.host.value, clock, reason, listing, seals);
      if out.None? {
        HostNotedQuiet(s, next);
      } else if !out.value.isNew {
        OldStateExtends(s, h, out.value);
        StateFrameQuiet(s, next, out.value.frame);
      } else {
        var w := NewStateFolded(s, h, out.value);
        NewStateExtends(s, h, out.value);
        StateFrameQuiet(s, w, out.value.frame);
        AfterStateAsks(w, clock, out.value.issued);
        QuietIsCalm(s, w, clock);
        CalmThenAsks(s, w, next, clock);
      }
    }
  }

  // --- every step --------------------------------------------------------------------------------

  lemma {:induction false} RepliesNeverAsk(r: ReadState, answers: bool, messages: seq<Message>)
    requires forall m <- r.replies :: m.SyncStep2?
    ensures forall m <- ReadStream(r, answers, messages).replies :: m.SyncStep2?
    decreases |messages|
  {
    if messages != [] {
      RepliesNeverAsk(ReadMessage(r, answers, messages[0]).0, answers, messages[1..]);
    }
  }

  lemma ReadingCalm(s: Session, messages: seq<Message>, verified: PublicKey)
    ensures Calm(s, ApplyContent(s, messages, verified))
  {
    hide ApplyStream, SendReplies, Writers;
    var answers := MayPublish(s) && IsWriter(s);
    var read := ApplyStream(PublicationDoc(s), answers, messages);
    RepliesNeverAsk(ReadState(PublicationDoc(s), [], false), answers, messages);
    assert forall m <- read.replies :: m.SyncStep2? by { ApplyStreamReads(PublicationDoc(s), answers, messages); }
    var t := ReadInto(s, messages, answers);
    var u := if read.requested then ArmReciprocal(t, verified) else t;
    ReadingExtends(s, messages, verified);
    ReplyingQuiet(u, read.replies);
    assert Added(s, s) == [];
  }

  lemma ApplyStreamReads(doc: Replica.Doc, answers: bool, messages: seq<Message>)
    ensures ApplyStream(doc, answers, messages) == ReadStream(ReadState(doc, [], false), answers, messages)
  {
  }

  lemma DeliveringAsks(s: Session, clock: nat, frame: Frame, listing: seq<Path>, seals: bool)
    requires Sane(s)
    ensures Asks(s, Deliver(s, clock, frame, listing, seals), clock)
  {
    hide Read, ApplyContent, AfterState, PublishState, Announce, Quiet, Calm, Asks, Extends;
    var t := CountFrame(s);
    var v := Judge(t.reader, frame);
    var next := Deliver(s, clock, frame, listing, seals);
    DeliveringExtends(s, clock, frame, listing, seals);
    if v.Refused? || (v.kind == 2 && t.view.stateIssued.None?) {
      CountedCalm(s, next);
      QuietIsCalm(s, next, clock);
    } else {
      var u := t.(reader := Read(t.reader, frame),
                  view := if v.kind == 1 then t.view.(heldState := Some(frame)) else t.view);
      CountingExtends(s);
      ExtendsLoosely(s, t, s, u);
      CountedCalm(s, u);
      QuietItself(u, u);
      QuietIsCalm(u, next, clock);
      match v.kind {
        case 0 =>
          ReadingCalm(u, Stream(v.body), v.key);
        case 1 =>
          AfterStateAsks(u, clock, v.body.state.issued);
        case 4 =>
          if u.host.Some? {
            HostHears(u.host.value, v.body.key, v.body.declared);
            var w := u.(host := Some(Announce(u.host.value, v.body.key, v.body.declared)));
            HeardQuiet(u, w);
            StatePublishingAsks(w, clock, Announced, listing, seals);
            QuietIsCalm(u, w, clock);
            CalmThenAsks(u, w, next, clock);
          }
        case _ =>
          QuietItself(u, next);
      }
      CalmThenAsks(s, u, next, clock);
    }
  }

  lemma CountedCalm(s: Session, t: Session)
    requires Extends(s, t) && t.wire.outbound == s.wire.outbound && t.debts.handshakenAt == s.debts.handshakenAt
    ensures Calm(s, t)
  {
    assert Added(s, t) == [];
  }

  lemma HeardQuiet(s: Session, t: Session)
    requires s.host.Some? && t.host.Some? && t == s.(host := t.host) && t.host.value.series == s.host.value.series && Sane(s)
    ensures Quiet(s, t) && Sane(t)
  {
    assert Added(s, t) == [];
  }

  lemma ClosingFrameQuiet(s: Session, t: Session, frame: Frame)
    requires Extends(s, t) && Added(s, t) == [frame] && IsClosing(frame) && t.debts == s.debts
    ensures Quiet(s, t)
  {
    CountOne(frame, AsksSync);
  }

  lemma SpendingQuiet(s: Session, seals: bool)
    requires Sane(s) && s.who.budget <= s.wire.roomFrames
    ensures Quiet(s, SpendBudget(s, seals))
  {
    hide Close, Extends;
    SpendingExtends(s, seals);
    var t := SpendBudget(s, seals);
    if s.host.None? || Close(s.host.value, seals).1.None? {
      HostNotedQuiet(s, t);
    } else {
      HostCloses(s.host.value, seals);
      assert Added(s, t) == [Close(s.host.value, seals).1.value.frame];
      ClosingFrameQuiet(s, t, Close(s.host.value, seals).1.value.frame);
    }
  }

  lemma ClosingQuiet(s: Session, seals: bool)
    requires Sane(s)
    ensures Quiet(s, CloseRoom(s, seals))
  {
    hide Close, Extends;
    ClosingExtends(s, seals);
    var t := CloseRoom(s, seals);
    if s.host.None? || Close(s.host.value, seals).1.None? {
      HostNotedQuiet(s, t);
    } else {
      HostCloses(s.host.value, seals);
      assert Added(s, t) == [Close(s.host.value, seals).1.value.frame];
      ClosingFrameQuiet(s, t, Close(s.host.value, seals).1.value.frame);
    }
  }

  /** A tick asks once at most: a state just published that asked leaves nothing for the re-sync to owe. */
  lemma PayingAsks(s: Session, clock: nat, listing: seq<Path>, seals: bool)
    requires Sane(s)
    ensures Asks(s, PayDue(s, clock, listing, seals), clock)
  {
    hide PublishState, Reannounce, Resync, AnnounceHolds, AnnounceKey, Extends;
    var a := PublishState(s, clock, Announced, listing, seals);
    var b := Reannounce(a, clock);
    var c := Resync(b, clock);
    StatePublishingAsks(s, clock, Announced, listing, seals);
    SmallStepsQuiet(a, clock);
    AsksThenQuiet(s, a, b, clock);
    ResyncAsks(b, clock);
    AsksMeans(s, b, clock);
    if Asked(s, b) == 0 {
      CalmThenAsks(s, b, c, clock);
    }
    SmallStepsQuiet(c, clock);
    AsksThenQuiet(s, c, AnnounceHolds(c, clock), clock);
  }

  lemma HousekeepingQuiet(s: Session, clock: nat)
    requires Sane(s)
    ensures Quiet(s, Housekept(s, clock)) && Sane(Housekept(s, clock))
  {
    hide HostSeat, Extends;
    HousekeepingExtends(s, clock);
    HostNotedQuiet(s, Housekept(s, clock));
  }

  lemma TickingAsks(s: Session, clock: nat, listing: seq<Path>, seals: bool)
    requires Sane(s)
    ensures Asks(s, Tick(s, clock, listing, seals), clock)
  {
    hide PayDue, SpendBudget, Housekept, Extends, Quiet, Calm, Asks;
    var t, next := Housekept(s, clock), Tick(s, clock, listing, seals);
    HousekeepingQuiet(s, clock);
    QuietIsCalm(s, t, clock);
    QuietItself(t, t);
    QuietIsCalm(t, next, clock);
    if t.ending.None? {
      if t.who.budget <= t.wire.roomFrames {
        SpendingQuiet(t, seals);
      } else if WindowPassed(t, clock).Some? {
        QuietItself(t, next);
      } else {
        PayingAsks(t, clock, listing, seals);
      }
      CalmThenAsks(s, t, next, clock);
    }
  }

  lemma RepublishingQuiet(s: Session)
    requires Sane(s)
    ensures Quiet(s, Republish(s))
  {
    QuietItself(s, s);
    if s.view.heldState.Some? {
      QueueingAdds(s, s.view.heldState.value);
      CountOne(s.view.heldState.value, AsksSync);
    }
  }

  lemma JoiningAsks(s: Session, clock: nat, seat: Seat, listing: seq<Path>, seals: bool)
    requires Sane(s)
    ensures Asks(s, SeatJoins(s, clock, seat, listing, seals), clock)
  {
    hide PublishState, AnnounceHolds, HostSeat, AddSeat, Quiet, Calm, Asks;
    var t := s.(host := if s.host.Some? then Some(SeatJoined(s.host.value, seat)) else None,
                view := s.view.(roster := s.view.roster + {seat}),
                holds := s.holds.(at := None));
    assert Added(s, t) == [];
    HostNotedQuiet(s, t);
    var u := if t.host.Some? then PublishState(t, clock, RosterChange, listing, seals)
             else if HostIsAway(t) then Republish(t) else t;
    if t.host.Some? {
      StatePublishingAsks(t, clock, RosterChange, listing, seals);
    } else {
      RepublishingQuiet(t);
      QuietItself(t, t);
      QuietIsCalm(t, u, clock);
    }
    QuietIsCalm(s, t, clock);
    CalmThenAsks(s, t, u, clock);
    SmallStepsQuiet(u, clock);
    AsksThenQuiet(s, u, AnnounceHolds(u, clock), clock);
  }

  lemma LeavingAsks(s: Session, clock: nat, seat: Seat, listing: seq<Path>, seals: bool)
    requires Sane(s)
    ensures Asks(s, SeatLeaves(s, clock, seat, listing, seals), clock)
  {
    hide PublishState, HostSeat, DropSeat, DropLabel, Quiet, Calm, Asks;
    var t := s.(host := if s.host.Some? then Some(SeatLeft(s.host.value, seat)) else None,
                view := s.view.(roster := s.view.roster - {seat}));
    var u := RefreshHostAway(t, clock, false);
    assert Added(s, u) == [];
    HostNotedQuiet(s, u);
    QuietIsCalm(s, u, clock);
    StatePublishingAsks(u, clock, RosterChange, listing, seals);
    CalmThenAsks(s, u, PublishState(u, clock, RosterChange, listing, seals), clock);
  }

  lemma InsertingQuiet(s: Session, payload: string, fits: bool)
    ensures Quiet(s, Insert(s, payload, fits))
  {
    hide NewAtom, Replica.Diff, Replica.StateVector, PublishFrame;
    var next := Insert(s, payload, fits);
    InsertingExtends(s, payload, fits);
    QuietItself(s, s);
    if OwnRole(s) != Some(ViewerRole) {
      var t := if !IsWriter(s) then BeginSpeculation(s) else s;
      var before := Replica.StateVector(t.replica.doc);
      var u := t.(replica := t.replica.(doc := t.replica.doc + {NewAtom(t, payload)}));
      var delta := Replica.Atoms(Replica.Diff(u.replica.doc, before));
      if !fits || !MayPublish(u) || !IsWriter(u) {
        QuietItself(s, next);
      } else {
        PublishingQuiet(AcceptSpeculation(u), Content, StreamBody([Update(delta)]));
      }
    }
  }

  /** The clock an input is handed at; the others have none, and nothing they do reads one. */
  function ClockOf(i: Input): Option<nat> {
    match i
    case Inserted(_, _) => None
    case RoomClosed(_) => None
    case Taken => None
    case _ => Some(i.clock)
  }

  lemma StepAsks(s: Session, i: Input, clock: nat)
    requires Sane(s) && !i.Taken? && (ClockOf(i).Some? ==> clock == ClockOf(i).value)
    ensures Asks(s, Step(s, i), clock)
    ensures ClockOf(i).None? ==> Calm(s, Step(s, i))
  {
    hide Deliver, Tick, Insert, SeatJoins, SeatLeaves, PublishState, AnnounceHolds, CloseRoom, Extends, Quiet, Calm, Asks;
    QuietIsCalm(s, Step(s, i), clock);
    match i
    case Delivered(_, frame, listing, seals) => DeliveringAsks(s, clock, frame, listing, seals);
    case Ticked(_, listing, seals) => TickingAsks(s, clock, listing, seals);
    case Inserted(payload, fits) => InsertingQuiet(s, payload, fits);
    case SomeoneJoined(_, seat, listing, seals) => JoiningAsks(s, clock, seat, listing, seals);
    case SomeoneLeft(_, seat, listing, seals) => LeavingAsks(s, clock, seat, listing, seals);
    case ListingChanged(_, listing, seals) => StatePublishingAsks(s, clock, ListingChange, listing, seals);
    case Held(_, held) =>
      var t := s.(holds := s.holds.(held := held));
      QuietItself(s, t);
      SmallStepsQuiet(t, clock);
      QuietChains(s, t, AnnounceHolds(t, clock));
    case RoomClosed(seals) => ClosingQuiet(s, seals);
  }

  // --- whole runs --------------------------------------------------------------------------------

  /** The last clock a run of inputs was handed. */
  function Now(inputs: seq<Input>): nat {
    if inputs == [] then 0
    else if ClockOf(inputs[|inputs| - 1]).Some? then ClockOf(inputs[|inputs| - 1]).value
    else Now(inputs[..|inputs| - 1])
  }

  predicate Monotone(inputs: seq<Input>) {
    inputs != [] ==>
      var rest, last := inputs[..|inputs| - 1], inputs[|inputs| - 1];
      Monotone(rest) && (ClockOf(last).Some? ==> Now(rest) <= ClockOf(last).value)
  }

  /** The clocks at which a run's requests went out, one for each. */
  ghost function RequestTimes(s: Session, inputs: seq<Input>): seq<nat>
    requires Sane(s)
  {
    hide Step, Sane;
    if inputs == [] then []
    else
      var rest, last := inputs[..|inputs| - 1], inputs[|inputs| - 1];
      var earlier := RequestTimes(s, rest);
      assert Sane(Run(s, rest)) by { var _ := Emitted(s, rest); }
      var t := Run(s, rest);
      if last.Taken? then earlier
      else
        StepExtends(t, last);
        ExtendsMeans(t, Step(t, last));
        if Asked(t, Step(t, last)) == 0 then earlier else earlier + [Now(inputs)]
  }

  ghost predicate Spaced(times: seq<nat>, renew: nat) {
    forall i | 0 <= i < |times| - 1 :: times[i] + renew <= times[i + 1]
  }

  lemma SpacedAppend(times: seq<nat>, renew: nat, last: nat)
    requires Spaced(times, renew) && (times != [] ==> times[|times| - 1] + renew <= last)
    ensures Spaced(times + [last], renew)
  {
  }

  /**
   Whatever owes them, a session's requests leave at least a renewal apart: every request the run
   sends is in the list, and each is `renew` or more after the one before it.
   */
  lemma {:induction false} RequestsAreARenewalApart(s: Session, inputs: seq<Input>)
    requires Sane(s) && s.debts.handshakenAt.None? && Monotone(inputs)
    ensures var times := RequestTimes(s, inputs);
            && |times| == Count(Emitted(s, inputs), AsksSync)
            && Spaced(times, s.who.renew)
            && Run(s, inputs).debts.handshakenAt == (if times == [] then None else Some(times[|times| - 1]))
            && (times != [] ==> times[|times| - 1] <= Now(inputs))
            && Run(s, inputs).who == s.who
    decreases |inputs|
  {
    hide Step, Sane, Extends;
    if inputs != [] {
      var rest, last := inputs[..|inputs| - 1], inputs[|inputs| - 1];
      RequestsAreARenewalApart(s, rest);
      var t := Run(s, rest);
      var earlier := RequestTimes(s, rest);
      var emitted := Emitted(s, rest);
      if last.Taken? {
        DrainingKeepsDebts(t);
      } else {
        var clock := Now(inputs);
        StepExtends(t, last);
        ExtendsMeans(t, Step(t, last));
        StepAsks(t, last, clock);
        CountAdds(emitted, Added(t, Step(t, last)), AsksSync);
        RunKeepsTheWire(s, inputs);
        if Asked(t, Step(t, last)) != 0 {
          SpacedAppend(earlier, s.who.renew, clock);
        }
      }
    }
  }

  lemma DrainingKeepsDebts(s: Session)
    ensures Step(s, Taken).debts == s.debts && Step(s, Taken).who == s.who
  {
  }

  /** However the debts arise, a span of `T` sees at most `T / renew + 1` requests. */
  lemma RequestsInASpan(s: Session, inputs: seq<Input>, start: nat, span: nat)
    requires Sane(s) && s.debts.handshakenAt.None? && Monotone(inputs) && s.who.renew > 0
    requires forall t <- RequestTimes(s, inputs) :: start <= t <= start + span
    ensures Count(Emitted(s, inputs), AsksSync) <= span / s.who.renew + 1
  {
    hide Step, Sane, RequestTimes, Emitted;
    RequestsAreARenewalApart(s, inputs);
    var times := RequestTimes(s, inputs);
    if times != [] {
      var last := |times| - 1;
      SpacedSpan(times, s.who.renew, 0, last);
      assert times[0] in times && times[last] in times;
      DivideBound(last, s.who.renew, span);
    }
  }

  lemma {:induction false} SpacedSpan(times: seq<nat>, renew: nat, first: nat, last: nat)
    requires Spaced(times, renew) && first <= last < |times|
    ensures times[first] + (last - first) * renew <= times[last]
    decreases last
  {
    if first < last {
      SpacedSpan(times, renew, first, last - 1);
      assert times[last - 1] + renew <= times[last - 1 + 1];
      assert (last - first) * renew == (last - 1 - first) * renew + renew;
    }
  }
}
