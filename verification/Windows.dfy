/**
 The host-away window over whole runs: what a session that ends because its host was away has seen
 of the host's seat, and the coming and going it does not see.
 */
module Windows {
  import opened Options
  import opened Frames
  import opened Sealed
  import opened Producer
  import opened Session
  import opened SessionFrames
  import opened Speculation
  import SyncDebts

  /** The applied state names a host, whose seat the roster does not have. */
  ghost predicate Absent(s: Session) {
    HostSeat(s.reader.committed).Some? && HostSeat(s.reader.committed).value !in s.view.roster
  }

  /** A clock that runs after the step ran before it, under the same state, or was started by it on an absence. */
  ghost predicate Watches(s: Session, t: Session, clock: nat) {
    t.view.awaySince.Some? ==>
      || (t.view.awaySince == s.view.awaySince && t.reader.committed == s.reader.committed)
      || (t.view.awaySince == Some(clock) && Absent(t))
  }

  ghost predicate Away(s: Session, t: Session, clock: nat) {
    t.view.roster == s.view.roster && Watches(s, t, clock)
  }

  lemma AwayChains(s: Session, t: Session, u: Session, clock: nat)
    requires Watches(s, t, clock) && Away(t, u, clock)
    ensures Watches(s, u, clock)
  {
    hide HostSeat;
  }

  /** The parts of a step that never look at the host's seat. */
  predicate SameWatch(s: Session, t: Session) {
    t.view.roster == s.view.roster && t.view.awaySince == s.view.awaySince && t.reader.committed == s.reader.committed
  }

  lemma SameIsAway(s: Session, t: Session, clock: nat)
    requires SameWatch(s, t)
    ensures Away(s, t, clock)
  {
  }

  lemma SmallStepsKeepTheWatch(s: Session, clock: nat)
    ensures SameWatch(s, RequestSync(s, clock)) && SameWatch(s, AnnounceKey(s, clock)) && SameWatch(s, AnnounceHolds(s, clock))
    ensures SameWatch(s, Reannounce(s, clock)) && SameWatch(s, Resync(s, clock))
  {
    hide PublishFrame;
    PublishingKeepsReplica(s, Syncing, StreamBody([SyncStep1(Replica.StateVector(PublicationDoc(s)))]));
    PublishingKeepsReplica(s, Announcing, AnnounceBody(s.who.me, s.who.declared));
    PublishingKeepsReplica(s, Holding, HoldsBody(s.holds.held));
  }

  lemma FlushingKeepsTheWatch(s: Session)
    ensures SameWatch(s, FlushHeldBack(s)) && SameWatch(s, ResolveSpeculation(s))
  {
    hide SendAll;
    var t := AcceptSpeculation(s);
    SendingKeepsReplica(t.(replica := t.replica.(unsent := [])), t.replica.unsent);
  }

  /** An applied state restarts the clock, or stops it. */
  lemma AfterStateRestarts(s: Session, clock: nat, issued: nat)
    ensures var t := AfterState(s, clock, issued);
            && t.view.roster == s.view.roster && t.reader.committed == s.reader.committed
            && (t.view.awaySince.Some? ==> t.view.awaySince == Some(clock) && Absent(t))
  {
    hide StateNoted, RequestSync, FlushHeldBack, AnnounceHolds, AnnounceKey, ResolveSpeculation, HostSeat;
    AfterStateShape(s, clock, issued);
    var a := StateNoted(s, clock, issued);
    NotingRestarts(s, clock, issued);
    var r := ResolveSpeculation(a);
    FlushingKeepsTheWatch(a);
    SmallStepsKeepTheWatch(r, clock);
    var c := HandshakeOnce(r, clock);
    FlushingKeepsTheWatch(c);
    SmallStepsKeepTheWatch(FlushHeldBack(c), clock);
    SmallStepsKeepTheWatch(a, clock);
    SmallStepsKeepTheWatch(AnnounceKey(a, clock), clock);
  }

  lemma NotingRestarts(s: Session, clock: nat, issued: nat)
    ensures var t := StateNoted(s, clock, issued);
            && t.view.roster == s.view.roster && t.reader.committed == s.reader.committed
            && (t.view.awaySince.Some? ==> t.view.awaySince == Some(clock) && Absent(t))
  {
    hide HostSeat, Writers;
  }

  lemma StatePublishingWatches(s: Session, clock: nat, reason: HostReason, listing: seq<Path>, seals: bool)
    ensures Away(s, PublishState(s, clock, reason, listing, seals), clock)
  {
    hide AfterState, Publish, HostSeat, NewStateFolded;
    if s.wire.roomFrames < s.who.budget && s.host.Some? {
      PublishStateShape(s, clock, reason, listing, seals);
      var (h, out) := Publish(s.host.value, clock, reason, listing, seals);
      if out.Some? && out.value.isNew && out.value.state.Some? {
        var w := NewStateFolded(s, h, out.value);
        FoldedView(s, h, out.value);
        AfterStateRestarts(w, clock, out.value.issued);
      }
    }
  }

  lemma FoldedView(s: Session, h: Host, out: Publication)
    requires out.state.Some?
    ensures NewStateFolded(s, h, out).view == s.view
  {
  }

  /** A refresh: the clock stops while the seat is there, and runs on or starts while it is not. */
  lemma RefreshingWatches(s: Session, clock: nat, restart: bool)
    ensures var t := RefreshHostAway(s, clock, restart);
            && Away(s, t, clock) && t.reader == s.reader
            && (t.view.awaySince.Some? <==> Absent(t))
  {
    hide HostSeat;
  }

  lemma HousekeepingWatches(s: Session, clock: nat)
    ensures var t := Housekept(s, clock);
            && Away(s, t, clock) && t.reader == s.reader && t.ending == s.ending && t.who == s.who
            && (t.view.awaySince.Some? <==> Absent(t))
  {
    hide HostSeat;
  }

  lemma TickingWatches(s: Session, clock: nat, listing: seq<Path>, seals: bool)
    ensures Away(s, Tick(s, clock, listing, seals), clock)
  {
    hide PublishState, Reannounce, Resync, AnnounceHolds, Close, HostSeat, Housekept;
    var t, next := Housekept(s, clock), Tick(s, clock, listing, seals);
    HousekeepingWatches(s, clock);
    if t.ending.Some? || t.who.budget <= t.wire.roomFrames || WindowPassed(t, clock).Some? {
      SameIsAway(t, next, clock);
    } else {
      var a := PublishState(t, clock, Announced, listing, seals);
      StatePublishingWatches(t, clock, Announced, listing, seals);
      SmallStepsKeepTheWatch(a, clock);
      SmallStepsKeepTheWatch(Reannounce(a, clock), clock);
      SmallStepsKeepTheWatch(Resync(Reannounce(a, clock), clock), clock);
      AwayChains(s, t, a, clock);
      SameIsAway(a, next, clock);
      AwayChains(s, a, next, clock);
    }
    AwayChains(s, t, next, clock);
  }

  lemma ReadingKeepsTheWatch(s: Session, messages: seq<Message>, peer: PublicKey)
    ensures SameWatch(s, ApplyContent(s, messages, peer))
  {
    hide ApplyStream, SendReplies, Writers;
    var answers := MayPublish(s) && IsWriter(s);
    var read := ApplyStream(PublicationDoc(s), answers, messages);
    var t := ReadInto(s, messages, answers);
    ReplyingKeepsReplica(if read.requested then ArmReciprocal(t, peer) else t, read.replies);
  }

  lemma DeliveringWatches(s: Session, clock: nat, frame: Frame, listing: seq<Path>, seals: bool)
    ensures Away(s, Deliver(s, clock, frame, listing, seals), clock)
  {
    hide Read, ApplyContent, AfterState, PublishState, Announce, HostSeat, Judge;
    var t := CountFrame(s);
    var v := Judge(t.reader, frame);
    var next := Deliver(s, clock, frame, listing, seals);
    if v.Accepted? {
      KindsAgree(t.reader, frame);
      if v.kind != 1 {
        ReadKeepsCommitted(t.reader, frame);
      }
      var u := t.(reader := Read(t.reader, frame),
                  view := if v.kind == 1 then t.view.(heldState := Some(frame)) else t.view);
      if v.kind == 2 && t.view.stateIssued.None? {
      } else if v.kind == 0 {
        ReadingKeepsTheWatch(u, Stream(v.body), v.key);
      } else if v.kind == 1 {
        AfterStateRestarts(u, clock, v.body.state.issued);
      } else if v.kind == 4 && u.host.Some? {
        StatePublishingWatches(u.(host := Some(Announce(u.host.value, v.body.key, v.body.declared))), clock, Announced, listing, seals);
      }
    }
  }

  lemma KindsAgree(r: ReaderState, frame: Frame)
    requires Judge(r, frame).Accepted?
    ensures var v := Judge(r, frame);
            && v.kind <= 4 && (v.kind == 1 ==> v.body.StateBody?) && (v.kind == 2 ==> v.body.ClosingBody?)
            && (v.kind == 3 ==> v.body.HoldsBody?) && (v.kind == 4 ==> v.body.AnnounceBody?)
  {
  }

  lemma JoiningWatches(s: Session, clock: nat, seat: Seat, listing: seq<Path>, seals: bool)
    ensures var t := SeatJoins(s, clock, seat, listing, seals);
            Watches(s, t, clock) && t.view.roster == s.view.roster + {seat}
  {
    hide PublishState, AnnounceHolds, HostSeat, AddSeat;
    var t := s.(host := if s.host.Some? then Some(SeatJoined(s.host.value, seat)) else None,
                view := s.view.(roster := s.view.roster + {seat}),
                holds := s.holds.(at := None));
    var u := if t.host.Some? then PublishState(t, clock, RosterChange, listing, seals)
             else if HostIsAway(t) then Republish(t) else t;
    StatePublishingWatches(t, clock, RosterChange, listing, seals);
    if t.host.None? {
      SameIsAway(t, u, clock);
    }
    SmallStepsKeepTheWatch(u, clock);
    SameIsAway(u, AnnounceHolds(u, clock), clock);
    AwayChains(t, u, AnnounceHolds(u, clock), clock);
  }

  lemma LeavingWatches(s: Session, clock: nat, seat: Seat, listing: seq<Path>, seals: bool)
    ensures var t := SeatLeaves(s, clock, seat, listing, seals);
            Watches(s, t, clock) && t.view.roster == s.view.roster - {seat}
  {
    hide PublishState, HostSeat, DropSeat, DropLabel, RefreshHostAway;
    var t := s.(host := if s.host.Some? then Some(SeatLeft(s.host.value, seat)) else None,
                view := s.view.(roster := s.view.roster - {seat}));
    RefreshingWatches(t, clock, false);
    var u := RefreshHostAway(t, clock, false);
    StatePublishingWatches(u, clock, RosterChange, listing, seals);
    AwayChains(t, u, PublishState(u, clock, RosterChange, listing, seals), clock);
  }

  /** The roster is what the relay says of it, and the clock as `Watches` has it, over every step. */
  lemma StepWatches(s: Session, i: Input, clock: nat)
    requires SyncDebts.ClockOf(i).Some? ==> clock == SyncDebts.ClockOf(i).value
    ensures var t := Step(s, i);
            && Watches(s, t, clock)
            && (SyncDebts.ClockOf(i).None? ==> SameWatch(s, t))
            && t.view.roster == (match i
                                 case SomeoneJoined(_, seat, _, _) => s.view.roster + {seat}
                                 case SomeoneLeft(_, seat, _, _) => s.view.roster - {seat}
                                 case _ => s.view.roster)
  {
    hide Deliver, Tick, Insert, SeatJoins, SeatLeaves, PublishState, AnnounceHolds, Close, HostSeat;
    match i
    case Delivered(_, frame, listing, seals) => DeliveringWatches(s, clock, frame, listing, seals);
    case Ticked(_, listing, seals) => TickingWatches(s, clock, listing, seals);
    case Inserted(payload, fits) => InsertingKeepsTheWatch(s, payload, fits);
    case SomeoneJoined(_, seat, listing, seals) => JoiningWatches(s, clock, seat, listing, seals);
    case SomeoneLeft(_, seat, listing, seals) => LeavingWatches(s, clock, seat, listing, seals);
    case ListingChanged(_, listing, seals) => StatePublishingWatches(s, clock, ListingChange, listing, seals);
    case Held(_, held) => SmallStepsKeepTheWatch(s.(holds := s.holds.(held := held)), clock);
    case RoomClosed(seals) =>
    case Taken =>
  }

  lemma InsertingKeepsTheWatch(s: Session, payload: string, fits: bool)
    ensures SameWatch(s, Insert(s, payload, fits))
  {
    hide Replica.Diff, Replica.StateVector, Replica.NextClock, PublishFrame;
    var t := if !IsWriter(s) then BeginSpeculation(s) else s;
    var u := t.(replica := t.replica.(doc := t.replica.doc + {NewAtom(t, payload)}));
    var delta := Replica.Atoms(Replica.Diff(u.replica.doc, Replica.StateVector(t.replica.doc)));
    PublishingKeepsReplica(AcceptSpeculation(u), Content, StreamBody([Update(delta)]));
  }

  // --- whole runs --------------------------------------------------------------------------------

  /** The session after the first `n` inputs. */
  ghost function Upto(s: Session, inputs: seq<Input>, n: nat): Session
    requires n <= |inputs|
  {
    Run(s, inputs[..n])
  }

  lemma UptoNext(s: Session, inputs: seq<Input>, n: nat)
    requires n < |inputs|
    ensures Upto(s, inputs, n + 1) == Step(Upto(s, inputs, n), inputs[n])
  {
    assert inputs[..n + 1][..n] == inputs[..n];
  }

  lemma NothingRunYet(s: Session, inputs: seq<Input>)
    ensures Upto(s, inputs, 0) == s
  {
    assert inputs[..0] == [];
  }

  predicate JoinsAt(inputs: seq<Input>, j: nat, seat: Seat) {
    j < |inputs| && inputs[j].SomeoneJoined? && inputs[j].seat == seat
  }

  /**
   The clock as it runs after `n` inputs: input `m` started it at `since`, with the seat of the host
   then named gone; the same state has been applied ever since; and that seat has not been in the
   roster since but for having joined again.
   */
  ghost predicate Started(s: Session, inputs: seq<Input>, m: nat, n: nat, since: nat, seat: Seat)
    requires n <= |inputs|
  {
    && m < n && SyncDebts.ClockOf(inputs[m]) == Some(since)
    && HostSeat(Upto(s, inputs, n).reader.committed) == Some(seat)
    && seat !in Upto(s, inputs, m + 1).view.roster
    && forall k | m < k <= n ::
         && Upto(s, inputs, k).reader.committed == Upto(s, inputs, n).reader.committed
         && (seat in Upto(s, inputs, k).view.roster ==> exists j :: m < j < k && JoinsAt(inputs, j, seat))
  }

  lemma {:induction false} ARunningClockWasStarted(s: Session, inputs: seq<Input>, n: nat) returns (m: nat, seat: Seat)
    requires n <= |inputs| && s.view.awaySince.None? && Upto(s, inputs, n).view.awaySince.Some?
    ensures Started(s, inputs, m, n, Upto(s, inputs, n).view.awaySince.value, seat)
  {
    hide Step, HostSeat;
    if n == 0 {
      NothingRunYet(s, inputs);
      assert false;
    } else {
      var i, before := inputs[n - 1], Upto(s, inputs, n - 1);
      var clock := if SyncDebts.ClockOf(i).Some? then SyncDebts.ClockOf(i).value else 0;
      UptoNext(s, inputs, n - 1);
      StepWatches(before, i, clock);
      var t := Upto(s, inputs, n);
      if t.view.awaySince == before.view.awaySince && t.reader.committed == before.reader.committed {
        m, seat := ARunningClockWasStarted(s, inputs, n - 1);
        if seat in t.view.roster && seat !in before.view.roster {
          assert JoinsAt(inputs, n - 1, seat);
        }
      } else {
        m, seat := n - 1, HostSeat(t.reader.committed).value;
      }
    }
  }

  /** A tick that ends a session for its host's absence has just seen the seat gone, a whole window after its clock began. */
  lemma ATickThatEndsAway(s: Session, clock: nat, listing: seq<Path>, seals: bool)
    requires s.ending.None? && Tick(s, clock, listing, seals).ending == Some(HostAway)
    ensures var t := Tick(s, clock, listing, seals);
            t.view.awaySince.Some? && Absent(t) && s.who.expire <= Since(clock, t.view.awaySince.value)
  {
    hide PublishState, RequestSync, AnnounceKey, AnnounceHolds, Close, HostSeat, Housekept;
    var t := Housekept(s, clock);
    HousekeepingWatches(s, clock);
    if t.wire.roomFrames < t.who.budget && WindowPassed(t, clock).None? {
      var a := PublishState(t, clock, Announced, listing, seals);
      PublishingKeepsEnding(t, clock, Announced, listing, seals);
      SmallStepsKeepReplica(a, clock);
      SmallStepsKeepReplica(Reannounce(a, clock), clock);
      SmallStepsKeepReplica(Resync(Reannounce(a, clock), clock), clock);
    }
  }

  /** Since when the host's seat has been known gone, as of now. */
  ghost function GoneSince(s: Session, clock: nat): Option<nat> {
    if !Absent(s) then None else if s.view.awaySince.Some? then s.view.awaySince else Some(clock)
  }

  /**
   What a tick ends, and as what: a spent budget first, then a host gone for a window, then a window
   without any state; and a session none of which is true of goes on.
   */
  lemma ATickEndsExactly(s: Session, clock: nat, listing: seq<Path>, seals: bool)
    requires s.ending.None?
    ensures Tick(s, clock, listing, seals).ending ==
              if s.who.budget <= s.wire.roomFrames then Some(BudgetSpent)
              else if GoneSince(s, clock).Some? && s.who.expire <= Since(clock, GoneSince(s, clock).value) then Some(HostAway)
              else if s.view.stateIssued.None? && s.who.expire <= clock then Some(NoState)
              else None
  {
    hide PublishState, RequestSync, AnnounceKey, AnnounceHolds, Close, HostSeat;
    var t := Housekept(s, clock);
    if t.wire.roomFrames < t.who.budget && WindowPassed(t, clock).None? {
      var a := PublishState(t, clock, Announced, listing, seals);
      PublishingKeepsEnding(t, clock, Announced, listing, seals);
      SmallStepsKeepReplica(a, clock);
      SmallStepsKeepReplica(Reannounce(a, clock), clock);
      SmallStepsKeepReplica(Resync(Reannounce(a, clock), clock), clock);
    }
  }

  lemma PublishingKeepsEnding(s: Session, clock: nat, reason: HostReason, listing: seq<Path>, seals: bool)
    ensures PublishState(s, clock, reason, listing, seals).ending == s.ending
  {
    hide AfterState, Publish, NewStateFolded;
    if s.wire.roomFrames < s.who.budget && s.host.Some? {
      PublishStateShape(s, clock, reason, listing, seals);
      var (h, out) := Publish(s.host.value, clock, reason, listing, seals);
      if out.Some? && out.value.isNew && out.value.state.Some? {
        var w := NewStateFolded(s, h, out.value);
        assert w.ending == s.ending by { FoldedEnding(s, h, out.value); }
        AfterStateKeepsEnding(w, clock, out.value.issued);
      }
    }
  }

  lemma FoldedEnding(s: Session, h: Host, out: Publication)
    requires out.state.Some?
    ensures NewStateFolded(s, h, out).ending == s.ending
  {
  }

  lemma AfterStateKeepsEnding(s: Session, clock: nat, issued: nat)
    ensures AfterState(s, clock, issued).ending == s.ending
  {
    hide StateNoted, RequestSync, AnnounceHolds, AnnounceKey, ResolveSpeculation, FlushHeldBack;
    AfterStateShape(s, clock, issued);
    NotingErases(s, clock, issued);
    var a := StateNoted(s, clock, issued);
    var r := ResolveSpeculation(a);
    assert r.ending == a.ending by { ResolvingEnding(a); }
    SmallStepsKeepReplica(r, clock);
    FlushingKeepsReader(HandshakeOnce(r, clock));
    SmallStepsKeepReplica(FlushHeldBack(HandshakeOnce(r, clock)), clock);
    SmallStepsKeepReplica(a, clock);
    SmallStepsKeepReplica(AnnounceKey(a, clock), clock);
  }

  lemma ResolvingEnding(s: Session)
    ensures ResolveSpeculation(s).ending == s.ending
  {
  }

  /**
   Whatever run ends a session because its host was away, some input a whole window before the end
   found the seat of the host then named gone from the roster, the same state was applied from then
   on, and the seat is gone at the end. It was gone throughout if and only if it never joined in
   between.
   */
  lemma AHostAwayWasSeenToGo(s: Session, rest: seq<Input>, clock: nat, listing: seq<Path>, seals: bool)
    returns (m: nat, since: nat, seat: Seat)
    requires Sane(s) && s.view.awaySince.None? && Run(s, rest).ending.None?
    requires Run(s, rest + [Ticked(clock, listing, seals)]).ending == Some(HostAway)
    ensures var inputs := rest + [Ticked(clock, listing, seals)];
            var n := |inputs|;
            && Started(s, inputs, m, n, since, seat) && s.who.expire <= Since(clock, since)
            && seat !in Upto(s, inputs, n).view.roster
            && ((forall k | m < k <= n :: seat !in Upto(s, inputs, k).view.roster) <==>
                (forall j | m < j < n :: !JoinsAt(inputs, j, seat)))
  {
    hide Step, HostSeat;
    var tick := Ticked(clock, listing, seals);
    var inputs := rest + [tick];
    var n := |inputs|;
    assert inputs[..n - 1] == rest && inputs[..n] == inputs;
    TickIsAStep(Run(s, rest), clock, listing, seals);
    ATickThatEndsAway(Run(s, rest), clock, listing, seals);
    RunKeepsTheWire(s, rest);
    since := Upto(s, inputs, n).view.awaySince.value;
    m, seat := ARunningClockWasStarted(s, inputs, n);
    forall j | m < j < n && JoinsAt(inputs, j, seat) ensures seat in Upto(s, inputs, j + 1).view.roster {
      UptoNext(s, inputs, j);
      StepWatches(Upto(s, inputs, j), inputs[j], inputs[j].clock);
    }
  }

  lemma TickIsAStep(s: Session, clock: nat, listing: seq<Path>, seals: bool)
    ensures Step(s, Ticked(clock, listing, seals)) == Tick(s, clock, listing, seals)
  {
  }

  /**
   The coming and going that goes unseen: a host that leaves, comes back and leaves again before any
   tick is held to have been away since it first left, though it was seated in between.
   */
  lemma AHostThatCameAndWent(s: Session, seat: Seat, left: nat, back: nat, again: nat, clock: nat)
    requires s.host.None? && s.ending.None? && s.wire.roomFrames + 1 < s.who.budget && s.view.awaySince.None?
    requires HostSeat(s.reader.committed) == Some(seat) && left + s.who.expire <= clock
    ensures var inputs := [SomeoneLeft(left, seat, [], false), SomeoneJoined(back, seat, [], false),
                           SomeoneLeft(again, seat, [], false), Ticked(clock, [], false)];
            && seat in Upto(s, inputs, 2).view.roster
            && Upto(s, inputs, 3).ending.None?
            && Upto(s, inputs, 4).ending == Some(HostAway)
  {
    hide HostSeat, Step;
    var inputs := [SomeoneLeft(left, seat, [], false), SomeoneJoined(back, seat, [], false),
                   SomeoneLeft(again, seat, [], false), Ticked(clock, [], false)];
    NothingRunYet(s, inputs);
    UptoNext(s, inputs, 0);
    UptoNext(s, inputs, 1);
    UptoNext(s, inputs, 2);
    UptoNext(s, inputs, 3);
    JoinersLeave(s, left, seat);
    JoinersJoin(Upto(s, inputs, 1), back, seat);
    JoinersLeave(Upto(s, inputs, 2), again, seat);
    ATickEndsExactly(Upto(s, inputs, 3), clock, [], false);
    TickIsAStep(Upto(s, inputs, 3), clock, [], false);
    assert Absent(Upto(s, inputs, 3));
  }

  lemma JoinersLeave(s: Session, clock: nat, seat: Seat)
    requires s.host.None? && HostSeat(s.reader.committed) == Some(seat)
    ensures var t := Step(s, SomeoneLeft(clock, seat, [], false));
            && t == s.(view := t.view) && seat !in t.view.roster
            && t.view.awaySince == (if s.view.awaySince.None? then Some(clock) else s.view.awaySince)
  {
    hide HostSeat;
  }

  lemma JoinersJoin(s: Session, clock: nat, seat: Seat)
    requires s.host.None? && s.ending.None?
    ensures var t := Step(s, SomeoneJoined(clock, seat, [], false));
            && t.host.None? && t.ending.None? && t.who == s.who && t.reader == s.reader && seat in t.view.roster
            && t.view.awaySince == s.view.awaySince && t.wire.roomFrames <= s.wire.roomFrames + 1
  {
    hide HostSeat, PublishFrame;
    var t := s.(view := s.view.(roster := s.view.roster + {seat}), holds := s.holds.(at := None));
    var u := if HostIsAway(t) then Republish(t) else t;
    PublishingKeepsReplica(u, Holding, HoldsBody(u.holds.held));
    PublishingCounts(u, Holding, HoldsBody(u.holds.held));
  }

  lemma PublishingCounts(s: Session, what: Kind, body: Body)
    ensures var t := PublishFrame(s, what, body).0;
            t.wire.roomFrames <= s.wire.roomFrames + 1 && t.who == s.who && (t.host.None? <==> s.host.None?)
  {
  }

}
