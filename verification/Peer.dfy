/**
 The session as the object a client drives: every field changes in place, and each method is
 proved to leave exactly the value its step of the specification names.
 */
module Peer {
  import opened Options
  import opened Replica
  import opened Frames
  import opened Sealed
  import opened Producer
  import opened S = Session
  import Receiver
  import Hosting

  class PeerSession {
    const who: Identity
    const reader: Receiver.Reader
    const host: Hosting.HostProducer?
    var replica: ReplicaState
    var debts: Debts
    var wire: Wire
    var holds: HoldsSent
    var view: RoomView
    var ending: Option<Ending>

    ghost function HostView(): Option<Host>
      reads this, host
    {
      if host == null then None else Some(host.View())
    }

    ghost function View(): Session
      reads this, reader, host
    {
      Session.Session(who, HostView(), reader.View(), replica, debts, wire, holds, view, ending)
    }

    ghost predicate Valid()
      reads this, host
    {
      host != null ==> host.Valid()
    }

    /** Opens a session; a host's publishes its mint state before anything else can be sent. */
    constructor (who: Identity, hostKey: PublicKey, seated: set<Seat>, host: Hosting.HostProducer?,
                 listing: seq<Path>, seals: bool)
      requires host != null ==> host.Valid()
      modifies host
      ensures Valid() && fresh(reader) && this.host == host
      ensures NewSession(who, hostKey, seated, old(if host == null then None else Some(host.View())), listing, seals)
           == if wire.fault then None else Some(View())
    {
      hide S.PublishState;
      this.who, this.host := who, host;
      reader := new Receiver.Reader(hostKey);
      replica := ReplicaState({}, None, [], 0);
      debts := Debts({}, {}, false, None, None, None);
      wire := Wire(0, if host == null then 0 else host.frames, [], false);
      holds := HoldsSent({}, {}, None);
      view := RoomView(if host == null then seated else seated + {host.config.ownSeat}, None, None, None, None);
      ending := None;
      new;
      PublishState(0, Mint, listing, seals);
    }

    // --- roles ---------------------------------------------------------------------------

    predicate StateCommitsOurs()
      reads this, reader, host
      ensures StateCommitsOurs() <==> CommitsOurs(View())
    {
      who.me in reader.committed
    }

    function Role(): (role: Option<Frames.Role>)
      reads this, reader, host
      ensures role == OwnRole(View())
    {
      RoleOf(reader.committed, who.me)
    }

    predicate Writes()
      reads this, reader, host
      ensures Writes() <==> IsWriter(View())
    {
      IsWriterRole(Role())
    }

    predicate Publishes()
      reads this, reader, host
      ensures Publishes() <==> MayPublish(View())
    {
      ending.None? && view.stateIssued.Some? && StateCommitsOurs()
    }

    /** The gates on anything queued, read at the moment of queueing. */
    predicate Queues(what: Kind, body: Body)
      reads this, reader, host
      ensures Queues(what, body) <==> MayQueue(View(), what, body)
    {
      ending.None? && (what == Announcing || (Publishes() && (IsContent(body) ==> Writes())))
    }

    method ArmReciprocal(verified: PublicKey)
      modifies this
      ensures View() == S.ArmReciprocal(old(View()), verified)
    {
      if !IsWriterRole(RoleOf(reader.committed, verified)) {
        return;
      }
      if verified !in debts.served {
        debts := debts.(served := debts.served + {verified}, pending := debts.pending + {verified});
      }
    }

    method PruneReciprocal()
      modifies this
      ensures View() == S.PruneReciprocal(old(View()))
    {
      var writers := set k <- reader.committed | IsWriterRole(Some(reader.committed[k].role));
      assert writers == Writers(reader.committed);
      debts := debts.(served := debts.served * writers, pending := debts.pending * writers);
    }

    method NoteLocalEligibility()
      modifies this
      ensures View() == NoteEligibility(old(View()))
    {
      if !Writes() {
        debts := debts.(readiness := false);
      } else if debts.handshakenAt.Some? && !IsWriterRole(debts.roleSeen) {
        debts := debts.(readiness := true);
      }
      debts := debts.(roleSeen := Role());
    }

    // --- publishing ----------------------------------------------------------------------

    method CountFrame()
      requires Valid()
      modifies this, host
      ensures Valid()
      ensures View() == S.CountFrame(old(View()))
    {
      wire := wire.(roomFrames := wire.roomFrames + 1);
      if host != null {
        host.CountFrames(wire.roomFrames);
      }
    }

    /** The counter moves for the attempt, whether or not the seal then succeeds. */
    method SealedFrame(what: Kind, body: Body) returns (frame: Option<Frame>)
      modifies this`wire
      ensures wire == old(wire).(counter := old(wire).counter + 1)
      ensures frame == if wire.counter in who.unsealable then None
                       else Some(OwnFrame(old(View()), what, wire.counter, body))
    {
      wire := wire.(counter := wire.counter + 1);
      if wire.counter in who.unsealable {
        return None;
      }
      frame := Some(Frame.Frame(who.me.id, KindOf(what), 0, wire.counter, Some(who.me), true, body));
      assert frame.value == OwnFrame(old(View()), what, wire.counter, body);
    }

    method Publish(what: Kind, body: Body) returns (sent: bool)
      requires Valid()
      modifies this, host
      ensures Valid()
      ensures (View(), sent) == PublishFrame(old(View()), what, body)
    {
      hide Receiver.Reader.View, Hosting.HostProducer.View, Queues, MayQueue, OwnFrame, S.CountFrame;
      if !Queues(what, body) {
        return false;
      }
      if who.budget <= wire.roomFrames {
        return false;
      }
      var frame := SealedFrame(what, body);
      if frame.None? {
        wire := wire.(fault := true);
        return false;
      }
      ghost var tried := View();
      CountFrame();
      wire := wire.(outbound := wire.outbound + [frame.value]);
      sent := true;
      assert View() == Queue(S.CountFrame(tried), frame.value);
    }

    method Announce(clock: nat)
      requires Valid()
      modifies this, host
      ensures Valid()
      ensures View() == AnnounceKey(old(View()), clock)
    {
      var _ := Publish(Announcing, AnnounceBody(who.me, who.declared));
      view := view.(announcedAt := Some(clock));
    }

    method Reannounce(clock: nat)
      requires Valid()
      modifies this, host
      ensures Valid()
      ensures View() == S.Reannounce(old(View()), clock)
    {
      if StateCommitsOurs() {
        return;
      }
      if view.announcedAt.None? || who.renew <= Since(clock, view.announcedAt.value) {
        Announce(clock);
      }
    }

    method RequestSync(clock: nat) returns (sent: bool)
      requires Valid()
      modifies this, host
      ensures Valid()
      ensures View() == S.RequestSync(old(View()), clock)
    {
      hide PublishFrame;
      var vector := VectorOf(if replica.baseline.Some? then replica.baseline.value else replica.doc);
      sent := Publish(Syncing, StreamBody([SyncStep1(vector)]));
      if sent {
        debts := debts.(handshakenAt := Some(clock), resyncFrom := None, pending := {}, readiness := false);
      }
    }

    method HandshakeOnce(clock: nat)
      requires Valid()
      modifies this, host
      ensures Valid()
      ensures View() == S.HandshakeOnce(old(View()), clock)
    {
      if debts.handshakenAt.None? {
        var _ := RequestSync(clock);
      }
    }

    method Resync(clock: nat)
      requires Valid()
      modifies this, host
      ensures Valid()
      ensures View() == S.Resync(old(View()), clock)
    {
      hide S.RequestSync;
      if !Publishes() {
        return;
      }
      if debts.handshakenAt.None? {
        var _ := RequestSync(clock);
        return;
      }
      if !OwesRequest(debts) {
        return;
      }
      if who.renew <= Since(clock, debts.handshakenAt.value) {
        var _ := RequestSync(clock);
      }
    }

    method AnnounceHolds(clock: nat)
      requires Valid()
      modifies this, host
      ensures Valid()
      ensures View() == S.AnnounceHolds(old(View()), clock)
    {
      if !Publishes() {
        return;
      }
      if holds.held == {} && holds.sent == {} && holds.at.None? {
        return;
      }
      if holds.held == holds.sent && holds.at.Some? && Since(clock, holds.at.value) < who.renew {
        return;
      }
      var _ := Publish(Holding, HoldsBody(holds.held));
      holds := HoldsSent(holds.held, holds.held, Some(clock));
    }

    // --- speculation ---------------------------------------------------------------------

    method BeginSpeculation()
      modifies this`replica
      ensures View() == S.BeginSpeculation(old(View()))
    {
      if replica.baseline.None? {
        replica := replica.(baseline := Some(replica.doc));
      }
    }

    method AcceptSpeculation()
      modifies this`replica
      ensures View() == S.AcceptSpeculation(old(View()))
    {
      var unsent := replica.unsent;
      var i := 0;
      while i < |unsent|
        invariant 0 <= i <= |unsent| == |replica.unsent|
        invariant forall k :: 0 <= k < i ==> unsent[k] == replica.unsent[k].(speculative := false)
        invariant forall k :: i <= k < |unsent| ==> unsent[k] == replica.unsent[k]
      {
        unsent := unsent[i := unsent[i].(speculative := false)];
        i := i + 1;
      }
      assert unsent == Accept(replica.unsent);
      replica := replica.(baseline := None, unsent := unsent);
    }

    method DiscardSpeculative()
      modifies this`replica
      ensures View() == S.DiscardSpeculative(old(View()))
    {
      var kept: seq<Unsent> := [];
      var i := |replica.unsent|;
      while i > 0
        invariant 0 <= i <= |replica.unsent|
        invariant kept == Settled(replica.unsent[i..])
      {
        i := i - 1;
        if !replica.unsent[i].speculative {
          kept := [replica.unsent[i]] + kept;
        }
      }
      assert replica.unsent[0..] == replica.unsent;
      if replica.baseline.None? {
        replica := replica.(unsent := kept);
      } else {
        replica := ReplicaState(replica.baseline.value, None, kept, replica.epoch + 1);
      }
    }

    method ResolveSpeculation()
      modifies this`replica
      ensures View() == S.ResolveSpeculation(old(View()))
    {
      if Role() == Some(ViewerRole) {
        DiscardSpeculative();
      } else if Writes() {
        AcceptSpeculation();
      }
    }

    method HoldBack(delta: Delta, speculative: bool)
      modifies this`replica
      ensures View() == S.HoldBack(old(View()), delta, speculative)
    {
      if Role() != Some(ViewerRole) && ending.None? {
        replica := replica.(unsent := replica.unsent + [Unsent(delta, speculative)]);
      }
    }

    method SendUpdate(delta: Delta) returns (sent: bool)
      requires Valid()
      modifies this, host
      ensures Valid()
      ensures (View(), sent) == S.SendUpdate(old(View()), delta)
    {
      sent := Publish(Content, StreamBody([Update(delta)]));
    }

    /** Publishes what is held in the order it was made, keeping each edit that was not sealed. */
    method FlushHeldBack()
      requires Valid()
      modifies this, host
      ensures Valid()
      ensures View() == S.FlushHeldBack(old(View()))
    {
      if replica.unsent == [] {
        return;
      }
      if ending.Some? {
        replica := replica.(unsent := []);
        return;
      }
      if !Writes() {
        return;
      }
      AcceptSpeculation();
      if !Publishes() {
        return;
      }
      var taken := replica.unsent;
      replica := replica.(unsent := []);
      var retained := SendEach(taken);
      replica := replica.(unsent := retained);
    }

    method SendEach(taken: seq<Unsent>) returns (retained: seq<Unsent>)
      requires Valid()
      modifies this, host
      ensures Valid()
      ensures (View(), retained) == SendAll(old(View()), taken)
    {
      hide S.SendUpdate;
      retained := [];
      var i := 0;
      ghost var all := SendAll(View(), taken);
      assert taken[0..] == taken;
      while i < |taken|
        invariant 0 <= i <= |taken|
        invariant Valid()
        invariant all.0 == SendAll(View(), taken[i..]).0
        invariant all.1 == retained + SendAll(View(), taken[i..]).1
      {
        ghost var before := View();
        ghost var rest := taken[i..];
        var sent := SendUpdate(taken[i].delta);
        assert rest[0] == taken[i] && rest[1..] == taken[i + 1..];
        SendAllStep(before, rest, View(), sent);
        if !sent {
          retained := retained + [taken[i]];
        }
        i := i + 1;
      }
      assert taken[i..] == [] && retained + [] == retained;
    }

    /** A local edit, published as the delta it produced; `fits` says the offset is in the text. */
    method Insert(payload: string, fits: bool) returns (queued: bool)
      requires Valid()
      modifies this, host
      ensures Valid()
      ensures View() == S.Insert(old(View()), payload, fits)
      ensures queued <==> wire.outbound != old(wire).outbound
    {
      if Role() == Some(ViewerRole) {
        return false;
      }
      var speculative := !Writes();
      if speculative {
        BeginSpeculation();
      }
      if !fits {
        return false;
      }
      var before := VectorOf(replica.doc);
      var clock := ClockOf(replica.doc, who.client);
      replica := replica.(doc := replica.doc + {Atom(who.client, clock, payload)});
      var delta := Atoms(Diff(replica.doc, before));
      if !Publishes() || !Writes() {
        HoldBack(delta, speculative);
        return false;
      }
      AcceptSpeculation();
      queued := SendUpdate(delta);
      if !queued {
        HoldBack(delta, false);
      }
    }

    // --- the room's state ----------------------------------------------------------------

    /** The seat of the `host` entry whose key is spelled first. */
    method NamedHostSeat() returns (seat: Option<Seat>)
      ensures seat == HostSeat(reader.committed)
    {
      var rest := HostKeys(reader.committed);
      if rest == {} {
        return None;
      }
      ghost var keys := rest;
      var first :| first in rest;
      rest := rest - {first};
      while rest != {}
        invariant first in keys && rest <= keys
        invariant SpelledFirst(keys - rest, first)
        decreases rest
      {
        var next :| next in rest;
        ghost var done := keys - rest;
        if next.spelling < first.spelling || (next.spelling == first.spelling && next.id < first.id) {
          first := next;
        }
        rest := rest - {next};
        assert keys - rest == done + {next};
      }
      assert keys - rest == keys;
      SpelledFirstUnique(reader.committed, first);
      return Some(reader.committed[first].seat);
    }

    method RefreshHostAway(clock: nat, restart: bool)
      modifies this`view
      ensures View() == S.RefreshHostAway(old(View()), clock, restart)
    {
      var seat := NamedHostSeat();
      if seat.None? || seat.value in view.roster {
        view := view.(awaySince := None);
      } else if restart || view.awaySince.None? {
        view := view.(awaySince := Some(clock));
      }
    }

    method NoteVerified(issued: nat)
      requires Valid()
      modifies this, host
      ensures Valid()
      ensures View() == S.NoteVerified(old(View()), issued)
    {
      view := view.(stateIssued := Some(issued));
      if host != null {
        host.VerifiedState(issued);
      }
    }

    /** What an applied state owes: the window, the accounting, then the frames it makes due. */
    method AfterState(clock: nat, issued: nat)
      requires Valid()
      modifies this, host
      ensures Valid()
      ensures View() == S.AfterState(old(View()), clock, issued)
    {
      hide S.RefreshHostAway, S.NoteVerified, S.PruneReciprocal, NoteEligibility,
           S.ResolveSpeculation, S.HandshakeOnce, S.FlushHeldBack, AnnounceKey, S.AnnounceHolds;
      NoteVerified(issued);
      RefreshHostAway(clock, true);
      PruneReciprocal();
      NoteLocalEligibility();
      if StateCommitsOurs() {
        ResolveSpeculation();
        HandshakeOnce(clock);
        FlushHeldBack();
      } else {
        Announce(clock);
      }
      AnnounceHolds(clock);
    }

    method PublishState(clock: nat, reason: HostReason, listing: seq<Path>, seals: bool)
      requires Valid()
      modifies this, reader, host
      ensures Valid()
      ensures View() == S.PublishState(old(View()), clock, reason, listing, seals)
    {
      hide Producer.Publish, S.AfterState, S.CountFrame, Applied;
      if who.budget <= wire.roomFrames || host == null {
        return;
      }
      ghost var before := View();
      var owed := host.Publish(clock, reason, listing, seals);
      wire := wire.(fault := wire.fault || host.faulted);
      ghost var answered := View();
      assert answered == before.(host := Some(host.View()), wire := before.wire.(fault := wire.fault));
      if owed.None? {
        return;
      }
      if owed.value.isNew {
        CountFrame();
      }
      wire := wire.(outbound := wire.outbound + [owed.value.frame]);
      if !owed.value.isNew || owed.value.state.None? {
        return;
      }
      reader.ApplyState(owed.value.state.value);
      AfterState(clock, owed.value.issued);
    }

    // --- a frame in ----------------------------------------------------------------------

    /** Content read into the replica publication is built from, then into the ordinary one. */
    method ApplyContent(messages: seq<Message>, verified: PublicKey)
      requires Valid()
      modifies this, host
      ensures Valid()
      ensures View() == S.ApplyContent(old(View()), messages, verified)
    {
      hide S.ArmReciprocal, S.SendReplies;
      if view.stateIssued.None? {
        return;
      }
      var answers := Publishes() && Writes();
      var publication := if replica.baseline.Some? then replica.baseline.value else replica.doc;
      var read := ReadMessages(publication, answers, messages);
      if replica.baseline.Some? {
        var local := ReadMessages(replica.doc, false, messages);
        replica := replica.(baseline := Some(read.doc), doc := local.doc);
      } else {
        replica := replica.(doc := read.doc);
      }
      if read.requested {
        ArmReciprocal(verified);
      }
      if answers {
        SendReplies(read.replies);
      }
    }

    method SendReplies(replies: seq<Message>)
      requires Valid()
      modifies this, host
      ensures Valid()
      ensures View() == S.SendReplies(old(View()), replies)
    {
      hide PublishFrame;
      var i := 0;
      while i < |replies|
        invariant 0 <= i <= |replies|
        invariant Valid()
        invariant S.SendReplies(old(View()), replies) == S.SendReplies(View(), replies[i..])
      {
        ghost var rest := replies[i..];
        var _ := Publish(Syncing, StreamBody([replies[i]]));
        i := i + 1;
        assert rest[0] == replies[i - 1] && rest[1..] == replies[i..];
      }
    }

    method HearAnnouncement(clock: nat, key: PublicKey, declared: Option<Frames.Role>, listing: seq<Path>, seals: bool)
      requires Valid()
      modifies this, reader, host
      ensures Valid()
      ensures View() == S.HearAnnouncement(old(View()), clock, AnnounceBody(key, declared), listing, seals)
    {
      hide S.PublishState, Producer.Announce;
      if host == null {
        return;
      }
      host.Announcement(key, declared);
      PublishState(clock, Announced, listing, seals);
    }

    method Fold(clock: nat, verdict: Verdict, listing: seq<Path>, seals: bool)
      requires Valid() && verdict.Accepted?
      modifies this, reader, host
      ensures Valid()
      ensures View() == S.Fold(old(View()), clock, verdict, listing, seals)
    {
      hide S.AfterState, S.HearAnnouncement;
      match verdict.body
      case StateBody(state) => AfterState(clock, state.issued);
      case ClosingBody(_, _) => ending := Some(ClosedRoom);
      case AnnounceBody(key, declared) => HearAnnouncement(clock, key, declared, listing, seals);
      case _ =>
    }

    /** What the relay hands over: counted first, then judged, then noted or folded. */
    method Deliver(clock: nat, frame: Frame, listing: seq<Path>, seals: bool)
      requires Valid()
      modifies this, reader, host
      ensures Valid()
      ensures View() == S.Deliver(old(View()), clock, frame, listing, seals)
    {
      hide Judge, Sealed.Read, S.ApplyContent, S.Fold;
      CountFrame();
      ghost var counted := View();
      var issued, ended := reader.issued, reader.ended;
      var verdict := reader.Read(frame);
      assert counted.reader == old(View()).reader;
      if verdict.Refused? {
        assert reader.View() == counted.reader by {
          RefusalChangesNothing(counted.reader, frame);
        }
        if verdict.claimed == Some(0) && debts.resyncFrom.None? {
          debts := debts.(resyncFrom := Some(clock));
        }
        return;
      }
      if verdict.kind == 1 {
        view := view.(heldState := Some(frame));
      }
      if verdict.kind == 2 && view.stateIssued.None? {
        reader.issued := issued;
        reader.ended := ended;
        return;
      }
      if verdict.kind == 0 {
        ApplyContent(Stream(verdict.body), verdict.key);
      } else {
        Fold(clock, verdict, listing, seals);
      }
    }

    // --- the clock and the roster --------------------------------------------------------

    method BudgetSpent(seals: bool) returns (spent: bool)
      requires Valid()
      modifies this, host
      ensures Valid()
      ensures spent <==> who.budget <= old(wire).roomFrames
      ensures View() == if spent then SpendBudget(old(View()), seals) else old(View())
    {
      hide Producer.Close, Producer.SaveFrames;
      if wire.roomFrames < who.budget {
        return false;
      }
      if host != null {
        var closing := host.Closing(seals);
        if closing.Some? {
          CountFrame();
          wire := wire.(outbound := wire.outbound + [closing.value.frame]);
        }
        host.SaveFrames();
      }
      ending := Some(Ending.BudgetSpent);
      spent := true;
    }

    method WindowPassed(clock: nat) returns (passed: bool)
      modifies this`ending
      ensures passed <==> S.WindowPassed(old(View()), clock).Some?
      ensures View() == if passed then old(View()).(ending := S.WindowPassed(old(View()), clock)) else old(View())
    {
      if view.awaySince.Some? && who.expire <= Since(clock, view.awaySince.value) {
        ending := Some(HostAway);
        return true;
      }
      if view.stateIssued.None? && who.expire <= clock {
        ending := Some(NoState);
        return true;
      }
      passed := false;
    }

    /** A tick: what every session still does, then a live one's obligations in their order. */
    method Tick(clock: nat, listing: seq<Path>, seals: bool)
      requires Valid()
      modifies this, reader, host
      ensures Valid()
      ensures View() == S.Tick(old(View()), clock, listing, seals)
    {
      hide SpendBudget, S.WindowPassed, S.PublishState, S.Reannounce, S.Resync,
           S.AnnounceHolds, S.RefreshHostAway, Producer.FlushFrames;
      if host != null {
        host.FlushFrames(clock);
      }
      RefreshHostAway(clock, false);
      if ending.Some? {
        assert View() == Housekept(old(View()), clock);
        return;
      }
      ghost var kept := View();
      assert kept == Housekept(old(View()), clock);
      var spent := BudgetSpent(seals);
      if spent {
        return;
      }
      var passed := WindowPassed(clock);
      if passed {
        return;
      }
      PublishState(clock, Announced, listing, seals);
      Reannounce(clock);
      Resync(clock);
      AnnounceHolds(clock);
    }

    method Republish(frame: Frame)
      modifies this`wire
      ensures View() == if ending.Some? then old(View()) else Queue(old(View()), frame)
    {
      if ending.Some? {
        return;
      }
      wire := wire.(outbound := wire.outbound + [frame]);
    }

    method SeatJoined(clock: nat, seat: Seat, listing: seq<Path>, seals: bool)
      requires Valid()
      modifies this, reader, host
      ensures Valid()
      ensures View() == SeatJoins(old(View()), clock, seat, listing, seals)
    {
      hide S.PublishState, S.AnnounceHolds, HostSeat, Producer.SeatJoined;
      if host != null {
        host.SeatJoined(seat);
      }
      view := view.(roster := view.roster + {seat});
      holds := holds.(at := None);
      if host != null {
        PublishState(clock, RosterChange, listing, seals);
        AnnounceHolds(clock);
        return;
      }
      var named := NamedHostSeat();
      if (named.None? || named.value !in view.roster) && view.heldState.Some? {
        Republish(view.heldState.value);
      }
      AnnounceHolds(clock);
    }

    method SeatLeft(clock: nat, seat: Seat, listing: seq<Path>, seals: bool)
      requires Valid()
      modifies this, reader, host
      ensures Valid()
      ensures View() == SeatLeaves(old(View()), clock, seat, listing, seals)
    {
      hide S.RefreshHostAway, Producer.SeatLeft;
      if host != null {
        host.SeatLeft(seat);
      }
      view := view.(roster := view.roster - {seat});
      RefreshHostAway(clock, false);
      if host != null {
        hide S.PublishState;
        PublishState(clock, RosterChange, listing, seals);
      } else {
        hide Producer.Publish, S.AfterState;
      }
    }

    method ListingChanged(clock: nat, listing: seq<Path>, seals: bool)
      requires Valid()
      modifies this, reader, host
      ensures Valid()
      ensures View() == S.PublishState(old(View()), clock, ListingChange, listing, seals)
    {
      hide S.PublishState;
      PublishState(clock, ListingChange, listing, seals);
    }

    method HoldOnly(clock: nat, paths: set<Path>)
      requires Valid()
      modifies this, host
      ensures Valid()
      ensures View() == HoldPaths(old(View()), clock, paths)
    {
      hide S.AnnounceHolds;
      holds := holds.(held := paths);
      AnnounceHolds(clock);
    }

    method CloseRoom(seals: bool) returns (closed: bool)
      requires Valid()
      modifies this, host
      ensures Valid()
      ensures View() == S.CloseRoom(old(View()), seals)
      ensures closed <==> host != null && Close(old(HostView()).value, seals).1.Some?
    {
      hide Producer.Close, Producer.SaveFrames, S.CountFrame;
      if host == null {
        return false;
      }
      var closing := host.Closing(seals);
      if closing.None? {
        wire := wire.(fault := true);
        return false;
      }
      CountFrame();
      host.SaveFrames();
      wire := wire.(outbound := wire.outbound + [closing.value.frame]);
      ending := Some(ClosedRoom);
      closed := true;
    }

    /** Everything queued, in order, and the queue left empty. */
    method TakeOutbound() returns (frames: seq<Frame>)
      modifies this`wire
      ensures frames == old(wire).outbound
      ensures View() == Step(old(View()), Taken)
    {
      frames := wire.outbound;
      wire := wire.(outbound := []);
    }
  }

  // --- what the loops compute ------------------------------------------------------------

  /** The clock the client's next atom takes, found by one pass over the document. */
  method ClockOf(doc: Doc, client: ClientId) returns (clock: nat)
    ensures clock == NextClock(doc, client)
  {
    clock := 0;
    var rest := doc;
    while rest != {}
      invariant rest <= doc
      invariant IsNextClock(doc - rest, client, clock)
      decreases rest
    {
      ghost var done := doc - rest;
      var a :| a in rest;
      rest := rest - {a};
      assert doc - rest == done + {a};
      if a.client == client && clock <= a.clock {
        clock := a.clock + 1;
      }
    }
    assert doc - rest == doc;
    NextClockUnique(doc, client, clock);
  }

  method VectorOf(doc: Doc) returns (vector: Vector)
    ensures vector == StateVector(doc)
  {
    var clients := set a <- doc :: a.client;
    var rest := clients;
    vector := map[];
    while rest != {}
      invariant rest <= clients
      invariant vector.Keys == clients - rest
      invariant forall c <- vector :: vector[c] == NextClock(doc, c)
      decreases rest
    {
      var c :| c in rest;
      rest := rest - {c};
      var clock := ClockOf(doc, c);
      vector := vector[c := clock];
    }
    assert vector.Keys == clients;
  }

  /** A stream read message by message: one that cannot be read or applied ends the reading. */
  method ReadMessages(doc: Doc, answers: bool, messages: seq<Message>) returns (read: ReadState)
    ensures read == ApplyStream(doc, answers, messages)
  {
    read := ReadState(doc, [], false);
    var i := 0;
    while i < |messages|
      invariant 0 <= i <= |messages|
      invariant ApplyStream(doc, answers, messages) == ReadStream(read, answers, messages[i..])
    {
      ghost var rest := messages[i..];
      var (next, goesOn) := ReadMessage(read, answers, messages[i]);
      i := i + 1;
      assert rest[0] == messages[i - 1] && rest[1..] == messages[i..];
      read := next;
      if !goesOn {
        return;
      }
    }
  }

  lemma SendAllStep(s: Session, held: seq<Unsent>, t: Session, sent: bool)
    requires held != [] && (t, sent) == S.SendUpdate(s, held[0].delta)
    ensures var (u, kept) := SendAll(t, held[1..]);
            SendAll(s, held) == (u, if sent then kept else [held[0]] + kept)
  {
    hide S.SendUpdate;
  }

  lemma SpelledFirstUnique(committed: map<PublicKey, PeerEntry>, key: PublicKey)
    requires SpelledFirst(HostKeys(committed), key)
    ensures HostSeat(committed) == Some(committed[key].seat)
  {
  }

  lemma RefusalChangesNothing(r: ReaderState, frame: Frame)
    requires Judge(r, frame).Refused?
    ensures Sealed.Read(r, frame) == r
  {
    hide Judge;
  }
}
