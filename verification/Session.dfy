/**
 One connection's session, as a value: every step of crates/client/src/peer, with the clock, the
 host's listing and the outcome of each seal as inputs. A seal of the session key fails exactly
 at the attempts `unsealable` names; counters stay below the width at which they would saturate.
 */
module Session {
  import opened Options
  import opened Replica
  import opened Frames
  import opened Sealed
  import opened Producer

  datatype Ending = ClosedRoom | HostAway | NoState | BudgetSpent

  datatype Kind = Announcing | Holding | Content | Syncing

  datatype Unsent = Unsent(delta: Delta, speculative: bool)

  /** What a session is opened with. */
  datatype Identity = Identity(
    me: PublicKey, client: ClientId, declared: Option<Role>, renew: nat, expire: nat,
    budget: nat, unsealable: set<nat>)

  /** The replica, the clean baseline beside it while an edit is speculative, and the edits held back. */
  datatype ReplicaState = ReplicaState(doc: Doc, baseline: Option<Doc>, unsent: seq<Unsent>, epoch: nat)

  /** The requests owed and when the last one went out. */
  datatype Debts = Debts(
    served: set<PublicKey>, pending: set<PublicKey>, readiness: bool, roleSeen: Option<Role>,
    resyncFrom: Option<nat>, handshakenAt: Option<nat>)

  /** What leaves: the session key's counter, the room's count, and the frames queued. */
  datatype Wire = Wire(counter: nat, roomFrames: nat, outbound: seq<Frame>, fault: bool)

  datatype HoldsSent = HoldsSent(held: set<Path>, sent: set<Path>, at: Option<nat>)

  /** What is known of the room: the roster, the host's absence, the state held and its bytes. */
  datatype RoomView = RoomView(
    roster: set<Seat>, awaySince: Option<nat>, stateIssued: Option<nat>, heldState: Option<Frame>,
    announcedAt: Option<nat>)

  datatype Session = Session(
    who: Identity, host: Option<Host>, reader: ReaderState, replica: ReplicaState, debts: Debts,
    wire: Wire, holds: HoldsSent, view: RoomView, ending: Option<Ending>)

  // --- roles -----------------------------------------------------------------------------

  predicate CommitsOurs(s: Session) {
    s.who.me in s.reader.committed
  }

  function OwnRole(s: Session): Option<Role> {
    RoleOf(s.reader.committed, s.who.me)
  }

  predicate IsWriter(s: Session) {
    IsWriterRole(OwnRole(s))
  }

  predicate MayPublish(s: Session) {
    s.ending.None? && s.view.stateIssued.Some? && CommitsOurs(s)
  }

  function Writers(committed: map<PublicKey, PeerEntry>): set<PublicKey> {
    set k <- committed | committed[k].role != ViewerRole
  }

  /** The first accepted request of a continuously committed writer key owes one request back. */
  function ArmReciprocal(s: Session, key: PublicKey): Session {
    if key in Writers(s.reader.committed) && key !in s.debts.served then
      s.(debts := s.debts.(served := s.debts.served + {key}, pending := s.debts.pending + {key}))
    else s
  }

  function PruneReciprocal(s: Session): Session {
    var writers := Writers(s.reader.committed);
    s.(debts := s.debts.(served := s.debts.served * writers, pending := s.debts.pending * writers))
  }

  function NoteEligibility(s: Session): Session {
    var role := OwnRole(s);
    var owed :=
      if !IsWriterRole(role) then false
      else s.debts.readiness || (s.debts.handshakenAt.Some? && !IsWriterRole(s.debts.roleSeen));
    s.(debts := s.debts.(readiness := owed, roleSeen := role))
  }

  // --- publishing ------------------------------------------------------------------------

  function CountFrame(s: Session): Session {
    var frames := s.wire.roomFrames + 1;
    s.(wire := s.wire.(roomFrames := frames),
       host := if s.host.Some? then Some(CountFrames(s.host.value, frames)) else None)
  }

  function KindOf(what: Kind): nat {
    match what
    case Announcing => 4
    case Holding => 3
    case Content => 0
    case Syncing => 0
  }

  /** Document content, as the sender recognises it: its frames hold one message each. */
  predicate IsContent(body: Body) {
    body.StreamBody? && body.messages != [] && CarriesContent(body.messages[0])
  }

  predicate MayQueue(s: Session, what: Kind, body: Body) {
    s.ending.None? && (what == Announcing || (MayPublish(s) && (IsContent(body) ==> IsWriter(s))))
  }

  function OwnFrame(s: Session, what: Kind, counter: nat, body: Body): Frame {
    Frame.Frame(s.who.me.id, KindOf(what), 0, counter, Some(s.who.me), true, body)
  }

  function Queue(s: Session, frame: Frame): Session {
    s.(wire := s.wire.(outbound := s.wire.outbound + [frame]))
  }

  /** One frame sealed and queued, and whether it was: nothing moves for one that may not be. */
  function PublishFrame(s: Session, what: Kind, body: Body): (Session, bool) {
    if !MayQueue(s, what, body) || s.who.budget <= s.wire.roomFrames then (s, false)
    else
      var counter := s.wire.counter + 1;
      var tried := s.(wire := s.wire.(counter := counter));
      if counter in s.who.unsealable then (tried.(wire := tried.wire.(fault := true)), false)
      else (Queue(CountFrame(tried), OwnFrame(s, what, counter, body)), true)
  }

  function AnnounceKey(s: Session, clock: nat): Session {
    var t := PublishFrame(s, Announcing, AnnounceBody(s.who.me, s.who.declared)).0;
    t.(view := t.view.(announcedAt := Some(clock)))
  }

  function Reannounce(s: Session, clock: nat): Session {
    if CommitsOurs(s) then s
    else if s.view.announcedAt.Some? && Since(clock, s.view.announcedAt.value) < s.who.renew then s
    else AnnounceKey(s, clock)
  }

  function PublicationDoc(s: Session): Doc {
    if s.replica.baseline.Some? then s.replica.baseline.value else s.replica.doc
  }

  /** A `SyncStep1` with the publication replica's vector; every debt is paid only if it is queued. */
  ghost function RequestSync(s: Session, clock: nat): Session {
    var (t, sent) := PublishFrame(s, Syncing, StreamBody([SyncStep1(StateVector(PublicationDoc(s)))]));
    if !sent then t
    else t.(debts := t.debts.(handshakenAt := Some(clock), resyncFrom := None, pending := {}, readiness := false))
  }

  ghost function HandshakeOnce(s: Session, clock: nat): Session {
    if s.debts.handshakenAt.None? then RequestSync(s, clock) else s
  }

  predicate OwesRequest(debts: Debts) {
    debts.resyncFrom.Some? || debts.pending != {} || debts.readiness
  }

  ghost function Resync(s: Session, clock: nat): Session {
    if !MayPublish(s) then s
    else if s.debts.handshakenAt.None? then RequestSync(s, clock)
    else if !OwesRequest(s.debts) then s
    else if s.who.renew <= Since(clock, s.debts.handshakenAt.value) then RequestSync(s, clock)
    else s
  }

  function AnnounceHolds(s: Session, clock: nat): Session {
    if !MayPublish(s) then s
    else if s.holds.held == {} && s.holds.sent == {} && s.holds.at.None? then s
    else if s.holds.held == s.holds.sent && s.holds.at.Some? && Since(clock, s.holds.at.value) < s.who.renew then s
    else
      var t := PublishFrame(s, Holding, HoldsBody(s.holds.held)).0;
      t.(holds := HoldsSent(t.holds.held, t.holds.held, Some(clock)))
  }

  // --- speculation -------------------------------------------------------------------------

  function BeginSpeculation(s: Session): Session {
    if s.replica.baseline.Some? then s else s.(replica := s.replica.(baseline := Some(s.replica.doc)))
  }

  function Accept(unsent: seq<Unsent>): seq<Unsent> {
    seq(|unsent|, i requires 0 <= i < |unsent| => unsent[i].(speculative := false))
  }

  function AcceptSpeculation(s: Session): Session {
    s.(replica := s.replica.(baseline := None, unsent := Accept(s.replica.unsent)))
  }

  function Settled(unsent: seq<Unsent>): seq<Unsent> {
    if unsent == [] then []
    else if unsent[0].speculative then Settled(unsent[1..])
    else [unsent[0]] + Settled(unsent[1..])
  }

  function DiscardSpeculative(s: Session): Session {
    var unsent := Settled(s.replica.unsent);
    if s.replica.baseline.None? then s.(replica := s.replica.(unsent := unsent))
    else s.(replica := ReplicaState(s.replica.baseline.value, None, unsent, s.replica.epoch + 1))
  }

  function ResolveSpeculation(s: Session): Session {
    if OwnRole(s) == Some(ViewerRole) then DiscardSpeculative(s)
    else if IsWriter(s) then AcceptSpeculation(s)
    else s
  }

  function HoldBack(s: Session, delta: Delta, speculative: bool): Session {
    if OwnRole(s) != Some(ViewerRole) && s.ending.None? then
      s.(replica := s.replica.(unsent := s.replica.unsent + [Unsent(delta, speculative)]))
    else s
  }

  function SendUpdate(s: Session, delta: Delta): (Session, bool) {
    PublishFrame(s, Content, StreamBody([Update(delta)]))
  }

  /** Sends each edit in the order it was made, and keeps the ones that were not sealed. */
  function SendAll(s: Session, held: seq<Unsent>): (Session, seq<Unsent>)
    decreases |held|
  {
    if held == [] then (s, [])
    else
      var (t, sent) := SendUpdate(s, held[0].delta);
      var (u, kept) := SendAll(t, held[1..]);
      (u, if sent then kept else [held[0]] + kept)
  }

  function FlushHeldBack(s: Session): Session {
    if s.replica.unsent == [] then s
    else if s.ending.Some? then s.(replica := s.replica.(unsent := []))
    else if !IsWriter(s) then s
    else
      var t := AcceptSpeculation(s);
      if !MayPublish(t) then t
      else
        var (u, kept) := SendAll(t.(replica := t.replica.(unsent := [])), t.replica.unsent);
        u.(replica := u.replica.(unsent := kept))
  }

  ghost function NewAtom(s: Session, payload: string): Atom {
    Author(s.replica.doc, s.who.client, payload)
  }

  /** A local edit: refused to a viewer, held while the role is unknown, published by a writer. */
  ghost function Insert(s: Session, payload: string, fits: bool): Session {
    if OwnRole(s) == Some(ViewerRole) then s
    else
      var speculative := !IsWriter(s);
      var t := if speculative then BeginSpeculation(s) else s;
      if !fits then t
      else
        var before := StateVector(t.replica.doc);
        var u := t.(replica := t.replica.(doc := t.replica.doc + {NewAtom(t, payload)}));
        var delta := Atoms(Diff(u.replica.doc, before));
        if !MayPublish(u) || !IsWriter(u) then HoldBack(u, delta, speculative)
        else
          var (v, sent) := SendUpdate(AcceptSpeculation(u), delta);
          if sent then v else HoldBack(v, delta, false)
  }

  // --- the room's state ----------------------------------------------------------------------

  function HostKeys(committed: map<PublicKey, PeerEntry>): set<PublicKey> {
    set k <- committed | committed[k].role == HostRole
  }

  predicate SpelledFirst(keys: set<PublicKey>, key: PublicKey) {
    key in keys && forall k <- keys ::
      key.spelling < k.spelling || (key.spelling == k.spelling && key.id <= k.id)
  }

  lemma SpelledFirstExists(keys: set<PublicKey>) returns (key: PublicKey)
    requires keys != {}
    ensures SpelledFirst(keys, key)
  {
    key :| key in keys;
    var rest := keys - {key};
    while rest != {}
      invariant key in keys && rest <= keys
      invariant SpelledFirst(keys - rest, key)
      decreases rest
    {
      var next :| next in rest;
      ghost var done := keys - rest;
      if next.spelling < key.spelling || (next.spelling == key.spelling && next.id < key.id) {
        key := next;
      }
      rest := rest - {next};
      assert keys - rest == done + {next};
    }
    assert keys - rest == keys;
  }

  /** The seat the `host` entry labels: of two such keys, the one spelled first. */
  ghost function HostSeat(committed: map<PublicKey, PeerEntry>): Option<Seat> {
    var keys := HostKeys(committed);
    if keys == {} then None
    else
      assert exists k: PublicKey :: SpelledFirst(keys, k) by {
        var k := SpelledFirstExists(keys);
      }
      var key: PublicKey :| SpelledFirst(keys, key);
      Some(committed[key].seat)
  }

  /** The host-away clock: armed while the named host's seat is not in the roster. */
  ghost function RefreshHostAway(s: Session, clock: nat, restart: bool): Session {
    var seat := HostSeat(s.reader.committed);
    var since :=
      if seat.None? || seat.value in s.view.roster then None
      else if restart || s.view.awaySince.None? then Some(clock)
      else s.view.awaySince;
    s.(view := s.view.(awaySince := since))
  }

  function NoteVerified(s: Session, issued: nat): Session {
    s.(view := s.view.(stateIssued := Some(issued)),
       host := if s.host.Some? then Some(VerifiedState(s.host.value, issued)) else None)
  }

  /** What an applied state owes, in the order it is paid. */
  ghost function AfterState(s: Session, clock: nat, issued: nat): Session {
    var a := NoteEligibility(PruneReciprocal(RefreshHostAway(NoteVerified(s, issued), clock, true)));
    var b := if CommitsOurs(a) then FlushHeldBack(HandshakeOnce(ResolveSpeculation(a), clock)) else AnnounceKey(a, clock);
    AnnounceHolds(b, clock)
  }

  /** The state this session's host half owes, counted, queued and folded into its own receiver. */
  ghost function PublishState(s: Session, clock: nat, reason: HostReason, listing: seq<Path>, seals: bool): Session {
    if s.who.budget <= s.wire.roomFrames || s.host.None? then s
    else
      var (h, out) := Publish(s.host.value, clock, reason, listing, seals);
      var t := s.(host := Some(h), wire := s.wire.(fault := s.wire.fault || h.faulted));
      if out.None? then t
      else if !out.value.isNew then Queue(t, out.value.frame)
      else
        var u := Queue(CountFrame(t), out.value.frame);
        if out.value.state.None? then u
        else AfterState(u.(reader := Applied(u.reader, out.value.state.value)), clock, out.value.issued)
  }

  // --- a frame in ------------------------------------------------------------------------------

  datatype ReadState = ReadState(doc: Doc, replies: seq<Message>, requested: bool)

  /** One message of a stream, and whether the reading goes on. */
  function ReadMessage(r: ReadState, answers: bool, message: Message): (ReadState, bool) {
    match message
    case SyncStep1(vector) =>
      (r.(requested := true,
          replies := if answers && r.replies == [] then [SyncStep2(Atoms(Diff(r.doc, vector)))] else r.replies), true)
    case SyncStep2(delta) => if delta.Atoms? then (r.(doc := r.doc + delta.atoms), true) else (r, false)
    case Update(delta) => if delta.Atoms? then (r.(doc := r.doc + delta.atoms), true) else (r, false)
    case Awareness(readable) => (r, readable)
    case Auth => (r, true)
    case AwarenessQuery => (r, true)
    case Custom => (r, false)
  }

  function ReadStream(r: ReadState, answers: bool, messages: seq<Message>): ReadState
    decreases |messages|
  {
    if messages == [] then r
    else
      var (next, goesOn) := ReadMessage(r, answers, messages[0]);
      if goesOn then ReadStream(next, answers, messages[1..]) else next
  }

  function ApplyStream(doc: Doc, answers: bool, messages: seq<Message>): ReadState {
    ReadStream(ReadState(doc, [], false), answers, messages)
  }

  function SendReplies(s: Session, replies: seq<Message>): Session
    decreases |replies|
  {
    if replies == [] then s
    else SendReplies(PublishFrame(s, Syncing, StreamBody([replies[0]])).0, replies[1..])
  }

  /** Content read into the publication replica, and into the ordinary one too while they differ. */
  function ReadInto(s: Session, messages: seq<Message>, answers: bool): Session {
    var read := ApplyStream(PublicationDoc(s), answers, messages).doc;
    if s.replica.baseline.None? then s.(replica := s.replica.(doc := read))
    else s.(replica := s.replica.(baseline := Some(read), doc := ApplyStream(s.replica.doc, false, messages).doc))
  }

  function ApplyContent(s: Session, messages: seq<Message>, verified: PublicKey): Session {
    if s.view.stateIssued.None? then s
    else
      var answers := MayPublish(s) && IsWriter(s);
      var read := ApplyStream(PublicationDoc(s), answers, messages);
      var t := ReadInto(s, messages, answers);
      var u := if read.requested then ArmReciprocal(t, verified) else t;
      if answers then SendReplies(u, read.replies) else u
  }

  ghost function HearAnnouncement(s: Session, clock: nat, body: Body, listing: seq<Path>, seals: bool): Session
    requires body.AnnounceBody?
  {
    if s.host.None? then s
    else PublishState(s.(host := Some(Announce(s.host.value, body.key, body.declared))), clock, Announced, listing, seals)
  }

  ghost function Fold(s: Session, clock: nat, v: Verdict, listing: seq<Path>, seals: bool): Session
    requires v.Accepted?
  {
    match v.body
    case StateBody(state) => AfterState(s, clock, state.issued)
    case ClosingBody(_, _) => s.(ending := Some(ClosedRoom))
    case AnnounceBody(_, _) => HearAnnouncement(s, clock, v.body, listing, seals)
    case _ => s
  }

  /** A refused content frame opens the interval this session re-syncs in. */
  function NoteRefusal(s: Session, clock: nat, v: Verdict): Session
    requires v.Refused?
  {
    if v.claimed == Some(0) && s.debts.resyncFrom.None? then s.(debts := s.debts.(resyncFrom := Some(clock))) else s
  }

  ghost function Deliver(s: Session, clock: nat, frame: Frame, listing: seq<Path>, seals: bool): Session {
    var t := CountFrame(s);
    var v := Judge(t.reader, frame);
    if v.Refused? then NoteRefusal(t, clock, v)
    else
      var reader := Read(t.reader, frame);
      if v.kind == 2 && t.view.stateIssued.None? then
        t.(reader := reader.(issued := t.reader.issued, ended := t.reader.ended))
      else if v.kind == 0 then
        ApplyContent(t.(reader := reader), Stream(v.body), v.key)
      else
        var u := t.(reader := reader,
                    view := if v.kind == 1 then t.view.(heldState := Some(frame)) else t.view);
        Fold(u, clock, v, listing, seals)
  }

  // --- the clock and the roster --------------------------------------------------------------

  /** The budget reached: the host's one closing, its count written, and the session ended. */
  function SpendBudget(s: Session, seals: bool): Session
    requires s.who.budget <= s.wire.roomFrames
  {
    var t :=
      if s.host.None? then s
      else
        var (h, out) := Close(s.host.value, seals);
        var closed := s.(host := Some(h));
        if out.None? then closed else Queue(CountFrame(closed), out.value.frame);
    t.(host := if t.host.Some? then Some(SaveFrames(t.host.value)) else None, ending := Some(BudgetSpent))
  }

  /** Which window has passed, if one has: the host's absence first. */
  function WindowPassed(s: Session, clock: nat): Option<Ending> {
    if s.view.awaySince.Some? && s.who.expire <= Since(clock, s.view.awaySince.value) then Some(HostAway)
    else if s.view.stateIssued.None? && s.who.expire <= clock then Some(NoState)
    else None
  }

  /** What every tick does first, an ended session's too. */
  ghost function Housekept(s: Session, clock: nat): Session {
    RefreshHostAway(s.(host := if s.host.Some? then Some(FlushFrames(s.host.value, clock)) else None), clock, false)
  }

  /** The obligations a live session pays on its clock, in their order. */
  ghost function PayDue(s: Session, clock: nat, listing: seq<Path>, seals: bool): Session {
    AnnounceHolds(Resync(Reannounce(PublishState(s, clock, Announced, listing, seals), clock), clock), clock)
  }

  ghost function Tick(s: Session, clock: nat, listing: seq<Path>, seals: bool): Session {
    var t := Housekept(s, clock);
    if t.ending.Some? then t
    else if t.who.budget <= t.wire.roomFrames then SpendBudget(t, seals)
    else if WindowPassed(t, clock).Some? then t.(ending := WindowPassed(t, clock))
    else PayDue(t, clock, listing, seals)
  }

  /** The state this session holds, put back on the wire as the bytes it arrived as. */
  function Republish(s: Session): Session {
    if s.ending.Some? || s.view.heldState.None? then s else Queue(s, s.view.heldState.value)
  }

  ghost predicate HostIsAway(s: Session) {
    HostSeat(s.reader.committed).None? || HostSeat(s.reader.committed).value !in s.view.roster
  }

  ghost function SeatJoins(s: Session, clock: nat, seat: Seat, listing: seq<Path>, seals: bool): Session {
    var t := s.(host := if s.host.Some? then Some(SeatJoined(s.host.value, seat)) else None,
                view := s.view.(roster := s.view.roster + {seat}),
                holds := s.holds.(at := None));
    var u :=
      if t.host.Some? then PublishState(t, clock, RosterChange, listing, seals)
      else if HostIsAway(t) then Republish(t)
      else t;
    AnnounceHolds(u, clock)
  }

  ghost function SeatLeaves(s: Session, clock: nat, seat: Seat, listing: seq<Path>, seals: bool): Session {
    var t := s.(host := if s.host.Some? then Some(SeatLeft(s.host.value, seat)) else None,
                view := s.view.(roster := s.view.roster - {seat}));
    PublishState(RefreshHostAway(t, clock, false), clock, RosterChange, listing, seals)
  }

  /** `open`, `release` and `hold_only`: the held set replaced, and announced at once if it changed. */
  function HoldPaths(s: Session, clock: nat, held: set<Path>): Session {
    AnnounceHolds(s.(holds := s.holds.(held := held)), clock)
  }

  /** The host's closing, at its word: the session that publishes it ends with the room. */
  function CloseRoom(s: Session, seals: bool): Session {
    if s.host.None? then s
    else
      var (h, out) := Close(s.host.value, seals);
      var t := s.(host := Some(h));
      if out.None? then t.(wire := t.wire.(fault := true))
      else
        var u := CountFrame(t);
        Queue(u.(host := Some(SaveFrames(u.host.value)), ending := Some(ClosedRoom)), out.value.frame)
  }

  // --- the machine -----------------------------------------------------------------------------

  datatype Input =
    | Delivered(clock: nat, frame: Frame, listing: seq<Path>, seals: bool)
    | Ticked(clock: nat, listing: seq<Path>, seals: bool)
    | Inserted(payload: string, fits: bool)
    | SomeoneJoined(clock: nat, seat: Seat, listing: seq<Path>, seals: bool)
    | SomeoneLeft(clock: nat, seat: Seat, listing: seq<Path>, seals: bool)
    | ListingChanged(clock: nat, listing: seq<Path>, seals: bool)
    | Held(clock: nat, held: set<Path>)
    | RoomClosed(seals: bool)
    | Taken

  ghost function Step(s: Session, i: Input): Session {
    match i
    case Delivered(clock, frame, listing, seals) => Deliver(s, clock, frame, listing, seals)
    case Ticked(clock, listing, seals) => Tick(s, clock, listing, seals)
    case Inserted(payload, fits) => Insert(s, payload, fits)
    case SomeoneJoined(clock, seat, listing, seals) => SeatJoins(s, clock, seat, listing, seals)
    case SomeoneLeft(clock, seat, listing, seals) => SeatLeaves(s, clock, seat, listing, seals)
    case ListingChanged(clock, listing, seals) => PublishState(s, clock, ListingChange, listing, seals)
    case Held(clock, held) => HoldPaths(s, clock, held)
    case RoomClosed(seals) => CloseRoom(s, seals)
    case Taken => s.(wire := s.wire.(outbound := []))
  }

  ghost function Run(s: Session, inputs: seq<Input>): Session {
    if inputs == [] then s else Step(Run(s, inputs[..|inputs| - 1]), inputs[|inputs| - 1])
  }

  // --- a session's beginning ---------------------------------------------------------------------

  /** A session before any frame; a host's count continues the one its store resumes. */
  function Opened(who: Identity, hostKey: PublicKey, roster: set<Seat>, host: Option<Host>): Session {
    Session(who, host, ReaderState(hostKey, map[], map[], 0, 0, false),
            ReplicaState({}, None, [], 0), Debts({}, {}, false, None, None, None),
            Wire(0, if host.Some? then host.value.saving.frames else 0, [], false),
            HoldsSent({}, {}, None),
            RoomView(if host.Some? then roster + {host.value.config.ownSeat} else roster, None, None, None, None),
            None)
  }

  /** A joiner's session, or a host's: a host publishes its mint state before anything else. */
  ghost function NewSession(who: Identity, hostKey: PublicKey, roster: set<Seat>, host: Option<Host>,
                            listing: seq<Path>, seals: bool): Option<Session>
  {
    var s := PublishState(Opened(who, hostKey, roster, host), 0, Mint, listing, seals);
    if s.wire.fault then None else Some(s)
  }
}
