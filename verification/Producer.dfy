/**
 The host's producer: which state a host owes its room, when, and under which edition
 (crates/client/src/host.rs). The clock, the listing the working tree shows and whether a seal
 succeeds are inputs; the store is the record it last wrote.
 */
module Producer {
  import opened Options
  import opened Frames

  const FRAME_BUDGET: nat := 0x8000_0000
  const ABSENCE_CHARGE: nat := 0x20_0000
  const U64_MAX: nat := 0xffff_ffff_ffff_ffff

  datatype Standing = Live | Gone | Closed

  datatype HostReason = Mint | RosterChange | ListingChange | Announced

  datatype SeatEntry = SeatEntry(seat: Seat, role: Role, order: nat)

  datatype Persisted = Persisted(seed: nat, issued: nat, frames: Option<nat>)

  /** One state, or a closing, handed to the session: whether it is a new edition or a re-send. */
  datatype Publication = Publication(frame: Frame, issued: nat, isNew: bool, state: Option<RoomState>)

  datatype Held = Held(state: RoomState, frame: Frame)

  /** What a host is built from: its key, its clock, and its own connection. */
  datatype HostConfig = HostConfig(
    hostKey: PublicKey, seed: nat, renew: nat, hasStore: bool, ownSeat: Seat, ownKey: PublicKey)

  /** The seats the roster has, the keys committed under them, and the order they came in. */
  datatype Seating = Seating(roster: seq<Seat>, seats: map<PublicKey, SeatEntry>, order: nat)

  /** The edition series: published, verified, the host key's counter, and the last state. */
  datatype Series = Series(issued: nat, verified: nat, counter: nat, last: Option<Held>)

  /** The room's frame count, and what the store last holds of it. */
  datatype Saving = Saving(store: Option<Persisted>, frames: nat, savedFrames: nat, savedAt: Option<nat>)

  datatype Host = Host(
    config: HostConfig, seating: Seating, series: Series, saving: Saving,
    windowFrom: Option<nat>, owed: bool, standing: Standing, faulted: bool)

  /** Elapsed time, saturating at zero when a clock runs backwards. */
  function Since(clock: nat, from: nat): nat {
    if from <= clock then clock - from else 0
  }

  /** The count a reload continues from: the saved one and the absence charge, or a spent budget. */
  function ResumedFrames(saved: Option<nat>): nat {
    if saved.None? then FRAME_BUDGET
    else if U64_MAX < saved.value + ABSENCE_CHARGE then U64_MAX
    else saved.value + ABSENCE_CHARGE
  }

  predicate OwnRecord(config: HostConfig, store: Option<Persisted>) {
    config.hasStore && store.Some? && store.value.seed == config.seed
  }

  function NewHost(config: HostConfig, store: Option<Persisted>): Host {
    var own := OwnRecord(config, store);
    Host(config,
         Seating(if config.ownSeat == "" then [] else [config.ownSeat], map[], 0),
         Series(if own then store.value.issued else 0, 0, 0, None),
         Saving(store,
                if own then ResumedFrames(store.value.frames) else 0,
                if !own then 0 else if store.value.frames.Some? then store.value.frames.value else U64_MAX,
                None),
         None, false, Live, false)
  }

  // --- the roster and the commitments ----------------------------------------------------

  function AddSeat(roster: seq<Seat>, seat: Seat): seq<Seat> {
    if seat in roster then roster else roster + [seat]
  }

  function DropSeat(roster: seq<Seat>, seat: Seat): seq<Seat> {
    if roster == [] then []
    else if roster[0] == seat then DropSeat(roster[1..], seat)
    else [roster[0]] + DropSeat(roster[1..], seat)
  }

  function DropLabel(seats: map<PublicKey, SeatEntry>, seat: Seat): map<PublicKey, SeatEntry> {
    map k <- seats | seats[k].seat != seat :: seats[k]
  }

  function SeatJoined(h: Host, seat: Seat): Host {
    h.(standing := if seat == h.config.ownSeat then Live else h.standing,
       seating := h.seating.(roster := AddSeat(h.seating.roster, seat)))
  }

  function SeatLeft(h: Host, seat: Seat): Host {
    h.(standing := if seat == h.config.ownSeat then Gone else h.standing,
       seating := h.seating.(roster := DropSeat(h.seating.roster, seat), seats := DropLabel(h.seating.seats, seat)))
  }

  /** The seats a label may not take: the ones already carrying a key, and the host's own. */
  function Taken(s: Seating, own: Seat): set<Seat> {
    (set k <- s.seats | s.seats[k].seat in s.roster :: s.seats[k].seat) + {own}
  }

  /** The first seat of the roster that is free, in the order the relay showed them. */
  function FirstFree(roster: seq<Seat>, taken: set<Seat>): Option<Seat> {
    if roster == [] then None
    else if roster[0] !in taken then Some(roster[0])
    else FirstFree(roster[1..], taken)
  }

  /** The keys a full room may give up: labelled with a seat of the roster other than the host's. */
  function Replaceable(s: Seating, own: Seat): set<PublicKey> {
    set k <- s.seats | s.seats[k].seat != own && s.seats[k].seat in s.roster
  }

  predicate LongestHeld(seats: map<PublicKey, SeatEntry>, among: set<PublicKey>, key: PublicKey)
    requires among <= seats.Keys
  {
    key in among && forall other <- among :: seats[key].order <= seats[other].order
  }

  lemma LongestHeldExists(seats: map<PublicKey, SeatEntry>, among: set<PublicKey>) returns (key: PublicKey)
    requires among <= seats.Keys && among != {}
    ensures LongestHeld(seats, among, key)
  {
    key :| key in among;
    var rest := among - {key};
    while rest != {}
      invariant key in among && rest <= among
      invariant forall other <- among - rest :: seats[key].order <= seats[other].order
      decreases rest
    {
      var next :| next in rest;
      ghost var done := among - rest;
      if seats[next].order < seats[key].order {
        key := next;
      }
      rest := rest - {next};
      assert among - rest == done + {next};
    }
  }

  ghost function Oldest(seats: map<PublicKey, SeatEntry>, among: set<PublicKey>): (key: PublicKey)
    requires among <= seats.Keys && among != {}
    ensures LongestHeld(seats, among, key)
  {
    assert exists k: PublicKey :: LongestHeld(seats, among, k) by {
      var k := LongestHeldExists(seats, among);
    }
    var key: PublicKey :| LongestHeld(seats, among, key);
    key
  }

  /** The seat a newly committed key is labelled with. */
  ghost function Label(s: Seating, own: Seat): Seat {
    var free := FirstFree(s.roster, Taken(s, own));
    if free.Some? then free.value
    else if Replaceable(s, own) == {} then own
    else s.seats[Oldest(s.seats, Replaceable(s, own))].seat
  }

  ghost function Commit(s: Seating, own: Seat, key: PublicKey, declared: Option<Role>): Seating {
    var seat := Label(s, own);
    var seats := if seat == own then s.seats else DropLabel(s.seats, seat);
    var role := if declared.Some? then declared.value else GuestRole;
    s.(seats := seats[key := SeatEntry(seat, role, s.order)], order := s.order + 1)
  }

  ghost function Announce(h: Host, key: PublicKey, declared: Option<Role>): Host {
    h.(owed := true,
       seating := if key in h.seating.seats then h.seating else Commit(h.seating, h.config.ownSeat, key, declared))
  }

  function VerifiedState(h: Host, issued: nat): Host {
    if h.series.verified < issued then h.(series := h.series.(verified := issued)) else h
  }

  // --- publishing ------------------------------------------------------------------------

  function PeerEntries(s: Seating, config: HostConfig): map<PublicKey, PeerEntry> {
    (map k <- s.seats | s.seats[k].seat in s.roster :: PeerEntry(s.seats[k].seat, s.seats[k].role))
      [config.ownKey := PeerEntry(config.ownSeat, HostRole)]
  }

  predicate WindowOpen(h: Host, clock: nat) {
    h.windowFrom.None? || h.config.renew <= Since(clock, h.windowFrom.value)
  }

  function NextIssued(series: Series): nat {
    (if series.issued < series.verified then series.verified else series.issued) + 1
  }

  function Save(config: HostConfig, saving: Saving, issued: nat, clock: Option<nat>): Saving {
    if !config.hasStore then saving
    else saving.(store := Some(Persisted(config.seed, issued, Some(saving.frames))),
                 savedFrames := saving.frames, savedAt := clock)
  }

  function HostFrame(config: HostConfig, kind: nat, counter: nat, body: Body): Frame {
    Frame.Frame(config.hostKey.id, kind, 0, counter, Some(config.hostKey), true, body)
  }

  /** Whether the state last published still says what a new one would, and no verified one is above it. */
  predicate Resends(h: Host, listing: seq<Path>) {
    var last := h.series.last;
    last.Some? && h.series.verified <= last.value.state.issued
    && last.value.state.listing == listing && last.value.state.peers == PeerEntries(h.seating, h.config)
  }

  function FreshState(h: Host, listing: seq<Path>): RoomState {
    RoomState(NextIssued(h.series), listing, PeerEntries(h.seating, h.config))
  }

  /** Whether this host answers at all: an announcement's answer waits for its debt and its window. */
  predicate Due(h: Host, clock: nat, reason: HostReason) {
    h.standing == Live && (reason == Announced ==> h.owed && WindowOpen(h, clock))
  }

  /** The state this host owes at `clock`, and the producer that has published it. */
  function Publish(h: Host, clock: nat, reason: HostReason, listing: seq<Path>, seals: bool): (Host, Option<Publication>) {
    if !Due(h, clock, reason) then (h, None)
    else
      var window := if reason == Announced then Some(clock) else h.windowFrom;
      if Resends(h, listing) then
        var held := h.series.last.value;
        (h.(owed := false, windowFrom := window),
         Some(Publication(held.frame, held.state.issued, false, Some(held.state))))
      else if !seals then (h.(owed := false, faulted := true), None)
      else
        var state := FreshState(h, listing);
        var counter := h.series.counter + 1;
        var frame := HostFrame(h.config, 1, counter, StateBody(state));
        (h.(owed := false, windowFrom := window,
            series := h.series.(issued := state.issued, counter := counter, last := Some(Held(state, frame))),
            saving := Save(h.config, h.saving, state.issued, Some(clock))),
         Some(Publication(frame, state.issued, true, Some(state))))
  }

  /** The host's statement that the room is over: the last frame it ever signs. */
  function Close(h: Host, seals: bool): (Host, Option<Publication>) {
    if h.standing != Live then (h, None)
    else if !seals then (h.(faulted := true), None)
    else
      var issued := NextIssued(h.series);
      var counter := h.series.counter + 1;
      var frame := HostFrame(h.config, 2, counter, ClosingBody(true, issued));
      (h.(standing := Closed, series := h.series.(issued := issued, counter := counter),
          saving := Save(h.config, h.saving, issued, h.saving.savedAt)),
       Some(Publication(frame, issued, true, None)))
  }

  // --- the frame count -------------------------------------------------------------------

  function CountFrames(h: Host, frames: nat): Host {
    h.(saving := h.saving.(frames := frames))
  }

  function SaveFrames(h: Host): Host {
    if h.saving.frames == h.saving.savedFrames then h
    else h.(saving := Save(h.config, h.saving, h.series.issued, h.saving.savedAt))
  }

  function FlushFrames(h: Host, clock: nat): Host {
    if h.saving.frames == h.saving.savedFrames then h
    else if h.saving.savedAt.Some? && Since(clock, h.saving.savedAt.value) < h.config.renew then h
    else h.(saving := Save(h.config, h.saving, h.series.issued, Some(clock)))
  }
}
