/**
 The server's rooms and their grace timers: a room outlives its last connection by the grace
 period and no longer, whatever joins and leaves while a timer runs (crates/selvaged/src/room.rs).
 Room ids are never minted twice.
 */
module Registry {
  import opened Options

  type RoomId = string
  type PeerId = string

  /** A room: who is seated and in what order, and the count that outdates a timer. */
  datatype Room = Room(token: string, peers: map<PeerId, nat>, generation: nat, arrivals: nat)

  type Rooms = map<RoomId, Room>

  datatype SeatError = Unknown | TokenMismatch | RoomFull

  datatype Departure = Departure(generation: nat, empty: bool)

  function Seat(room: Room, peer: PeerId): Room {
    room.(peers := room.peers[peer := room.arrivals], arrivals := room.arrivals + 1)
  }

  function Refusal(rooms: Rooms, id: RoomId, token: Option<string>, most: nat): Option<SeatError> {
    if id !in rooms then Some(Unknown)
    else if token != Some(rooms[id].token) then Some(TokenMismatch)
    else if most <= |rooms[id].peers| then Some(RoomFull)
    else None
  }

  function Admitted(rooms: Rooms, id: RoomId, token: Option<string>, peer: PeerId, most: nat): Rooms {
    if Refusal(rooms, id, token, most).Some? then rooms else rooms[id := Seat(rooms[id], peer)]
  }

  function Detached(rooms: Rooms, id: RoomId, peer: PeerId): (Rooms, Option<Departure>) {
    if id !in rooms || peer !in rooms[id].peers then (rooms, None)
    else
      var room := rooms[id].(peers := rooms[id].peers - {peer}, generation := rooms[id].generation + 1);
      (rooms[id := room], Some(Departure(room.generation, room.peers == map[])))
  }

  predicate Reapable(rooms: Rooms, id: RoomId, generation: nat) {
    id in rooms && rooms[id].generation == generation && rooms[id].peers == map[]
  }

  function Reaped(rooms: Rooms, id: RoomId, generation: nat): Rooms {
    if Reapable(rooms, id, generation) then rooms - {id} else rooms
  }

  // --- the registry as the object the server locks -----------------------------------------------

  class Registry {
    var rooms: Rooms

    constructor ()
      ensures rooms == map[]
    {
      rooms := map[];
    }

    /** Mints a room and seats its host; an id that is taken is minted again, never overwritten. */
    method Create(first: RoomId, others: seq<RoomId>, token: string, host: PeerId, most: nat) returns (id: Option<RoomId>)
      requires first in rooms && |rooms| < most ==> exists other <- others :: other !in rooms
      modifies this
      ensures id.None? <==> most <= |old(rooms)|
      ensures id.None? ==> rooms == old(rooms)
      ensures id.Some? ==>
                && id.value !in old(rooms) && (first !in old(rooms) ==> id.value == first)
                && rooms == old(rooms)[id.value := Room(token, map[host := 0], 0, 1)]
    {
      if most <= |rooms| {
        return None;
      }
      var minted, next := first, 0;
      while minted in rooms
        invariant 0 <= next <= |others| && unchanged(this)
        invariant minted == first || first in rooms
        invariant minted in rooms ==> forall i | 0 <= i < next :: others[i] in rooms
        decreases |others| - next
      {
        minted := others[next];
        next := next + 1;
      }
      rooms := rooms[minted := Room(token, map[host := 0], 0, 1)];
      id := Some(minted);
    }

    method Admit(id: RoomId, token: Option<string>, peer: PeerId, most: nat) returns (refused: Option<SeatError>)
      modifies this
      ensures refused == Refusal(old(rooms), id, token, most)
      ensures rooms == Admitted(old(rooms), id, token, peer, most)
    {
      if id !in rooms {
        return Some(Unknown);
      }
      var room := rooms[id];
      if token.None? || token.value != room.token {
        return Some(TokenMismatch);
      }
      if most <= |room.peers| {
        return Some(RoomFull);
      }
      rooms := rooms[id := Seat(room, peer)];
      refused := None;
    }

    /** Detaching twice announces once. */
    method Detach(id: RoomId, peer: PeerId) returns (departure: Option<Departure>)
      modifies this
      ensures (rooms, departure) == Detached(old(rooms), id, peer)
      ensures Detached(rooms, id, peer) == (rooms, None)
    {
      if id !in rooms {
        return None;
      }
      var room := rooms[id];
      if peer !in room.peers {
        return None;
      }
      room := room.(peers := room.peers - {peer}, generation := room.generation + 1);
      rooms := rooms[id := room];
      departure := Some(Departure(room.generation, room.peers == map[]));
    }

    method ReapIfEmpty(id: RoomId, generation: nat)
      modifies this
      ensures rooms == Reaped(old(rooms), id, generation)
    {
      if id !in rooms || rooms[id].generation != generation || rooms[id].peers != map[] {
        return;
      }
      rooms := rooms - {id};
    }
  }

  // --- timers -----------------------------------------------------------------------------------

  datatype Timer = Timer(id: RoomId, generation: nat, at: nat)

  /** The rooms, the timers not yet fired, every id ever minted, and since when each empty room is empty. */
  datatype World = World(rooms: Rooms, timers: set<Timer>, minted: set<RoomId>, emptySince: map<RoomId, nat>)

  datatype Event =
    | Mints(id: RoomId, token: string, host: PeerId)
    | Joins(id: RoomId, presented: Option<string>, peer: PeerId, most: nat)
    | Leaves(id: RoomId, peer: PeerId)
    | Abandons(id: RoomId)
    | Fires(timer: Timer)

  /** What can happen at `now`: a timer fires once its grace is over, and an id is minted once. */
  predicate Enabled(w: World, now: nat, grace: nat, e: Event) {
    match e
    case Mints(id, _, _) => id !in w.minted
    case Fires(timer) => timer in w.timers && timer.at + grace <= now
    case _ => true
  }

  /** Since when each room has been empty: noted as its last peer goes, forgotten as one comes. */
  function Empty(before: Rooms, after: Rooms, since: map<RoomId, nat>, now: nat): map<RoomId, nat> {
    map id <- after | after[id].peers == map[] ::
      if id in since && id in before && before[id].peers == map[] then since[id] else now
  }

  function Happens(w: World, now: nat, e: Event): World {
    var (rooms, timers) :=
      match e
      case Mints(id, token, host) => (w.rooms[id := Room(token, map[host := 0], 0, 1)], w.timers)
      case Joins(id, token, peer, most) => (Admitted(w.rooms, id, token, peer, most), w.timers)
      case Leaves(id, peer) =>
        var (left, departure) := Detached(w.rooms, id, peer);
        (left, if departure.Some? && departure.value.empty then w.timers + {Timer(id, departure.value.generation, now)} else w.timers)
      case Abandons(id) => (w.rooms - {id}, w.timers)
      case Fires(timer) => (Reaped(w.rooms, timer.id, timer.generation), w.timers - {timer});
    World(rooms, timers, if e.Mints? then w.minted + {e.id} else w.minted, Empty(w.rooms, rooms, w.emptySince, now))
  }

  /** Every empty room still has the timer it waits for. */
  ghost predicate Awaited(w: World) {
    forall id <- w.rooms | w.rooms[id].peers == map[] ::
      id in w.emptySince && Timer(id, w.rooms[id].generation, w.emptySince[id]) in w.timers
  }

  /**
   A timer that is not outdated was armed when its room last became empty; and every empty room
   has one.
   */
  ghost predicate Guarded(w: World) {
    && w.rooms.Keys <= w.minted
    && Awaited(w)
    && (forall t <- w.timers :: t.id in w.minted)
    && (forall t <- w.timers | t.id in w.rooms ::
          && t.generation <= w.rooms[t.id].generation
          && (t.generation == w.rooms[t.id].generation && w.rooms[t.id].peers == map[] ==>
                t.id in w.emptySince && t.at == w.emptySince[t.id]))
  }

  /**
   Reaping is never early: the room a timer takes had been empty, without a break, for the whole
   grace period. And it is never lost: the timer an empty room is waiting for takes it.
   */
  lemma OnlyAnExpiredGraceReaps(w: World, now: nat, grace: nat, e: Event)
    requires Guarded(w) && e.Fires? && Enabled(w, now, grace, e)
    ensures var next := Happens(w, now, e);
            && (forall id <- w.rooms | id !in next.rooms ::
                  id == e.timer.id && w.rooms[id].peers == map[] && id in w.emptySince && w.emptySince[id] + grace <= now)
            && (e.timer.id in w.rooms && w.rooms[e.timer.id].peers == map[]
                && e.timer == Timer(e.timer.id, w.rooms[e.timer.id].generation, w.emptySince[e.timer.id]) ==>
                  e.timer.id !in next.rooms)
  {
  }

  lemma LeavingKeepsTheTimers(w: World, now: nat, id: RoomId, peer: PeerId)
    requires Awaited(w) && id in w.rooms && peer in w.rooms[id].peers
    ensures Awaited(Happens(w, now, Leaves(id, peer)))
  {
    var next := Happens(w, now, Leaves(id, peer));
    forall r <- next.rooms | next.rooms[r].peers == map[]
      ensures r in next.emptySince && Timer(r, next.rooms[r].generation, next.emptySince[r]) in next.timers
    {
      if r == id {
        assert w.rooms[id].peers != map[];
      }
    }
  }

  lemma LeavingKeepsTheGuard(w: World, now: nat, id: RoomId, peer: PeerId)
    requires Guarded(w)
    ensures Guarded(Happens(w, now, Leaves(id, peer)))
  {
    if id in w.rooms && peer in w.rooms[id].peers {
      LeavingKeepsTheTimers(w, now, id, peer);
    }
  }

  lemma JoiningKeepsTheGuard(w: World, now: nat, id: RoomId, token: Option<string>, peer: PeerId, most: nat)
    requires Guarded(w)
    ensures Guarded(Happens(w, now, Joins(id, token, peer, most)))
  {
    var next := Happens(w, now, Joins(id, token, peer, most));
    if Refusal(w.rooms, id, token, most).None? {
      assert peer in next.rooms[id].peers;
      forall r <- next.rooms | next.rooms[r].peers == map[] ensures r != id && next.rooms[r] == w.rooms[r] {
      }
    }
  }

  lemma EventKeepsTheGuard(w: World, now: nat, grace: nat, e: Event)
    requires Guarded(w) && Enabled(w, now, grace, e)
    ensures Guarded(Happens(w, now, e))
  {
    match e
    case Mints(id, token, host) =>
      assert host in Happens(w, now, e).rooms[id].peers;
    case Joins(id, token, peer, most) => JoiningKeepsTheGuard(w, now, id, token, peer, most);
    case Leaves(id, peer) => LeavingKeepsTheGuard(w, now, id, peer);
    case Abandons(_) =>
    case Fires(_) =>
  }

  // --- whole runs -------------------------------------------------------------------------------

  datatype Moment = Moment(now: nat, event: Event)

  function At(w: World, log: seq<Moment>): World {
    if log == [] then w
    else Happens(At(w, log[..|log| - 1]), log[|log| - 1].now, log[|log| - 1].event)
  }

  predicate Possible(w: World, grace: nat, log: seq<Moment>) {
    log != [] ==>
      var rest, last := log[..|log| - 1], log[|log| - 1];
      Possible(w, grace, rest) && Enabled(At(w, rest), last.now, grace, last.event)
  }

  lemma {:induction false} EveryRunIsGuarded(w: World, grace: nat, log: seq<Moment>)
    requires Guarded(w) && Possible(w, grace, log)
    ensures Guarded(At(w, log))
    decreases |log|
  {
    hide Guarded, Happens, Enabled;
    if log != [] {
      var rest, last := log[..|log| - 1], log[|log| - 1];
      EveryRunIsGuarded(w, grace, rest);
      EventKeepsTheGuard(At(w, rest), last.now, grace, last.event);
    }
  }

  /**
   Over every run of a server that starts with no rooms: a firing timer takes only a room that
   has been empty for the whole grace period, and every empty room still has the timer that will.
   */
  lemma GraceIsKept(grace: nat, log: seq<Moment>, now: nat, timer: Timer)
    requires Possible(World(map[], {}, {}, map[]), grace, log)
    requires Enabled(At(World(map[], {}, {}, map[]), log), now, grace, Fires(timer))
    ensures var w := At(World(map[], {}, {}, map[]), log);
            && (forall id <- w.rooms | id !in Happens(w, now, Fires(timer)).rooms ::
                  id in w.emptySince && w.emptySince[id] + grace <= now)
            && (forall id <- w.rooms | w.rooms[id].peers == map[] ::
                  id in w.emptySince && Timer(id, w.rooms[id].generation, w.emptySince[id]) in w.timers)
  {
    var start := World(map[], {}, {}, map[]);
    EveryRunIsGuarded(start, grace, log);
    OnlyAnExpiredGraceReaps(At(start, log), now, grace, Fires(timer));
  }

  // --- who is seated ----------------------------------------------------------------------------

  /** The event seats `peer` in the room as it then stands: its host at the minting, or a peer that shows the token. */
  predicate Seats(before: Rooms, e: Event, id: RoomId, peer: PeerId, token: string) {
    match e
    case Mints(minted, secret, host) => minted == id && host == peer && secret == token
    case Joins(joined, presented, guest, most) =>
      joined == id && guest == peer && presented == Some(token) && id in before && |before[id].peers| < most
    case _ => false
  }

  /** A seat is taken by nothing else, whoever shows the token to a room with a place gets it, and a room keeps its token. */
  lemma OnlyTheTokenSeats(w: World, now: nat, grace: nat, e: Event, id: RoomId, peer: PeerId)
    requires Guarded(w) && Enabled(w, now, grace, e)
    ensures var next := Happens(w, now, e).rooms;
            && (id in next && id in w.rooms ==> next[id].token == w.rooms[id].token)
            && (id in next && peer in next[id].peers && !(id in w.rooms && peer in w.rooms[id].peers) ==>
                  Seats(w.rooms, e, id, peer, next[id].token))
            && (e.Joins? && id in w.rooms && Seats(w.rooms, e, id, peer, w.rooms[id].token) ==> id in next && peer in next[id].peers)
  {
  }

  /**
   Over every run of a server that starts with no rooms: whoever is seated in a room minted it, or
   showed its token while it had a place.
   */
  lemma {:induction false} EverySeatWasEarned(grace: nat, log: seq<Moment>, id: RoomId, peer: PeerId) returns (n: nat)
    requires Possible(World(map[], {}, {}, map[]), grace, log)
    requires var rooms := At(World(map[], {}, {}, map[]), log).rooms; id in rooms && peer in rooms[id].peers
    ensures n < |log|
    ensures var start := World(map[], {}, {}, map[]);
            Seats(At(start, log[..n]).rooms, log[n].event, id, peer, At(start, log).rooms[id].token)
    decreases |log|
  {
    hide Happens, Enabled, Guarded;
    var start := World(map[], {}, {}, map[]);
    var rest, last := log[..|log| - 1], log[|log| - 1];
    StartIsGuarded();
    EveryRunIsGuarded(start, grace, rest);
    var before := At(start, rest);
    OnlyTheTokenSeats(before, last.now, grace, last.event, id, peer);
    if id in before.rooms && peer in before.rooms[id].peers {
      n := EverySeatWasEarned(grace, rest, id, peer);
      assert rest[..n] == log[..n];
    } else {
      n := |log| - 1;
    }
  }

  lemma StartIsGuarded()
    ensures Guarded(World(map[], {}, {}, map[]))
  {
  }
}
