/**
 The producer as the object a host session keeps: seats, series and store change in place, and
 each method is proved to do what the producer's specification says.
 */
module Hosting {
  import opened Options
  import opened Frames
  import opened Producer

  /** No two commitments share a place in the order, so the one held longest is one key. */
  ghost predicate Ranked(seats: map<PublicKey, SeatEntry>, order: nat) {
    && (forall k <- seats :: seats[k].order < order)
    && (forall j <- seats, k <- seats | j != k :: seats[j].order != seats[k].order)
  }

  lemma CommittingKeepsRanked(seats: map<PublicKey, SeatEntry>, order: nat, seat: Seat, key: PublicKey, entry: SeatEntry)
    requires Ranked(seats, order) && entry.order == order
    ensures Ranked(seats[key := entry], order + 1) && Ranked(DropLabel(seats, seat)[key := entry], order + 1)
  {
  }

  class HostProducer {
    const config: HostConfig
    var roster: seq<Seat>
    var seats: map<PublicKey, SeatEntry>
    var order: nat
    var issued: nat
    var verified: nat
    var counter: nat
    var last: Option<Held>
    var store: Option<Persisted>
    var frames: nat
    var savedFrames: nat
    var savedAt: Option<nat>
    var windowFrom: Option<nat>
    var owed: bool
    var standing: Standing
    var faulted: bool

    ghost function View(): Host
      reads this
    {
      Host(config, Seating(roster, seats, order), Series(issued, verified, counter, last),
           Saving(store, frames, savedFrames, savedAt), windowFrom, owed, standing, faulted)
    }

    ghost predicate Valid()
      reads this
    {
      Ranked(seats, order)
    }

    /** Loads the store once: its record counts only when this host's own seed wrote it. */
    constructor (config: HostConfig, store: Option<Persisted>)
      ensures Valid() && this.config == config
      ensures View() == NewHost(config, store)
    {
      this.config := config;
      this.store := store;
      roster := if config.ownSeat == "" then [] else [config.ownSeat];
      seats, order := map[], 0;
      issued, verified, counter, last := 0, 0, 0, None;
      frames, savedFrames, savedAt := 0, 0, None;
      windowFrom, owed, standing, faulted := None, false, Live, false;
      if config.hasStore && store.Some? && store.value.seed == config.seed {
        issued := store.value.issued;
        frames := ResumedFrames(store.value.frames);
        savedFrames := if store.value.frames.Some? then store.value.frames.value else U64_MAX;
      }
    }

    method SeatJoined(seat: Seat)
      requires Valid()
      modifies this
      ensures Valid()
      ensures View() == Producer.SeatJoined(old(View()), seat)
    {
      if seat == config.ownSeat {
        standing := Live;
      }
      if seat !in roster {
        roster := roster + [seat];
      }
    }

    method SeatLeft(seat: Seat)
      requires Valid()
      modifies this
      ensures Valid()
      ensures View() == Producer.SeatLeft(old(View()), seat)
    {
      if seat == config.ownSeat {
        standing := Gone;
      }
      var kept: seq<Seat> := [];
      var i := |roster|;
      while i > 0
        invariant 0 <= i <= |roster|
        invariant kept == DropSeat(roster[i..], seat)
      {
        i := i - 1;
        if roster[i] != seat {
          kept := [roster[i]] + kept;
        }
      }
      assert roster[0..] == roster;
      roster := kept;
      seats := map k <- seats | seats[k].seat != seat :: seats[k];
    }

    /** Commits an announced key the seats do not hold, and owes the room a state either way. */
    method Announcement(key: PublicKey, declared: Option<Role>)
      requires Valid()
      modifies this
      ensures Valid()
      ensures View() == Announce(old(View()), key, declared)
    {
      if key !in seats {
        CommitKey(key, declared);
      }
      owed := true;
    }

    method CommitKey(key: PublicKey, declared: Option<Role>)
      requires Valid()
      modifies this
      ensures Valid()
      ensures View() == old(View()).(seating := Commit(old(View()).seating, config.ownSeat, key, declared))
    {
      hide Ranked, Label;
      var seat := ChooseLabel();
      var entry := SeatEntry(seat, if declared.Some? then declared.value else GuestRole, order);
      CommittingKeepsRanked(seats, order, seat, key, entry);
      if seat != config.ownSeat {
        seats := map k <- seats | seats[k].seat != seat :: seats[k];
      }
      seats := seats[key := entry];
      order := order + 1;
    }

    method ChooseLabel() returns (seat: Seat)
      requires Valid()
      ensures seat == Label(View().seating, config.ownSeat)
    {
      var taken := (set k <- seats | seats[k].seat in roster :: seats[k].seat) + {config.ownSeat};
      assert taken == Taken(View().seating, config.ownSeat);
      var i := 0;
      while i < |roster|
        invariant 0 <= i <= |roster|
        invariant FirstFree(roster, taken) == FirstFree(roster[i..], taken)
      {
        if roster[i] !in taken {
          return roster[i];
        }
        i := i + 1;
      }
      seat := FallbackSeat();
    }

    /** The seat of the key held longest, or the host's own when no other seat carries one. */
    method FallbackSeat() returns (seat: Seat)
      requires Valid()
      requires FirstFree(roster, Taken(View().seating, config.ownSeat)).None?
      ensures seat == Label(View().seating, config.ownSeat)
    {
      var among := set k <- seats | seats[k].seat != config.ownSeat && seats[k].seat in roster;
      assert among == Replaceable(View().seating, config.ownSeat);
      if among == {} {
        return config.ownSeat;
      }
      var key :| key in among;
      var rest := among - {key};
      while rest != {}
        invariant key in among && rest <= among
        invariant forall other <- among - rest :: seats[key].order <= seats[other].order
        decreases rest
      {
        var next :| next in rest;
        ghost var done := among - rest;
        if seats[next].order < seats[key].order {
          key := next;
        }
        rest := rest - {next};
        assert among - rest == done + {next};
      }
      assert seats[key].order == seats[Oldest(seats, among)].order;
      return seats[key].seat;
    }

    method VerifiedState(edition: nat)
      requires Valid()
      modifies this
      ensures Valid()
      ensures View() == Producer.VerifiedState(old(View()), edition)
    {
      if verified < edition {
        verified := edition;
      }
    }

    method Publish(clock: nat, reason: HostReason, listing: seq<Path>, seals: bool) returns (out: Option<Publication>)
      requires Valid()
      modifies this
      ensures Valid()
      ensures (View(), out) == Producer.Publish(old(View()), clock, reason, listing, seals)
    {
      hide PeerEntries, Save, HostFrame, NextIssued;
      if standing != Live {
        return None;
      }
      if reason == Announced && (!owed || !(windowFrom.None? || config.renew <= Since(clock, windowFrom.value))) {
        return None;
      }
      out := Answer(clock, reason, listing, seals);
    }

    /** The state owed, the debt cleared: the one last published if it still stands, or a new edition. */
    method Answer(clock: nat, reason: HostReason, listing: seq<Path>, seals: bool) returns (out: Option<Publication>)
      requires Due(View(), clock, reason)
      modifies this`owed, this`windowFrom, this`faulted,
               this`counter, this`issued, this`last, this`store, this`savedFrames, this`savedAt
      ensures (View(), out) == Producer.Publish(old(View()), clock, reason, listing, seals)
    {
      hide PeerEntries, Save, HostFrame, NextIssued, Due;
      owed := false;
      var peers := Entries();
      if last.Some? && verified <= last.value.state.issued
         && last.value.state.listing == listing && last.value.state.peers == peers {
        OpenWindow(clock, reason);
        return Some(Publication(last.value.frame, last.value.state.issued, false, Some(last.value.state)));
      }
      if !seals {
        faulted := true;
        return None;
      }
      var state := SealState(clock, listing, peers);
      OpenWindow(clock, reason);
      out := Some(Publication(last.value.frame, state.issued, true, Some(state)));
    }

    /** The rate bound is the announcements' own: only an answer opens a window. */
    method OpenWindow(clock: nat, reason: HostReason)
      modifies this`windowFrom
      ensures windowFrom == if reason == Announced then Some(clock) else old(windowFrom)
    {
      if reason == Announced {
        windowFrom := Some(clock);
      }
    }

    /** What a state commits: every labelled key still seated, then this connection's as `host`. */
    method Entries() returns (peers: map<PublicKey, PeerEntry>)
      ensures peers == PeerEntries(View().seating, config)
    {
      peers := map k <- seats | seats[k].seat in roster :: PeerEntry(seats[k].seat, seats[k].role);
      peers := peers[config.ownKey := PeerEntry(config.ownSeat, HostRole)];
    }

    /** Seals a new edition, records it in the store, and keeps it for a later re-send. */
    method SealState(clock: nat, listing: seq<Path>, peers: map<PublicKey, PeerEntry>) returns (state: RoomState)
      modifies this`counter, this`issued, this`last, this`store, this`savedFrames, this`savedAt
      ensures state == RoomState(NextIssued(old(View()).series), listing, peers)
      ensures View() == old(View()).(
                series := Series(state.issued, verified, old(counter) + 1,
                  Some(Held(state, HostFrame(config, 1, old(counter) + 1, StateBody(state))))),
                saving := Save(config, old(View()).saving, state.issued, Some(clock)))
    {
      var edition := NextEdition();
      counter := counter + 1;
      state := RoomState(edition, listing, peers);
      last := Some(Held(state, HostFrame(config, 1, counter, StateBody(state))));
      issued := edition;
      WriteStore(Some(clock));
    }

    method Closing(seals: bool) returns (out: Option<Publication>)
      requires Valid()
      modifies this
      ensures Valid()
      ensures (View(), out) == Close(old(View()), seals)
    {
      if standing != Live {
        return None;
      }
      var edition := NextEdition();
      if !seals {
        faulted := true;
        return None;
      }
      counter := counter + 1;
      issued := edition;
      WriteStore(savedAt);
      standing := Closed;
      out := Some(Publication(HostFrame(config, 2, counter, ClosingBody(true, edition)), edition, true, None));
    }

    method NextEdition() returns (edition: nat)
      ensures edition == NextIssued(View().series)
    {
      edition := (if issued < verified then verified else issued) + 1;
    }

    method WriteStore(clock: Option<nat>)
      modifies this`store, this`savedFrames, this`savedAt
      ensures View() == old(View()).(saving := Save(config, old(View()).saving, issued, clock))
    {
      if !config.hasStore {
        return;
      }
      store := Some(Persisted(config.seed, issued, Some(frames)));
      savedFrames := frames;
      savedAt := clock;
    }

    method CountFrames(count: nat)
      requires Valid()
      modifies this
      ensures Valid()
      ensures View() == Producer.CountFrames(old(View()), count)
    {
      frames := count;
    }

    method SaveFrames()
      requires Valid()
      modifies this
      ensures Valid()
      ensures View() == Producer.SaveFrames(old(View()))
    {
      if frames != savedFrames {
        WriteStore(savedAt);
      }
    }

    method FlushFrames(clock: nat)
      requires Valid()
      modifies this
      ensures Valid()
      ensures View() == Producer.FlushFrames(old(View()), clock)
    {
      if frames == savedFrames {
        return;
      }
      if savedAt.Some? && Since(clock, savedAt.value) < config.renew {
        return;
      }
      WriteStore(Some(clock));
    }
  }
}
