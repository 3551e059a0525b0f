/**
 Where a commitment comes from: over every run of a host, each key a state names was announced, and
 stands with the role it declared when it was first committed, on a seat no other key had.
 */
module Commitments {
  import opened Options
  import opened Frames
  import opened Producer
  import opened HostRuns

  predicate IsFree(s: Seating, own: Seat, seat: Seat) {
    seat != own && forall k <- s.seats :: s.seats[k].seat != seat
  }

  /** A key a full roster may give up: labelled with a seat of the roster that is not the host's. */
  predicate MayYield(s: Seating, own: Seat, key: PublicKey)
    requires key in s.seats
  {
    s.seats[key].seat != own && s.seats[key].seat in s.roster
  }

  ghost predicate IsFirstFree(s: Seating, own: Seat, i: nat) {
    i < |s.roster| && IsFree(s, own, s.roster[i]) && forall j | 0 <= j < i :: !IsFree(s, own, s.roster[j])
  }

  ghost predicate IsLongestHeld(s: Seating, own: Seat, key: PublicKey) {
    key in s.seats && MayYield(s, own, key)
    && forall other <- s.seats | MayYield(s, own, other) :: s.seats[key].order <= s.seats[other].order
  }

  /**
   The seat a first announcement is given: the first of the roster that no key and no host has, or
   else that of the key held longest, or else the host's own.
   */
  ghost predicate SeatsFirst(s: Seating, own: Seat, seat: Seat) {
    if exists i: nat :: IsFirstFree(s, own, i) then exists i: nat :: IsFirstFree(s, own, i) && seat == s.roster[i]
    else if exists k <- s.seats :: MayYield(s, own, k) then exists k <- s.seats :: IsLongestHeld(s, own, k) && seat == s.seats[k].seat
    else seat == own
  }

  lemma {:induction false} FirstFreeIsFirst(roster: seq<Seat>, taken: set<Seat>)
    ensures var free := FirstFree(roster, taken);
            free.Some? ==> exists i :: 0 <= i < |roster| && roster[i] == free.value && free.value !in taken
                                       && forall j | 0 <= j < i :: roster[j] in taken
  {
    if roster != [] && roster[0] in taken && FirstFree(roster, taken).Some? {
      FirstFreeIsFirst(roster[1..], taken);
      var value := FirstFree(roster, taken).value;
      var i :| 0 <= i < |roster[1..]| && roster[1..][i] == value && forall j | 0 <= j < i :: roster[1..][j] in taken;
      assert roster[i + 1] == value;
      assert forall j | 0 <= j < i + 1 :: j > 0 ==> roster[j] == roster[1..][j - 1];
    }
  }

  lemma TakenIsNotFree(s: Seating, own: Seat)
    ensures forall seat <- s.roster :: seat in Taken(s, own) <==> !IsFree(s, own, seat)
  {
    forall seat <- s.roster ensures seat in Taken(s, own) <==> !IsFree(s, own, seat) {
      if k :| k in s.seats && s.seats[k].seat == seat {
        assert seat in Taken(s, own);
      }
    }
  }

  lemma LabelSeatsFirst(s: Seating, own: Seat)
    ensures SeatsFirst(s, own, Label(s, own))
  {
    var free := FirstFree(s.roster, Taken(s, own));
    TakenIsNotFree(s, own);
    FirstFreeIsFirst(s.roster, Taken(s, own));
    FirstFreeIsFree(s.roster, Taken(s, own));
    if free.Some? {
      var i :| 0 <= i < |s.roster| && s.roster[i] == free.value && free.value !in Taken(s, own)
               && forall j | 0 <= j < i :: s.roster[j] in Taken(s, own);
      assert IsFirstFree(s, own, i);
    } else {
      assert forall k <- s.seats :: k in Replaceable(s, own) <==> MayYield(s, own, k);
      if Replaceable(s, own) != {} {
        var k := Oldest(s.seats, Replaceable(s, own));
        assert LongestHeld(s.seats, Replaceable(s, own), k);
        assert IsLongestHeld(s, own, k);
      }
    }
  }

  // --- one input -------------------------------------------------------------------------------

  /** The only way into a host's commitments, and what comes in with it. */
  lemma HowAKeyIsCommitted(h: Host, i: HostInput, key: PublicKey)
    requires key !in h.seating.seats && key in Next(h, i).seating.seats
    ensures && i.Announcement? && i.key == key
            && Next(h, i).seating.seats[key].role == (match i.declared case Some(role) => role case None => GuestRole)
            && SeatsFirst(h.seating, h.config.ownSeat, Next(h, i).seating.seats[key].seat)
  {
    if i.Announcement? {
      LabelSeatsFirst(h.seating, h.config.ownSeat);
    } else {
      OnlyEventsMoveCommitments(h, i);
    }
  }

  /** An announcement is always committed and answered for, and a second one moves nothing else. */
  lemma AnAnnouncementCommits(h: Host, key: PublicKey, declared: Option<Role>)
    ensures var t := Next(h, Announcement(key, declared));
            && key in t.seating.seats && t.owed
            && (key in h.seating.seats ==> t == h.(owed := true))
  {
  }

  // --- whole runs --------------------------------------------------------------------------------

  /** The input that committed the key as it now stands: announced then, and committed ever since. */
  ghost predicate CommittedBy(h: Host, log: seq<HostInput>, m: nat, n: nat, key: PublicKey)
    requires n <= |log|
  {
    && m < n && log[m].Announcement? && log[m].key == key
    && key !in At(h, log, m).seating.seats
    && forall j | m < j <= n :: key in At(h, log, j).seating.seats
  }

  lemma {:induction false} ACommittedKeyWasAnnounced(h: Host, log: seq<HostInput>, n: nat, key: PublicKey) returns (m: nat)
    requires Committed(h) && n <= |log| && (forall i <- log :: Admissible(i))
    requires h.seating.seats == map[] && key in At(h, log, n).seating.seats
    ensures CommittedBy(h, log, m, n, key)
    ensures var entry := At(h, log, n).seating.seats[key];
            && entry.role == (match log[m].declared case Some(role) => role case None => GuestRole)
            && SeatsFirst(At(h, log, m).seating, h.config.ownSeat, entry.seat)
  {
    hide Next, Committed, SeatsFirst;
    var last := At(h, log, n - 1);
    CommittedAt(h, log, n - 1);
    assert At(h, log, n) == Next(last, log[n - 1]);
    if key in last.seating.seats {
      m := ACommittedKeyWasAnnounced(h, log, n - 1, key);
      WhyAKeyIsLost(last, log[n - 1], key);
    } else {
      m := n - 1;
      HowAKeyIsCommitted(last, log[m], key);
    }
  }

  /**
   Over every run: whatever state a host publishes, each key in it but the host's own was announced
   in this run, has been committed since without a break, and stands there with the role that
   announcement declared, or as a guest if it declared none, on the seat it was given then.
   */
  lemma APublishedRoleWasDeclared(config: HostConfig, store: Option<Persisted>, log: seq<HostInput>, n: nat, key: PublicKey)
    returns (m: nat)
    requires config.ownSeat != "" && n < |log| && (forall i <- log :: Admissible(i)) && key != config.ownKey
    requires var out := Out(At(NewHost(config, store), log, n), log[n]);
             out.Some? && out.value.state.Some? && key in out.value.state.value.peers
    ensures var h := NewHost(config, store);
            var entry := Out(At(h, log, n), log[n]).value.state.value.peers[key];
            && CommittedBy(h, log, m, n, key)
            && entry.role == (match log[m].declared case Some(role) => role case None => GuestRole)
            && SeatsFirst(At(h, log, m).seating, config.ownSeat, entry.seat)
  {
    hide SeatsFirst;
    var h := NewHost(config, store);
    CommittedAt(h, log, n);
    PublishedPeers(At(h, log, n), log[n], key);
    m := ACommittedKeyWasAnnounced(h, log, n, key);
  }

  lemma PublishedPeers(h: Host, i: HostInput, key: PublicKey)
    requires Out(h, i).Some? && Out(h, i).value.state.Some? && key in Out(h, i).value.state.value.peers && key != h.config.ownKey
    ensures key in h.seating.seats
    ensures Out(h, i).value.state.value.peers[key] == PeerEntry(h.seating.seats[key].seat, h.seating.seats[key].role)
  {
    assert Out(h, i).value.state.value.peers == PeerEntries(h.seating, h.config);
  }

  // --- the answer itself ---------------------------------------------------------------------------

  /**
   An answer owed is given: a live host whose window is open and whose seal holds publishes a state
   that names every key it has committed, and then owes nothing.
   */
  lemma AnOwedAnswerIsGiven(h: Host, clock: nat, listing: seq<Path>)
    requires Committed(h) && h.standing == Live && h.owed
    requires h.windowFrom.None? || h.windowFrom.value + h.config.renew <= clock
    ensures var i := Publishing(clock, Announced, listing, true);
            && Out(h, i).Some? && Out(h, i).value.state.Some? && NamesAll(h, Out(h, i).value.state.value)
            && Out(h, i).value.state.value.listing == listing && !Next(h, i).owed
  {
    PublishedStateIsWellShaped(h, Publishing(clock, Announced, listing, true));
  }

  /** What a new edition would only repeat is sent again as the bytes it was: a new one says something new. */
  lemma ANewEditionSaysSomethingNew(h: Host, clock: nat, reason: HostReason, listing: seq<Path>, seals: bool)
    requires var out := Out(h, Publishing(clock, reason, listing, seals)); out.Some? && h.series.last.Some?
    ensures var out, held := Out(h, Publishing(clock, reason, listing, seals)).value, h.series.last.value;
            && out.state.Some?
            && (out.isNew <==> out.state.value.listing != held.state.listing || out.state.value.peers != held.state.peers
                               || held.state.issued < h.series.verified)
            && (!out.isNew ==> out.frame == held.frame && out.state.value == held.state)
  {
  }
}
