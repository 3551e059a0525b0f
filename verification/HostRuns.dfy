/**
 What a host keeps over every run of its producer: the commitments a state names, the answer an
 announcement is owed, and the edition series across any number of reloads.
 */
module HostRuns {
  import opened Arithmetic
  import opened Options
  import opened Frames
  import opened Producer

  datatype HostInput =
    | Joined(seat: Seat)
    | Left(seat: Seat)
    | Announcement(key: PublicKey, declared: Option<Role>)
    | Verified(issued: nat)
    | Publishing(clock: nat, reason: HostReason, listing: seq<Path>, seals: bool)
    | Closing(seals: bool)
    | Counted(frames: nat)
    | SavingFrames
    | Flushing(clock: nat)

  ghost function Next(h: Host, i: HostInput): Host {
    match i
    case Joined(seat) => SeatJoined(h, seat)
    case Left(seat) => SeatLeft(h, seat)
    case Announcement(key, declared) => Announce(h, key, declared)
    case Verified(issued) => VerifiedState(h, issued)
    case Publishing(clock, reason, listing, seals) => Publish(h, clock, reason, listing, seals).0
    case Closing(seals) => Close(h, seals).0
    case Counted(frames) => CountFrames(h, frames)
    case SavingFrames => SaveFrames(h)
    case Flushing(clock) => FlushFrames(h, clock)
  }

  function Out(h: Host, i: HostInput): Option<Publication> {
    match i
    case Publishing(clock, reason, listing, seals) => Publish(h, clock, reason, listing, seals).1
    case Closing(seals) => Close(h, seals).1
    case _ => None
  }

  ghost function At(h: Host, log: seq<HostInput>, n: nat): Host
    requires n <= |log|
  {
    if n == 0 then h else Next(At(h, log, n - 1), log[n - 1])
  }

  // --- the commitment invariant ------------------------------------------------------------

  /** An announcement never declares `host`: the receiver refuses one that does. */
  predicate Admissible(i: HostInput) {
    i.Announcement? ==> i.declared != Some(HostRole)
  }

  /** What a seating keeps for a host seated at `own`: one key a seat, in the order they came. */
  ghost predicate Seated(s: Seating, own: Seat) {
    && (forall k <- s.seats ::
          && (s.seats[k].seat in s.roster || s.seats[k].seat == own)
          && s.seats[k].order < s.order
          && s.seats[k].role != HostRole)
    && (forall j <- s.seats, k <- s.seats | j != k ::
          && s.seats[j].order != s.seats[k].order
          && (s.seats[j].seat == s.seats[k].seat ==> s.seats[j].seat == own))
  }

  ghost predicate Committed(h: Host) {
    && h.config.ownSeat != ""
    && (h.standing == Live ==> h.config.ownSeat in h.seating.roster)
    && Seated(h.seating, h.config.ownSeat)
  }

  lemma {:induction false} FirstFreeIsFree(roster: seq<Seat>, taken: set<Seat>)
    ensures var free := FirstFree(roster, taken);
            if free.Some? then free.value in roster && free.value !in taken
            else forall s <- roster :: s in taken
  {
    if roster != [] {
      FirstFreeIsFree(roster[1..], taken);
    }
  }

  lemma {:induction false} DropSeatDrops(roster: seq<Seat>, seat: Seat, other: Seat)
    ensures other in DropSeat(roster, seat) <==> other in roster && other != seat
  {
    if roster != [] {
      DropSeatDrops(roster[1..], seat, other);
    }
  }

  /** Everything but a roster event and an announcement leaves the commitments as they are. */
  lemma OnlyEventsMoveCommitments(h: Host, i: HostInput)
    ensures var t := Next(h, i);
            && t.config == h.config
            && (!i.Joined? && !i.Left? && !i.Announcement? ==>
                  t.seating == h.seating && (t.standing == Live ==> h.standing == Live))
  {
  }

  lemma LeavingKeepsSeated(s: Seating, own: Seat, seat: Seat)
    requires Seated(s, own)
    ensures Seated(s.(roster := DropSeat(s.roster, seat), seats := DropLabel(s.seats, seat)), own)
  {
    forall other {
      DropSeatDrops(s.roster, seat, other);
    }
  }

  lemma CommittingKeepsSeated(s: Seating, own: Seat, key: PublicKey, declared: Option<Role>)
    requires Seated(s, own) && key !in s.seats && declared != Some(HostRole)
    ensures Seated(Commit(s, own, key, declared), own)
  {
    FirstFreeIsFree(s.roster, Taken(s, own));
  }

  lemma CommittedKept(h: Host, i: HostInput)
    requires Committed(h) && Admissible(i)
    ensures Committed(Next(h, i))
  {
    match i
    case Left(seat) =>
      LeavingKeepsSeated(h.seating, h.config.ownSeat, seat);
      DropSeatDrops(h.seating.roster, seat, h.config.ownSeat);
    case Announcement(key, declared) =>
      if key !in h.seating.seats {
        CommittingKeepsSeated(h.seating, h.config.ownSeat, key, declared);
      }
    case _ =>
      OnlyEventsMoveCommitments(h, i);
  }

  /** The shape every published state has, fresh or re-sent. */
  ghost predicate WellShaped(h: Host, state: RoomState) {
    var own := h.config.ownKey;
    && (forall k <- state.peers :: state.peers[k].role == HostRole <==> k == own)
    && own in state.peers && state.peers[own].seat == h.config.ownSeat
    && (forall k <- state.peers :: state.peers[k].seat in h.seating.roster)
    && (forall j <- state.peers, k <- state.peers | j != k && state.peers[j].seat == state.peers[k].seat ::
          state.peers[j].seat == h.config.ownSeat)
  }

  /** Every key the host has committed, under the seat and role it was committed with. */
  ghost predicate NamesAll(h: Host, state: RoomState) {
    forall k <- h.seating.seats :: k in state.peers &&
      (k == h.config.ownKey || state.peers[k] == PeerEntry(h.seating.seats[k].seat, h.seating.seats[k].role))
  }

  lemma PublishedStateIsWellShaped(h: Host, i: HostInput)
    requires Committed(h) && Out(h, i).Some? && Out(h, i).value.state.Some?
    ensures var state := Out(h, i).value.state.value;
            WellShaped(h, state) && NamesAll(h, state)
  {
    assert Out(h, i).value.state.value.peers == PeerEntries(h.seating, h.config);
  }

  ghost predicate NoFreeSeat(s: Seating, own: Seat) {
    forall seat <- s.roster :: seat == own || exists k <- s.seats :: s.seats[k].seat == seat
  }

  /**
   A commitment is given up for two reasons only: its labelled seat left, or an announcement of a
   new key found every seat of the roster taken and this key was the one held longest. A key
   that is kept keeps its seat, its role and its place in the order.
   */
  lemma WhyAKeyIsLost(h: Host, i: HostInput, key: PublicKey)
    requires Committed(h) && Admissible(i) && key in h.seating.seats
    ensures var seats, own := h.seating.seats, h.config.ownSeat;
            var after := Next(h, i).seating.seats;
            if key in after then after[key] == seats[key]
            else i == Left(seats[key].seat) ||
                 (&& i.Announcement? && i.key !in seats && NoFreeSeat(h.seating, own)
                  && seats[key].seat != own
                  && (forall k <- seats | seats[k].seat != own :: seats[key].order <= seats[k].order)
                  && i.key in after && after[i.key].seat == seats[key].seat)
  {
    if i.Announcement? && i.key !in h.seating.seats {
      WhatACommitmentCosts(h.seating, h.config.ownSeat, i.key, i.declared, key);
    } else {
      OnlyEventsMoveCommitments(h, i);
    }
  }

  lemma WhatACommitmentCosts(s: Seating, own: Seat, key: PublicKey, declared: Option<Role>, held: PublicKey)
    requires Seated(s, own) && key !in s.seats && held in s.seats
    ensures var after := Commit(s, own, key, declared).seats;
            if held in after then after[held] == s.seats[held]
            else && NoFreeSeat(s, own) && s.seats[held].seat != own
                 && (forall k <- s.seats | s.seats[k].seat != own :: s.seats[held].order <= s.seats[k].order)
                 && key in after && after[key].seat == s.seats[held].seat
  {
    FirstFreeIsFree(s.roster, Taken(s, own));
    if FirstFree(s.roster, Taken(s, own)).None? && Replaceable(s, own) != {} {
      assert LongestHeld(s.seats, Replaceable(s, own), Oldest(s.seats, Replaceable(s, own)));
    }
  }

  lemma {:induction false} CommittedAt(h: Host, log: seq<HostInput>, n: nat)
    requires Committed(h) && n <= |log| && (forall i <- log :: Admissible(i))
    ensures Committed(At(h, log, n))
    ensures At(h, log, n).config == h.config
  {
    hide Next, Committed;
    if n != 0 {
      CommittedAt(h, log, n - 1);
      CommittedKept(At(h, log, n - 1), log[n - 1]);
      OnlyEventsMoveCommitments(At(h, log, n - 1), log[n - 1]);
    }
  }

  /**
   Over every run of a host with a seat: whatever it publishes has exactly one `host` entry, its
   own key under its own seat; labels only seats the roster then has; gives no other seat two
   keys; and leaves out no key it has committed.
   */
  lemma EveryPublishedState(config: HostConfig, store: Option<Persisted>, log: seq<HostInput>, n: nat)
    requires config.ownSeat != "" && n < |log| && (forall i <- log :: Admissible(i))
    requires var h := At(NewHost(config, store), log, n);
             Out(h, log[n]).Some? && Out(h, log[n]).value.state.Some?
    ensures var h := At(NewHost(config, store), log, n);
            var state := Out(h, log[n]).value.state.value;
            WellShaped(h, state) && NamesAll(h, state) && h.config == config
  {
    CommittedAt(NewHost(config, store), log, n);
    PublishedStateIsWellShaped(At(NewHost(config, store), log, n), log[n]);
  }

  /** While a key stays committed its entry is the one it was first given, whatever it announces. */
  lemma {:induction false} EntryNeverChanges(h: Host, log: seq<HostInput>, key: PublicKey, from: nat, to: nat)
    requires Committed(h) && (forall i <- log :: Admissible(i)) && from <= to <= |log|
    requires forall n | from <= n <= to :: key in At(h, log, n).seating.seats
    ensures At(h, log, from).seating.seats[key] == At(h, log, to).seating.seats[key]
  {
    hide Next, Committed;
    if from < to {
      EntryNeverChanges(h, log, key, from, to - 1);
      CommittedAt(h, log, to - 1);
      WhyAKeyIsLost(At(h, log, to - 1), log[to - 1], key);
    }
  }

  // --- the answer an announcement is owed ---------------------------------------------------

  /** Every committed key is owed an answer or stands in the last state as it was committed. */
  ghost predicate Answered(h: Host) {
    h.owed || h.seating.seats == map[] || (h.series.last.Some? && NamesAll(h, h.series.last.value.state))
  }

  /**
   The branch that forgets: a publication that is due, for whatever reason, clears the debt before
   it seals, so one that is no re-send and whose seal fails leaves unnamed keys unowed.
   */
  ghost predicate Forgets(h: Host, i: HostInput) {
    && i.Publishing? && Due(h, i.clock, i.reason) && !Resends(h, i.listing) && !i.seals
    && h.seating.seats != map[] && !(h.series.last.Some? && NamesAll(h, h.series.last.value.state))
  }

  /** One step keeps the promise to every committed key exactly when it is not that branch. */
  lemma AStepForgetsExactly(h: Host, i: HostInput)
    requires Committed(h) && Admissible(i) && Answered(h)
    ensures Answered(Next(h, i)) <==> !Forgets(h, i)
  {
    if i.Publishing? && Out(h, i).Some? {
      PublishedStateIsWellShaped(h, i);
    }
  }

  /** Over every run, every committed key stays owed or named if and only if no step forgets. */
  lemma {:induction false} EveryKeyIsOwedOrNamed(config: HostConfig, store: Option<Persisted>, log: seq<HostInput>, n: nat)
    requires config.ownSeat != "" && n <= |log| && (forall i <- log :: Admissible(i))
    ensures (forall m | 0 <= m <= n :: Answered(At(NewHost(config, store), log, m)))
       <==> (forall m | 0 <= m < n :: !Forgets(At(NewHost(config, store), log, m), log[m]))
  {
    hide Next, Answered, Forgets;
    var h := NewHost(config, store);
    if n == 0 {
      assert Answered(At(h, log, 0)) by { NewHostAnswers(config, store); }
    } else {
      EveryKeyIsOwedOrNamed(config, store, log, n - 1);
      CommittedAt(h, log, n - 1);
      var last := At(h, log, n - 1);
      if Answered(last) {
        AStepForgetsExactly(last, log[n - 1]);
      }
      assert At(h, log, n) == Next(last, log[n - 1]);
      if forall m | 0 <= m <= n :: Answered(At(h, log, m)) {
        assert Answered(At(h, log, n));
      }
      if forall m | 0 <= m < n :: !Forgets(At(h, log, m), log[m]) {
        assert !Forgets(last, log[n - 1]);
      }
    }
  }

  lemma NewHostAnswers(config: HostConfig, store: Option<Persisted>)
    ensures Answered(NewHost(config, store))
  {
  }

  /** The promise broken: a key announced to a new host whose seal then fails is neither owed nor named. */
  lemma ADebtForgotten(config: HostConfig, key: PublicKey, clock: nat)
    requires config.ownSeat != ""
    ensures var host := Announce(NewHost(config, None), key, None);
            && Committed(host) && Answered(host)
            && !Answered(Next(host, Publishing(clock, Announced, [], false)))
            && !Answered(Next(host, Publishing(clock, RosterChange, [], false)))
  {
    CommittingKeepsSeated(NewHost(config, None).seating, config.ownSeat, key, None);
  }

  predicate AnswersAt(h: Host, i: HostInput) {
    i.Publishing? && i.reason == Announced && Out(h, i).Some?
  }

  predicate Clocked(i: HostInput) {
    i.Publishing? && i.reason == Announced
  }

  ghost predicate Monotone(log: seq<HostInput>) {
    forall m, n | 0 <= m < n < |log| && Clocked(log[m]) && Clocked(log[n]) :: log[m].clock <= log[n].clock
  }

  lemma WindowMoves(h: Host, i: HostInput)
    ensures Next(h, i).windowFrom == if AnswersAt(h, i) then Some(i.clock) else h.windowFrom
  {
  }

  lemma {:induction false} WindowRemembers(h: Host, log: seq<HostInput>, m: nat, n: nat)
    requires m < n <= |log| && Monotone(log) && AnswersAt(At(h, log, m), log[m])
    ensures var w := At(h, log, n).windowFrom;
            w.Some? && log[m].clock <= w.value
  {
    hide Next, Out;
    WindowMoves(At(h, log, n - 1), log[n - 1]);
    if m + 1 < n {
      WindowRemembers(h, log, m, n - 1);
    }
  }

  lemma {:induction false} RenewConstant(h: Host, log: seq<HostInput>, n: nat)
    requires n <= |log|
    ensures At(h, log, n).config == h.config
  {
    hide Next;
    if n != 0 {
      RenewConstant(h, log, n - 1);
      OnlyEventsMoveCommitments(At(h, log, n - 1), log[n - 1]);
    }
  }

  /** On a monotone clock any two states that answer announcements are a renewal apart. */
  lemma AnswersAreARenewalApart(h: Host, log: seq<HostInput>, m: nat, n: nat)
    requires m < n < |log| && Monotone(log)
    requires AnswersAt(At(h, log, m), log[m]) && AnswersAt(At(h, log, n), log[n])
    requires h.config.renew > 0
    ensures log[m].clock + h.config.renew <= log[n].clock
  {
    hide At, Next;
    WindowRemembers(h, log, m, n);
    RenewConstant(h, log, n);
  }

  ghost function Answers(h: Host, log: seq<HostInput>, n: nat): nat
    requires n <= |log|
  {
    if n == 0 then 0
    else Answers(h, log, n - 1) + (if AnswersAt(At(h, log, n - 1), log[n - 1]) then 1 else 0)
  }

  lemma {:induction false} AnswersSpan(h: Host, log: seq<HostInput>, n: nat) returns (first: nat, last: nat)
    requires n <= |log| && Monotone(log) && h.config.renew > 0 && Answers(h, log, n) > 0
    ensures first <= last < n && AnswersAt(At(h, log, first), log[first]) && AnswersAt(At(h, log, last), log[last])
    ensures (Answers(h, log, n) - 1) * h.config.renew <= log[last].clock - log[first].clock
  {
    hide Next, AnswersAt, Monotone, At;
    if AnswersAt(At(h, log, n - 1), log[n - 1]) {
      if Answers(h, log, n - 1) == 0 {
        first, last := n - 1, n - 1;
      } else {
        first, last := AnswersSpan(h, log, n - 1);
        AnswersAreARenewalApart(h, log, last, n - 1);
        OneMore(Answers(h, log, n - 1), h.config.renew);
        last := n - 1;
      }
    } else {
      first, last := AnswersSpan(h, log, n - 1);
    }
  }

  lemma OneMore(count: nat, renew: nat)
    requires count > 0
    ensures count * renew == (count - 1) * renew + renew
  {
  }

  /** However many keys announce, a host answers at most once a renewal: T / renew + 1 in time T. */
  lemma AnswersInASpan(h: Host, log: seq<HostInput>, start: nat, span: nat)
    requires Monotone(log) && h.config.renew > 0
    requires forall i <- log | Clocked(i) :: start <= i.clock <= start + span
    ensures Answers(h, log, |log|) <= span / h.config.renew + 1
  {
    hide Next, Out, At, Answers, Monotone;
    var count := Answers(h, log, |log|);
    if count > 0 {
      var first, last := AnswersSpan(h, log, |log|);
      assert log[first] in log && log[last] in log;
      DivideBound(count - 1, h.config.renew, span);
    }
  }
}
