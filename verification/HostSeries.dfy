/**
 A host across reloads: sessions that share one store publish one rising edition series, and every
 return spends its share of the room's frame budget.
 */
module HostSeries {
  import opened Arithmetic
  import opened Options
  import opened Frames
  import opened Producer
  import opened HostRuns
  import Sealed
  import ReplayMarks

  /** What happens to a host: its producer is driven, or its process ends and a new one loads the store. */
  datatype Event = Driven(input: HostInput) | Reloaded(config: HostConfig)

  ghost function After(h: Host, e: Event): Host {
    match e
    case Driven(input) => HostRuns.Next(h, input)
    case Reloaded(config) => NewHost(config, h.saving.store)
  }

  ghost function At(h: Host, log: seq<Event>, n: nat): Host
    requires n <= |log|
  {
    if n == 0 then h else After(At(h, log, n - 1), log[n - 1])
  }

  /** The same host returning: one key, one store, whatever seat and connection key it now has. */
  predicate SameHost(config: HostConfig, e: Event) {
    e.Reloaded? ==> e.config.hostKey == config.hostKey && e.config.seed == config.seed && e.config.hasStore
  }

  ghost predicate OneHost(config: HostConfig, log: seq<Event>) {
    forall n | 0 <= n < |log| :: SameHost(config, log[n])
  }

  /** The frame of a new edition this event publishes, if it does. */
  function NewFrame(h: Host, e: Event): Option<Publication> {
    if e.Driven? && Out(h, e.input).Some? && Out(h, e.input).value.isNew then Out(h, e.input) else None
  }

  // --- the edition series ------------------------------------------------------------------

  /** The store says what the series says: this host's record holds its highest edition. */
  ghost predicate Recorded(h: Host) {
    && h.config.hasStore
    && h.series.issued == if OwnRecord(h.config, h.saving.store) then h.saving.store.value.issued else 0
  }

  lemma RecordedKept(h: Host, e: Event)
    requires Recorded(h) && SameHost(h.config, e)
    ensures var t := After(h, e);
            && Recorded(t) && h.series.issued <= t.series.issued
            && t.config.hostKey == h.config.hostKey && t.config.seed == h.config.seed
            && (e.Driven? ==> h.series.verified <= t.series.verified)
            && (e.Driven? && e.input.Verified? ==> e.input.issued <= t.series.verified)
  {
    hide PeerEntries, Label, DropLabel, DropSeat;
  }

  lemma NewFrameIsSigned(h: Host, e: Event)
    requires NewFrame(h, e).Some?
    ensures var t, out := After(h, e), NewFrame(h, e).value;
            && out.issued == t.series.issued == NextIssued(h.series)
            && out.frame.Frame? && out.frame.signer == Some(h.config.hostKey)
            && Sealed.IssuedOf(out.frame.kind, out.frame.body) == Some(t.series.issued)
  {
    hide PeerEntries, Label;
  }

  lemma {:induction false} RecordedAt(h: Host, log: seq<Event>, n: nat)
    requires Recorded(h) && n <= |log| && OneHost(h.config, log)
    ensures Recorded(At(h, log, n))
    ensures At(h, log, n).config.hostKey == h.config.hostKey && At(h, log, n).config.seed == h.config.seed
  {
    hide After;
    if n != 0 {
      RecordedAt(h, log, n - 1);
      RecordedKept(At(h, log, n - 1), log[n - 1]);
    }
  }

  /** What the `n`th event publishes, and what it leaves of the series. */
  lemma PublishesAt(h: Host, log: seq<Event>, n: nat)
    requires Recorded(h) && n < |log| && OneHost(h.config, log)
    ensures var out := NewFrame(At(h, log, n), log[n]);
            && (out.Some? ==> out.value.issued == At(h, log, n + 1).series.issued == NextIssued(At(h, log, n).series))
            && (log[n].Driven? && log[n].input.Verified? ==> log[n].input.issued <= At(h, log, n + 1).series.verified)
  {
    hide After, NewFrame;
    RecordedAt(h, log, n);
    RecordedKept(At(h, log, n), log[n]);
    if NewFrame(At(h, log, n), log[n]).Some? {
      NewFrameIsSigned(At(h, log, n), log[n]);
    }
  }

  lemma {:induction false} IssuedNeverFalls(h: Host, log: seq<Event>, m: nat, n: nat)
    requires Recorded(h) && m <= n <= |log| && OneHost(h.config, log)
    ensures At(h, log, m).series.issued <= At(h, log, n).series.issued
  {
    hide After;
    if m < n {
      IssuedNeverFalls(h, log, m, n - 1);
      RecordedAt(h, log, n - 1);
      RecordedKept(At(h, log, n - 1), log[n - 1]);
    }
  }

  lemma {:induction false} VerifiedNeverFalls(h: Host, log: seq<Event>, m: nat, n: nat)
    requires Recorded(h) && m <= n <= |log| && OneHost(h.config, log)
    requires forall k | m <= k < n :: log[k].Driven?
    ensures At(h, log, m).series.verified <= At(h, log, n).series.verified
  {
    hide After;
    if m < n {
      VerifiedNeverFalls(h, log, m, n - 1);
      RecordedAt(h, log, n - 1);
      RecordedKept(At(h, log, n - 1), log[n - 1]);
    }
  }

  /** Over any chain of sessions sharing one store, each new state or closing is above every earlier one. */
  lemma EditionsRiseAcrossReloads(config: HostConfig, store: Option<Persisted>, log: seq<Event>, m: nat, n: nat)
    requires config.hasStore && m < n < |log| && OneHost(config, log)
    requires var h := NewHost(config, store);
             NewFrame(At(h, log, m), log[m]).Some? && NewFrame(At(h, log, n), log[n]).Some?
    ensures var h := NewHost(config, store);
            NewFrame(At(h, log, m), log[m]).value.issued < NewFrame(At(h, log, n), log[n]).value.issued
  {
    hide After, NewFrame, At;
    var h := NewHost(config, store);
    PublishesAt(h, log, m);
    PublishesAt(h, log, n);
    IssuedNeverFalls(h, log, m + 1, n);
  }

  /** Within one session each new edition is also above every edition verified before it. */
  lemma EditionsRiseAboveVerified(config: HostConfig, store: Option<Persisted>, log: seq<Event>, m: nat, n: nat)
    requires config.hasStore && m < n < |log| && OneHost(config, log)
    requires log[m].Driven? && log[m].input.Verified? && (forall k | m < k < n :: log[k].Driven?)
    requires NewFrame(At(NewHost(config, store), log, n), log[n]).Some?
    ensures log[m].input.issued < NewFrame(At(NewHost(config, store), log, n), log[n]).value.issued
  {
    hide After, NewFrame, At;
    var h := NewHost(config, store);
    PublishesAt(h, log, m);
    PublishesAt(h, log, n);
    VerifiedNeverFalls(h, log, m + 1, n);
  }

  /**
   What a reload does not carry: a verified edition is not in the record. The first edition after
   a reload clears every edition verified before it exactly when this host had already published
   at or above all of them.
   */
  lemma ReloadKeepsVerifiedIffPublished(h: Host, config: HostConfig)
    requires Recorded(h) && SameHost(h.config, Reloaded(config))
    ensures h.series.verified < NextIssued(After(h, Reloaded(config)).series) <==>
            h.series.verified <= h.series.issued
  {
  }

  /** A host that verified edition 9 of its own room and died before publishing returns below it. */
  lemma AReloadBelowAVerifiedEdition(config: HostConfig, listing: seq<Path>)
    requires config.hasStore
    ensures var h := After(NewHost(config, None), Driven(Verified(9)));
            var back := After(h, Reloaded(config));
            var state := NewFrame(back, Driven(Publishing(0, Mint, listing, true)));
            state.Some? && state.value.issued == 1 < h.series.verified
  {
  }

  /**
   A receiver handed, in order, any part of what such a chain of sessions published, beside any
   frames the host key did not sign, refuses none of the host's frames as stale.
   */
  lemma AChainOfSessionsIsNeverStale(config: HostConfig, store: Option<Persisted>, log: seq<Event>,
                                     r: Sealed.ReaderState, heard: seq<ReplayMarks.Heard>, from: seq<nat>, n: nat)
    requires config.hasStore && OneHost(config, log)
    requires r.hostKey == config.hostKey && r.issued == 0
    requires |from| == |heard| && n < |heard| && heard[n].FromRelay?
    requires forall i | 0 <= i < |heard| && ReplayMarks.Edition(r, heard[i]).Some? ::
               && from[i] < |log| && heard[i].FromRelay?
               && NewFrame(At(NewHost(config, store), log, from[i]), log[from[i]]).Some?
               && heard[i].frame == NewFrame(At(NewHost(config, store), log, from[i]), log[from[i]]).value.frame
    requires forall i, j | 0 <= i < j < |heard| && ReplayMarks.Edition(r, heard[i]).Some? && ReplayMarks.Edition(r, heard[j]).Some? ::
               from[i] < from[j]
    ensures var v := Sealed.Judge(ReplayMarks.At(r, heard, n), heard[n].frame);
            v.Refused? ==> v.reason != Sealed.StaleIssued
  {
    hide After, NewFrame;
    var h := NewHost(config, store);
    forall i | 0 <= i < |heard| && ReplayMarks.Edition(r, heard[i]).Some?
      ensures ReplayMarks.Edition(r, heard[i]).value == NewFrame(At(h, log, from[i]), log[from[i]]).value.issued > 0
    {
      RecordedAt(h, log, from[i]);
      RecordedKept(At(h, log, from[i]), log[from[i]]);
      NewFrameIsSigned(At(h, log, from[i]), log[from[i]]);
    }
    forall i, j | 0 <= i < j < |heard| && ReplayMarks.Edition(r, heard[i]).Some? && ReplayMarks.Edition(r, heard[j]).Some?
      ensures ReplayMarks.Edition(r, heard[i]).value < ReplayMarks.Edition(r, heard[j]).value
    {
      EditionsRiseAcrossReloads(config, store, log, from[i], from[j]);
    }
    ReplayMarks.RisingEditionsNeverStale(r, heard, 0, n);
  }

  // --- what each return costs --------------------------------------------------------------

  /** The branches of a producer's step that write its store. */
  predicate Writes(h: Host, i: HostInput) {
    h.config.hasStore &&
    match i
    case Publishing(clock, reason, listing, seals) => Due(h, clock, reason) && !Resends(h, listing) && seals
    case Closing(seals) => h.standing == Live && seals
    case SavingFrames => h.saving.frames != h.saving.savedFrames
    case Flushing(clock) =>
      && h.saving.frames != h.saving.savedFrames
      && (h.saving.savedAt.None? || h.config.renew <= Since(clock, h.saving.savedAt.value))
    case _ => false
  }

  /** Whether the life that is running after `n` events has written the store yet. */
  ghost predicate HasWritten(h: Host, log: seq<Event>, n: nat)
    requires n <= |log|
  {
    n != 0 && log[n - 1].Driven? && (HasWritten(h, log, n - 1) || Writes(At(h, log, n - 1), log[n - 1].input))
  }

  /** The count that life began with. */
  ghost function BeganAt(h: Host, log: seq<Event>, n: nat): nat
    requires n <= |log|
  {
    if n == 0 || log[n - 1].Reloaded? then At(h, log, n).saving.frames else BeganAt(h, log, n - 1)
  }

  /** The count a process resumes from a store: the room's own record, charged for the absence. */
  function Resumed(config: HostConfig, store: Option<Persisted>): nat {
    if OwnRecord(config, store) then ResumedFrames(store.value.frames) else 0
  }

  function Saturated(frames: nat): nat {
    if U64_MAX < frames then U64_MAX else frames
  }

  /** A room's count never falls while a process runs. */
  ghost predicate CountsRise(h: Host, log: seq<Event>) {
    forall n | 0 <= n < |log| && log[n].Driven? && log[n].input.Counted? ::
      At(h, log, n).saving.frames <= log[n].input.frames
  }

  /** What a life's store is worth to the next: its own count, or what it was worth already. */
  ghost predicate Charging(h: Host, began: nat, written: bool) {
    && h.config.hasStore && began <= h.saving.frames
    && if written
       then OwnRecord(h.config, h.saving.store) && h.saving.store.value.frames.Some? && began <= h.saving.store.value.frames.value
       else Resumed(h.config, h.saving.store) == began
  }

  lemma DrivingCharges(h: Host, i: HostInput, began: nat, written: bool)
    requires Charging(h, began, written) && (i.Counted? ==> h.saving.frames <= i.frames)
    ensures Charging(HostRuns.Next(h, i), began, written || Writes(h, i)) && HostRuns.Next(h, i).config == h.config
  {
    hide PeerEntries, Label, DropLabel, DropSeat, Resends, Due;
  }

  lemma {:induction false} EveryLifeCharges(config: HostConfig, store: Option<Persisted>, log: seq<Event>, n: nat)
    requires config.hasStore && n <= |log| && OneHost(config, log) && CountsRise(NewHost(config, store), log)
    ensures var h := NewHost(config, store);
            && Charging(At(h, log, n), BeganAt(h, log, n), HasWritten(h, log, n))
            && At(h, log, n).config.seed == config.seed
  {
    hide HostRuns.Next, Charging, Writes;
    var h := NewHost(config, store);
    if n == 0 {
      BeginsCharging(config, store);
    } else {
      EveryLifeCharges(config, store, log, n - 1);
      assert SameHost(config, log[n - 1]);
      if log[n - 1].Driven? {
        DrivingCharges(At(h, log, n - 1), log[n - 1].input, BeganAt(h, log, n - 1), HasWritten(h, log, n - 1));
      } else {
        BeginsCharging(log[n - 1].config, At(h, log, n - 1).saving.store);
      }
    }
  }

  lemma BeginsCharging(config: HostConfig, store: Option<Persisted>)
    requires config.hasStore
    ensures Charging(NewHost(config, store), NewHost(config, store).saving.frames, false)
  {
  }

  /**
   What one return is charged, exactly: a life that wrote its store even once is followed by one
   whose count is at least its own and the charge; a life that did not is followed by its equal.
   Below saturation the charge is paid if and only if the store was written.
   */
  lemma AReturnIsChargedIffTheStoreWasWritten(config: HostConfig, store: Option<Persisted>, log: seq<Event>, n: nat)
    requires config.hasStore && n < |log| && OneHost(config, log) && log[n].Reloaded?
    requires CountsRise(NewHost(config, store), log)
    ensures var h := NewHost(config, store);
            var began, next := BeganAt(h, log, n), At(h, log, n + 1).saving.frames;
            && (HasWritten(h, log, n) ==> Saturated(began + ABSENCE_CHARGE) <= next)
            && (!HasWritten(h, log, n) ==> next == began)
            && (began + ABSENCE_CHARGE <= U64_MAX ==>
                  (began + ABSENCE_CHARGE <= next <==> HasWritten(h, log, n)))
  {
    hide HostRuns.Next, HasWritten, BeganAt;
    EveryLifeCharges(config, store, log, n);
    assert SameHost(config, log[n]);
  }

  function Returns(log: seq<Event>, n: nat): nat
    requires n <= |log|
  {
    if n == 0 then 0 else Returns(log, n - 1) + (if log[n - 1].Reloaded? then 1 else 0)
  }

  /** The returns that ended a life which had written its store. */
  ghost function ChargedReturns(h: Host, log: seq<Event>, n: nat): nat
    requires n <= |log|
  {
    if n == 0 then 0
    else ChargedReturns(h, log, n - 1) + (if log[n - 1].Reloaded? && HasWritten(h, log, n - 1) then 1 else 0)
  }

  /** After any chain of lives the count is at least 2^21 for each return whose life wrote its store. */
  lemma {:induction false} EveryWrittenLifeIsCharged(config: HostConfig, store: Option<Persisted>, log: seq<Event>, n: nat)
    requires config.hasStore && n <= |log| && OneHost(config, log) && CountsRise(NewHost(config, store), log)
    ensures var h := NewHost(config, store);
            Saturated(ChargedReturns(h, log, n) * ABSENCE_CHARGE) <= BeganAt(h, log, n) <= At(h, log, n).saving.frames
  {
    hide HostRuns.Next, HasWritten;
    var h := NewHost(config, store);
    EveryLifeCharges(config, store, log, n);
    if n != 0 {
      EveryWrittenLifeIsCharged(config, store, log, n - 1);
      var k := ChargedReturns(h, log, n - 1);
      assert (k + 1) * ABSENCE_CHARGE == k * ABSENCE_CHARGE + ABSENCE_CHARGE;
      if log[n - 1].Reloaded? {
        AReturnIsChargedIffTheStoreWasWritten(config, store, log, n - 1);
      }
    }
  }

  /** Each process of the chain writes its store before the next one returns. */
  ghost predicate EveryLifeWrites(h: Host, log: seq<Event>) {
    forall n | 0 <= n < |log| && log[n].Reloaded? :: HasWritten(h, log, n)
  }

  lemma {:induction false} AllReturnsCharged(h: Host, log: seq<Event>, n: nat)
    requires n <= |log| && EveryLifeWrites(h, log)
    ensures ChargedReturns(h, log, n) == Returns(log, n)
  {
    if n != 0 {
      AllReturnsCharged(h, log, n - 1);
    }
  }

  /**
   After `k` returns, each of a process that wrote its store, the count is at least k * 2^21 for
   every `k` below saturation; from the 1024th on it starts at the room's whole budget.
   */
  lemma ReturnsAreCharged(config: HostConfig, store: Option<Persisted>, log: seq<Event>, n: nat)
    requires config.hasStore && n <= |log| && OneHost(config, log) && CountsRise(NewHost(config, store), log)
    requires EveryLifeWrites(NewHost(config, store), log)
    ensures var k, frames := Returns(log, n), At(NewHost(config, store), log, n).saving.frames;
            && Saturated(k * ABSENCE_CHARGE) <= frames
            && (1024 <= k ==> FRAME_BUDGET <= frames)
  {
    hide At, HasWritten, CountsRise;
    var h := NewHost(config, store);
    EveryWrittenLifeIsCharged(config, store, log, n);
    AllReturnsCharged(h, log, n);
    if 1024 <= Returns(log, n) {
      Times(1024, Returns(log, n), ABSENCE_CHARGE);
    }
  }

  /**
   Processes that die before any write: the count they resume never moves, so enough of them
   have returned more often than they were charged for.
   */
  lemma {:induction false} LivesThatDieAtOnceAreNotCharged(config: HostConfig, store: Option<Persisted>, deaths: nat)
    requires config.hasStore
    ensures var log := seq(deaths, _ => Reloaded(config));
            && Returns(log, deaths) == deaths
            && At(NewHost(config, store), log, deaths) == NewHost(config, store)
            && (NewHost(config, store).saving.frames < deaths * ABSENCE_CHARGE ==>
                  At(NewHost(config, store), log, deaths).saving.frames < Returns(log, deaths) * ABSENCE_CHARGE)
  {
    var log := seq(deaths, _ => Reloaded(config));
    DyingAtOnce(config, store, log, deaths);
  }

  lemma {:induction false} DyingAtOnce(config: HostConfig, store: Option<Persisted>, log: seq<Event>, n: nat)
    requires n <= |log| && forall i | 0 <= i < |log| :: log[i] == Reloaded(config)
    ensures Returns(log, n) == n && At(NewHost(config, store), log, n) == NewHost(config, store)
  {
    if n != 0 {
      DyingAtOnce(config, store, log, n - 1);
    }
  }

  /** A returned host's first tick always writes: its count is charged, and it has saved nothing yet. */
  lemma AFirstFlushWrites(config: HostConfig, store: Option<Persisted>, clock: nat)
    requires OwnRecord(config, store) && (store.value.frames.Some? ==> store.value.frames.value < U64_MAX)
    ensures Writes(NewHost(config, store), Flushing(clock))
  {
  }
}
