/** The frame budget across a host's returns, down to the frames its sessions seal. */
module SpentRooms {
  import opened Options
  import opened Frames
  import opened Producer
  import opened Session
  import opened SessionFrames
  import opened HostSeries

  /**
   From the 1024th charged return on, whatever the session is then driven with: it seals no frame
   of its own key and no state, and all its host key still signs is a closing.
   */
  lemma AHostThatReturnsTooOftenIsSilent(
      config: HostConfig, store: Option<Persisted>, log: seq<Event>, n: nat,
      who: Identity, hostKey: PublicKey, roster: set<Seat>, inputs: seq<Input>)
    requires config.hasStore && 0 < n <= |log| && OneHost(config, log) && log[n - 1].Reloaded?
    requires CountsRise(NewHost(config, store), log)
    requires 1024 <= ChargedReturns(NewHost(config, store), log, n) && who.budget <= FRAME_BUDGET
    ensures var s := Opened(who, hostKey, roster, Some(At(NewHost(config, store), log, n)));
            && Sane(s)
            && OwnCount(Emitted(s, inputs)) == 0
            && HostCounter(Run(s, inputs)) - HostCounter(s) == Closings(Emitted(s, inputs))
  {
    hide Step, Emitted, CountsRise, ChargedReturns;
    EveryWrittenLifeIsCharged(config, store, log, n);
    var host := At(NewHost(config, store), log, n);
    assert host == NewHost(log[n - 1].config, At(NewHost(config, store), log, n - 1).saving.store);
    var s := Opened(who, hostKey, roster, Some(host));
    BudgetBoundsTheSeals(s, inputs);
  }

  /** The count a store holds for this host, where it holds one. */
  function Stored(h: Host): nat {
    if OwnRecord(h.config, h.saving.store) && h.saving.store.value.frames.Some? then h.saving.store.value.frames.value else 0
  }

  /**
   A spent session is charged too: its first tick, before it closes and ends, has written the
   count it resumed, so the next return starts a whole charge above it.
   */
  lemma ASpentSessionsTickIsCharged(config: HostConfig, store: Option<Persisted>, who: Identity, hostKey: PublicKey,
                                    roster: set<Seat>, clock: nat, listing: seq<Path>, seals: bool)
    requires OwnRecord(config, store) && (store.value.frames.Some? ==> store.value.frames.value < U64_MAX)
    requires who.budget <= NewHost(config, store).saving.frames
    ensures var resumed := NewHost(config, store).saving.frames;
            var t := Tick(Opened(who, hostKey, roster, Some(NewHost(config, store))), clock, listing, seals);
            && t.host.Some? && resumed <= Stored(t.host.value)
            && NewHost(config, t.host.value.saving.store).saving.frames >= Saturated(resumed + ABSENCE_CHARGE)
  {
    hide HostSeat;
    var s := Opened(who, hostKey, roster, Some(NewHost(config, store)));
    var kept := Housekept(s, clock);
    AFirstFlushWrites(config, store, clock);
    assert Stored(kept.host.value) == NewHost(config, store).saving.frames;
  }
}
