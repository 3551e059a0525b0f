/**
 The theorems about runs, from a session's own beginning: a joiner's, or a host's that has minted
 its first state. Everything they ask of the session they start from is true of a new one.
 */
module Beginnings {
  import opened Options
  import opened Frames
  import opened Producer
  import opened Session
  import opened SessionFrames
  import opened Speculation
  import opened EditLedger
  import opened Flushes
  import opened EditJournal
  import opened Relay

  /** What a session is opened with: a host half, if it has one, comes straight from its store. */
  datatype Opening = Opening(who: Identity, hostKey: PublicKey, roster: set<Seat>, host: Option<Host>, listing: seq<Path>, seals: bool)

  predicate FromItsStore(o: Opening) {
    o.host.Some? ==> o.host.value == NewHost(o.host.value.config, o.host.value.saving.store)
  }

  /** `s` is a session that could be opened: a host's whose mint state was sealed, or a joiner's. */
  ghost predicate Begins(o: Opening, s: Session) {
    FromItsStore(o) && NewSession(o.who, o.hostKey, o.roster, o.host, o.listing, o.seals) == Some(s)
  }

  lemma BeforeTheMint(o: Opening)
    requires FromItsStore(o)
    ensures var b := Opened(o.who, o.hostKey, o.roster, o.host);
            Starts(b) && Erased(b) == b && b.wire.outbound == [] && b.wire.counter == 0 && b.who == o.who && b.replica.baseline.None?
    ensures Settled([]) == []
  {
    if o.host.None? {
      OpenedIsErased(o.who, o.hostKey, o.roster);
    }
  }

  /** A new session holds no edit and no speculation, and what it has queued is numbered from one. */
  lemma ANewSessionStarts(o: Opening, s: Session)
    requires Begins(o, s)
    ensures Starts(s) && Erased(s) == s && Numbered(s.wire.outbound, s.who.me, 0, s.wire.counter) && s.who == o.who
  {
    hide PublishState, Erased, Sane, Tentative, Numbered, Settled;
    BeforeTheMint(o);
    var b := Opened(o.who, o.hostKey, o.roster, o.host);
    assert s == PublishState(b, 0, Mint, o.listing, o.seals);
    StatePublishingExtends(b, 0, Mint, o.listing, o.seals);
    ExtendsMeans(b, s);
    assert Added(b, s) == s.wire.outbound;
    StatePublishingErases(b, 0, Mint, o.listing, o.seals);
    StatePublishingTentative(b, 0, Mint, o.listing, o.seals);
    StatePublishingMoves(b, 0, Mint, o.listing, o.seals);
    DeltasLength(s.replica.unsent);
  }

  /** From the first frame on, whoever opens it: speculation a viewer's state refuses was never there. */
  lemma ASessionsSpeculationLeavesNoTrace(o: Opening, s: Session, inputs: seq<Input>)
    requires Begins(o, s) && NeverAdopted(s, inputs)
    ensures Sane(s)
    ensures Erased(Run(s, inputs)) == Run(s, Without(s, inputs)) && Emitted(s, inputs) == Emitted(s, Without(s, inputs))
    ensures CommitsOurs(Run(s, inputs)) ==>
              var t := Run(s, inputs);
              t.(replica := t.replica.(epoch := 0)) == Run(s, Without(s, inputs))
  {
    hide Begins, NeverAdopted;
    ANewSessionStarts(o, s);
    SpeculationLeavesNoTrace(s, inputs);
    if CommitsOurs(Run(s, inputs)) {
      ResolvedSessionsAgree(s, inputs);
    }
  }

  /** Every edit a session ever takes is in its journal once, with the one fate it met. */
  lemma ASessionsEditsAreConserved(o: Opening, s: Session, inputs: seq<Input>)
    requires Begins(o, s)
    ensures Sane(s)
    ensures var t, j := Run(s, inputs), Journal(s, inputs);
            && EditsOf(j) == Taking(s, inputs)
            && OfFate(j, IsHeld) == Deltas(t.replica.unsent)
            && multiset(OfFate(j, WasPublished)) == multiset(Sent(Emitted(s, inputs)))
            && (AlwaysInOrder(s, inputs) <==> NeverOvertakes(s, inputs))
            && (NeverOvertakes(s, inputs) ==> OfFate(j, WasPublished) == Sent(Emitted(s, inputs)))
            && (o.who.unsealable == {} ==> NeverOvertakes(s, inputs) && Drained(t))
  {
    hide Begins, OfFate, EditsOf, Sent;
    ANewSessionStarts(o, s);
    EditsAreConserved(s, inputs);
    if o.who.unsealable == {} {
      SealedEditsKeepTheirOrder(s, inputs);
    }
  }

  /** Every frame a session's key ever signs, its mint's included, leaves in rising counter order. */
  lemma ASessionsFramesAreNumbered(o: Opening, s: Session, inputs: seq<Input>)
    requires Begins(o, s)
    ensures Sane(s)
    ensures Numbered(s.wire.outbound + Emitted(s, inputs), o.who.me, 0, Run(s, inputs).wire.counter)
  {
    hide Begins, Numbered;
    ANewSessionStarts(o, s);
    RunKeepsTheWire(s, inputs);
    JoinNumbered(s.wire.outbound, Emitted(s, inputs), s.who.me, 0, s.wire.counter, Run(s, inputs).wire.counter);
  }

  /** A new connection's relay, under every interleaving of its threads. */
  lemma ARelaysQueueIsInCounterOrder(o: Opening, s: Session, turns: seq<Turn>)
    requires Begins(o, s) && Runs(Shared(s, None, map[], [], false), turns)
    ensures var end := After(Shared(s, None, map[], [], false), turns);
            Numbered(end.queue, o.who.me, 0, end.session.wire.counter)
  {
    hide Begins, Numbered, Runs, After;
    ANewSessionStarts(o, s);
    StartsInOrder(s);
    QueueOrderIsCounterOrder(Shared(s, None, map[], [], false), turns);
  }
}
