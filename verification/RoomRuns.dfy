/**
 The room as a machine: a session moves, a frame arrives, or the relay loses one. A number that
 starts finite falls with every request and every answer any session seals.
 */
module RoomRuns {
  import opened Options
  import opened Arithmetic
  import opened Sums
  import opened Frames
  import opened Sealed
  import opened Producer
  import opened Session
  import opened SessionFrames
  import opened SyncDebts
  import opened Quiescence
  import opened Room

  /** The sessions, and for each ordered pair of them the frames on their way. */
  datatype Gathering = Gathering(sessions: seq<Session>, links: seq<seq<seq<Frame>>>)

  datatype Action =
    | Move(who: nat, input: Input)
    | Arrive(source: nat, who: nat, clock: nat, listing: seq<Path>, seals: bool)
    | Lose(source: nat, who: nat, at: nat)

  ghost predicate Shaped(g: Gathering) {
    |g.links| == |g.sessions| && forall i | 0 <= i < |g.links| :: |g.links[i]| == |g.sessions|
  }

  ghost predicate Enabled(g: Gathering, a: Action)
    requires Shaped(g)
  {
    a.who < |g.sessions| &&
    match a
    case Move(who, input) => Steady(g.sessions[who], input)
    case Arrive(source, who, _, _, _) => source < |g.sessions| && source != who && g.links[source][who] != []
    case Lose(source, who, at) => source < |g.sessions| && source != who && at < |g.links[source][who]|
  }

  /** What one session queues is put on the way to every other. */
  function Widened(row: seq<seq<Frame>>, who: nat, frames: seq<Frame>): seq<seq<Frame>> {
    seq(|row|, j requires 0 <= j < |row| => if j == who then row[j] else row[j] + frames)
  }

  ghost function Moved(g: Gathering, who: nat, t: Session): Gathering
    requires Shaped(g) && who < |g.sessions|
  {
    Gathering(g.sessions[who := Step(t, Taken)], g.links[who := Widened(g.links[who], who, t.wire.outbound)])
  }

  function Relinked(g: Gathering, source: nat, who: nat, link: seq<Frame>): Gathering
    requires source < |g.links| && who < |g.links[source]|
  {
    g.(links := g.links[source := g.links[source][who := link]])
  }

  /** The session an action moves, as it stands before its queue is drained. */
  ghost function Actor(g: Gathering, a: Action): Session
    requires Shaped(g) && Enabled(g, a)
  {
    match a
    case Move(who, input) => Step(g.sessions[who], input)
    case Arrive(source, who, clock, listing, seals) =>
      Step(g.sessions[who], Delivered(clock, g.links[source][who][0], listing, seals))
    case Lose(_, who, _) => g.sessions[who]
  }

  ghost function Act(g: Gathering, a: Action): Gathering
    requires Shaped(g) && Enabled(g, a)
  {
    match a
    case Move(who, _) => Moved(g, who, Actor(g, a))
    case Arrive(source, who, _, _, _) =>
      Moved(Relinked(g, source, who, g.links[source][who][1..]), who, Actor(g, a))
    case Lose(source, who, at) =>
      var link := g.links[source][who];
      Relinked(g, source, who, link[..at] + link[at + 1..])
  }

  /** The requests and answers an action seals. */
  ghost function SyncsSealed(g: Gathering, a: Action): nat
    requires Shaped(g) && Enabled(g, a)
  {
    if a.Lose? then 0 else Count(Actor(g, a).wire.outbound, IsSync)
  }

  // --- the standing state --------------------------------------------------------------------------

  /** What is on its way from one session to another will all be accepted, in its order. */
  ghost predicate InOrder(sender: Session, receiver: Session, link: seq<Frame>, e: nat) {
    && MarkOf(receiver.reader.marks, sender.who.me.id) <= sender.wire.counter
    && (forall f <- link :: Timely(receiver.reader, f, sender.who.me, e))
    && (forall f <- link | Marking(f) :: f.counter <= sender.wire.counter)
    && (forall i, j | 0 <= i < j < |link| && Marking(link[i]) && Marking(link[j]) :: link[i].counter < link[j].counter)
  }

  /** Every session holds the state of edition `e`, and nothing newer is on its way. */
  ghost predicate Standing(g: Gathering, e: nat) {
    && Shaped(g)
    && (forall i | 0 <= i < |g.sessions| ::
          var s := g.sessions[i];
          Holds(s, e) && s.wire.outbound == [] && s.reader.committed == g.sessions[0].reader.committed)
    && (forall i, j | 0 <= i < j < |g.sessions| :: g.sessions[i].who.me != g.sessions[j].who.me)
    && (|g.sessions| > 0 ==> DistinctIds(g.sessions[0].reader.committed))
    && (forall i, j | 0 <= i < |g.sessions| && 0 <= j < |g.sessions| && i != j ::
          InOrder(g.sessions[i], g.sessions[j], g.links[i][j], e))
  }

  /** A session that took a step under the standing state, as the rest of the room sees it. */
  ghost predicate Stepped(s: Session, t: Session, e: nat) {
    && Extends(s, t) && Holds(t, e) && t.who == s.who && t.reader.committed == s.reader.committed
    && s.reader.issued <= t.reader.issued
    && (forall f <- Added(s, t) :: Fair(f, s.who.me, s.reader.committed, e))
  }

  /** The frames a session adds join its queues in order. */
  lemma SendingKeepsOrder(s: Session, t: Session, receiver: Session, link: seq<Frame>, e: nat)
    requires Stepped(s, t, e) && InOrder(s, receiver, link, e)
    requires Holds(receiver, e) && receiver.reader.committed == s.reader.committed && CommitsOurs(s)
    requires s.wire.outbound == []
    ensures InOrder(t, receiver, link + t.wire.outbound, e)
  {
    hide Holds, Fair;
    HoldsEdition(receiver, e);
    var frames := t.wire.outbound;
    assert frames == Added(s, t);
    forall f <- link + frames
      ensures Timely(receiver.reader, f, t.who.me, e)
      ensures Marking(f) ==> f.counter <= t.wire.counter
    {
      if f !in link {
        assert f in frames;
      }
    }
  }

  lemma HoldsEdition(s: Session, e: nat)
    requires Holds(s, e)
    ensures e <= s.reader.issued && CommitsOurs(s)
  {
  }

  /** A receiver whose mark for the sender stands takes the same frames it would have. */
  lemma ReceivingKeepsOrder(sender: Session, s: Session, t: Session, link: seq<Frame>, e: nat)
    requires Stepped(s, t, e) && InOrder(sender, s, link, e)
    requires MarkOf(t.reader.marks, sender.who.me.id) == MarkOf(s.reader.marks, sender.who.me.id)
    ensures InOrder(sender, t, link, e)
  {
    hide Holds, Fair, Extends;
    forall f <- link ensures Timely(t.reader, f, sender.who.me, e) {
      assert Timely(s.reader, f, sender.who.me, e);
    }
  }

  /** The head of a queue heard, the rest of it is still in order. */
  lemma HearingKeepsOrder(sender: Session, s: Session, t: Session, link: seq<Frame>, e: nat)
    requires link != [] && Stepped(s, t, e) && InOrder(sender, s, link, e)
    requires MarksOnly(s.reader, t.reader, link[0], sender.who.me)
    ensures InOrder(sender, t, link[1..], e)
  {
    hide Holds, Fair, Extends;
    assert link[0] in link;
    forall f <- link[1..] ensures Timely(t.reader, f, sender.who.me, e) {
      assert f in link && Timely(s.reader, f, sender.who.me, e);
      var k :| 0 <= k < |link[1..]| && link[1..][k] == f;
      assert f == link[k + 1];
    }
  }

  lemma LosingKeepsOrder(sender: Session, receiver: Session, link: seq<Frame>, at: nat, e: nat)
    requires at < |link| && InOrder(sender, receiver, link, e)
    ensures InOrder(sender, receiver, link[..at] + link[at + 1..], e)
  {
    hide Timely;
    var left := link[..at] + link[at + 1..];
    forall k | 0 <= k < |left| ensures left[k] == link[if k < at then k else k + 1] {
    }
    forall f <- left ensures f in link {
    }
  }

  lemma Drained(t: Session, e: nat)
    requires Holds(t, e)
    ensures var d := Step(t, Taken);
            Holds(d, e) && d.wire.outbound == [] && d.who == t.who && d.reader == t.reader && d.wire.counter == t.wire.counter
            && d.debts == t.debts
  {
  }

  lemma DrainedInOrder(s: Session, t: Session, link: seq<Frame>, e: nat)
    requires Holds(s, e)
    ensures InOrder(s, t, link, e) ==> InOrder(Step(s, Taken), t, link, e)
    ensures InOrder(t, s, link, e) ==> InOrder(t, Step(s, Taken), link, e)
  {
    hide Holds, Timely;
    Drained(s, e);
  }

  /**
   One session's step, spread to the others, keeps the room standing. `after` is the room with
   the queues the step read from already shortened.
   */
  lemma MovingKeepsStanding(g: Gathering, after: Gathering, who: nat, t: Session, e: nat)
    requires Standing(g, e) && who < |g.sessions| && after.sessions == g.sessions && Shaped(after)
    requires Stepped(g.sessions[who], t, e)
    requires forall i | 0 <= i < |g.sessions| && i != who :: InOrder(g.sessions[i], t, after.links[i][who], e)
    requires forall i, j | 0 <= i < |g.sessions| && 0 <= j < |g.sessions| && j != who :: after.links[i][j] == g.links[i][j]
    ensures Standing(Moved(after, who, t), e)
  {
    hide Holds, InOrder, Stepped, Extends;
    var s := g.sessions[who];
    var next := Moved(after, who, t);
    SteppedMeans(s, t, e);
    Drained(t, e);
    forall i, j | 0 <= i < |g.sessions| && 0 <= j < |g.sessions| && i != j
      ensures InOrder(next.sessions[i], next.sessions[j], next.links[i][j], e)
    {
      if i == who {
        HoldsEdition(s, e);
        SendingKeepsOrder(s, t, g.sessions[j], g.links[who][j], e);
        DrainedInOrder(t, g.sessions[j], next.links[who][j], e);
      } else if j == who {
        DrainedInOrder(t, g.sessions[i], next.links[i][who], e);
      }
    }
  }

  lemma SteppedMeans(s: Session, t: Session, e: nat)
    requires Stepped(s, t, e)
    ensures Holds(t, e) && t.who == s.who && t.reader.committed == s.reader.committed
  {
  }

  // --- what the room may still seal ------------------------------------------------------------

  function Debts(g: Gathering): seq<nat> {
    seq(|g.sessions|, i requires 0 <= i < |g.sessions| => Owed(g.sessions[i]))
  }

  function RequestsIn(row: seq<seq<Frame>>): seq<nat> {
    seq(|row|, j requires 0 <= j < |row| => Count(row[j], AsksSync))
  }

  function InFlight(g: Gathering): seq<nat> {
    seq(|g.links|, i requires 0 <= i < |g.links| => Sum(RequestsIn(g.links[i])))
  }

  /** What the room may still come to seal in requests and answers. */
  function Potential(g: Gathering): nat {
    |g.sessions| * Sum(Debts(g)) + Sum(InFlight(g))
  }

  lemma SpreadingRaises(g: Gathering, who: nat, t: Session)
    requires Shaped(g) && who < |g.sessions|
    ensures var next := Moved(g, who, t);
            && Sum(Debts(next)) + Owed(g.sessions[who]) == Sum(Debts(g)) + Owed(t)
            && Sum(InFlight(next)) == Sum(InFlight(g)) + (|g.sessions| - 1) * Count(t.wire.outbound, AsksSync)
            && |next.sessions| == |g.sessions|
  {
    hide Owed;
    var next := Moved(g, who, t);
    assert Owed(Step(t, Taken)) == Owed(t) by { DrainingKeepsOwed(t); }
    SumSet(Debts(g), who, Owed(t));
    assert Debts(next) == Debts(g)[who := Owed(t)];
    var row, wide := g.links[who], next.links[who];
    forall j | 0 <= j < |row| && j != who
      ensures RequestsIn(wide)[j] == RequestsIn(row)[j] + Count(t.wire.outbound, AsksSync)
    {
      CountAdds(row[j], t.wire.outbound, AsksSync);
    }
    SumSpread(RequestsIn(row), RequestsIn(wide), who, Count(t.wire.outbound, AsksSync));
    SumSet(InFlight(g), who, Sum(RequestsIn(wide)));
    assert InFlight(next) == InFlight(g)[who := Sum(RequestsIn(wide))];
  }

  lemma DrainingKeepsOwed(t: Session)
    ensures Owed(Step(t, Taken)) == Owed(t)
  {
  }

  lemma RelinkingLowers(g: Gathering, source: nat, who: nat, link: seq<Frame>)
    requires Shaped(g) && source < |g.sessions| && who < |g.sessions|
    ensures var next := Relinked(g, source, who, link);
            && Sum(InFlight(next)) + Count(g.links[source][who], AsksSync) == Sum(InFlight(g)) + Count(link, AsksSync)
            && Debts(next) == Debts(g)
  {
    var next := Relinked(g, source, who, link);
    var row := g.links[source];
    SumSet(RequestsIn(row), who, Count(link, AsksSync));
    assert RequestsIn(next.links[source]) == RequestsIn(row)[who := Count(link, AsksSync)];
    SumSet(InFlight(g), source, Sum(RequestsIn(next.links[source])));
    assert InFlight(next) == InFlight(g)[source := Sum(RequestsIn(next.links[source]))];
  }

  /** The room's side of a step: a request costs its sender as much as it puts on the way. */
  lemma StepLowers(g: Gathering, who: nat, t: Session, drawn: nat)
    requires Shaped(g) && who < |g.sessions|
    requires var asked, syncs, owed := Count(t.wire.outbound, AsksSync), Count(t.wire.outbound, IsSync), Owed(g.sessions[who]);
             Owed(t) + asked <= owed && syncs + Owed(t) <= owed + drawn
    ensures Potential(Moved(g, who, t)) + Count(t.wire.outbound, IsSync) <= Potential(g) + drawn
  {
    hide Owed, Moved, Debts, InFlight, Count, Sum;
    SpreadingRaises(g, who, t);
    var next := Moved(g, who, t);
    Balance(|g.sessions|, Sum(Debts(g)), Sum(Debts(next)), Sum(InFlight(g)), Owed(g.sessions[who]), Owed(t),
            Count(t.wire.outbound, AsksSync), Count(t.wire.outbound, IsSync), drawn);
  }

  lemma Balance(n: nat, before: nat, after: nat, flight: nat, owedBefore: nat, owedAfter: nat,
                asked: nat, syncs: nat, drawn: nat)
    requires 0 < n && after + owedBefore == before + owedAfter
    requires owedAfter + asked <= owedBefore && syncs + owedAfter <= owedBefore + drawn
    ensures n * after + flight + (n - 1) * asked + syncs <= n * before + flight + drawn
  {
    var fall := owedBefore - owedAfter;
    Distribute(n, after, fall);
    Times(asked, fall, n - 1);
    assert n * fall == (n - 1) * fall + fall;
  }

  // --- one action --------------------------------------------------------------------------------

  lemma MoveKeeps(g: Gathering, who: nat, input: Input, e: nat)
    requires Standing(g, e) && Enabled(g, Move(who, input))
    ensures var a := Move(who, input);
            Standing(Act(g, a), e) && Potential(Act(g, a)) + SyncsSealed(g, a) <= Potential(g)
  {
    hide Step, Steady, Holds, InOrder, Potential, Extends, Pays;
    var s, t := g.sessions[who], Step(g.sessions[who], input);
    SteadyStepPays(s, input, e);
    PaysIsAStep(s, t, e);
    forall i | 0 <= i < |g.sessions| && i != who ensures InOrder(g.sessions[i], t, g.links[i][who], e) {
      ReceivingKeepsOrder(g.sessions[i], s, t, g.links[i][who], e);
    }
    MovingKeepsStanding(g, g, who, t, e);
    StepLowers(g, who, t, 0);
  }

  lemma PaysIsAStep(s: Session, t: Session, e: nat)
    requires Pays(s, t, 0, e) && Holds(s, e) && s.wire.outbound == []
    ensures Stepped(s, t, e) && t.reader == s.reader
    ensures Owed(t) + Count(t.wire.outbound, AsksSync) <= Owed(s)
    ensures Count(t.wire.outbound, IsSync) + Owed(t) <= Owed(s)
  {
    hide Owed, Holds, Fair;
    PaysMeans(s, t, 0, e);
    assert Added(s, t) == t.wire.outbound;
  }

  lemma HeardIsAStep(s: Session, t: Session, frame: Frame, peer: PublicKey, e: nat)
    requires Heard(s, t, frame, peer, e) && s.wire.outbound == []
    ensures Stepped(s, t, e) && MarksOnly(s.reader, t.reader, frame, peer)
    ensures Owed(t) + Count(t.wire.outbound, AsksSync) <= Owed(s)
    ensures Count(t.wire.outbound, IsSync) + Owed(t) <= Owed(s) + One(AsksSync(frame))
  {
    hide Owed, Holds, Fair;
    assert Added(s, t) == t.wire.outbound;
  }

  lemma ArrivalKeeps(g: Gathering, a: Action, e: nat)
    requires Standing(g, e) && a.Arrive? && Enabled(g, a)
    ensures Standing(Act(g, a), e)
  {
    hide Step, Holds, InOrder, Extends, MarksOnly, Stepped;
    var source, who := a.source, a.who;
    var link := g.links[source][who];
    var sender, s := g.sessions[source], g.sessions[who];
    var t := Actor(g, a);
    ArrivalIsAStep(g, a, e);
    var shortened := Relinked(g, source, who, link[1..]);
    forall i | 0 <= i < |g.sessions| && i != who
      ensures InOrder(g.sessions[i], t, shortened.links[i][who], e)
    {
      if i == source {
        HearingKeepsOrder(sender, s, t, link, e);
      } else {
        OtherMarksStand(g, i, source, s, t, link[0], e);
        ReceivingKeepsOrder(g.sessions[i], s, t, g.links[i][who], e);
      }
    }
    MovingKeepsStanding(g, shortened, who, t, e);
  }

  lemma ArrivalLowers(g: Gathering, a: Action, e: nat)
    requires Standing(g, e) && a.Arrive? && Enabled(g, a)
    ensures Potential(Act(g, a)) + SyncsSealed(g, a) <= Potential(g)
  {
    hide Step, Holds, InOrder, Potential, Owed;
    var source, who := a.source, a.who;
    var link := g.links[source][who];
    var shortened := Relinked(g, source, who, link[1..]);
    ArrivalIsAStep(g, a, e);
    RelinkingLowers(g, source, who, link[1..]);
    CountAdds([link[0]], link[1..], AsksSync);
    CountOne(link[0], AsksSync);
    assert link == [link[0]] + link[1..];
    StepLowers(shortened, who, Actor(g, a), One(AsksSync(link[0])));
    SameDebts(g, shortened);
  }

  lemma ArrivalIsAStep(g: Gathering, a: Action, e: nat)
    requires Standing(g, e) && a.Arrive? && Enabled(g, a)
    ensures var link, s, t := g.links[a.source][a.who], g.sessions[a.who], Actor(g, a);
            && Stepped(s, t, e) && MarksOnly(s.reader, t.reader, link[0], g.sessions[a.source].who.me)
            && Owed(t) + Count(t.wire.outbound, AsksSync) <= Owed(s)
            && Count(t.wire.outbound, IsSync) + Owed(t) <= Owed(s) + One(AsksSync(link[0]))
  {
    hide Deliver, Holds, InOrder, Heard, MarksOnly, Stepped, Owed, Count;
    var link, s := g.links[a.source][a.who], g.sessions[a.who];
    var sender := g.sessions[a.source];
    HeadIsTimely(sender, s, link, e);
    DeliveringHears(s, a.clock, link[0], a.listing, a.seals, sender.who.me, e);
    HeardIsAStep(s, Actor(g, a), link[0], sender.who.me, e);
  }

  lemma SameDebts(g: Gathering, h: Gathering)
    requires h.sessions == g.sessions
    ensures Debts(h) == Debts(g)
    ensures Potential(h) == Potential(g) - Sum(InFlight(g)) + Sum(InFlight(h))
  {
  }

  lemma HeadIsTimely(sender: Session, receiver: Session, link: seq<Frame>, e: nat)
    requires InOrder(sender, receiver, link, e) && link != []
    ensures Timely(receiver.reader, link[0], sender.who.me, e)
  {
    assert link[0] in link;
  }

  lemma OtherMarksStand(g: Gathering, i: nat, source: nat, s: Session, t: Session, frame: Frame, e: nat)
    requires Standing(g, e) && i < |g.sessions| && source < |g.sessions| && i != source
    requires s.reader.committed == g.sessions[0].reader.committed
    requires MarksOnly(s.reader, t.reader, frame, g.sessions[source].who.me)
    ensures MarkOf(t.reader.marks, g.sessions[i].who.me.id) == MarkOf(s.reader.marks, g.sessions[i].who.me.id)
  {
    hide Holds, InOrder;
    HoldsEdition(g.sessions[i], e);
    HoldsEdition(g.sessions[source], e);
    var mine, theirs := g.sessions[i].who.me, g.sessions[source].who.me;
    assert mine != theirs by {
      if i < source { assert g.sessions[i].who.me != g.sessions[source].who.me; }
    }
    assert mine in s.reader.committed && theirs in s.reader.committed;
    assert mine.id in CommittedIds(s.reader.committed);
  }

  lemma LossKeeps(g: Gathering, a: Action, e: nat)
    requires Standing(g, e) && a.Lose? && Enabled(g, a)
    ensures Standing(Act(g, a), e)
  {
    hide Holds, InOrder;
    var link := g.links[a.source][a.who];
    var next := Act(g, a);
    LosingKeepsOrder(g.sessions[a.source], g.sessions[a.who], link, a.at, e);
    forall i, j | 0 <= i < |g.sessions| && 0 <= j < |g.sessions| && i != j
      ensures InOrder(next.sessions[i], next.sessions[j], next.links[i][j], e)
    {
      if i == a.source && j == a.who {
        assert next.links[i][j] == link[..a.at] + link[a.at + 1..];
      } else {
        assert next.links[i][j] == g.links[i][j];
      }
    }
  }

  lemma LossLowers(g: Gathering, a: Action)
    requires Shaped(g) && a.Lose? && Enabled(g, a)
    ensures Potential(Act(g, a)) <= Potential(g)
  {
    hide Potential;
    var link := g.links[a.source][a.who];
    var left := link[..a.at] + link[a.at + 1..];
    RelinkingLowers(g, a.source, a.who, left);
    LosingLowersCount(link, a.at);
    SameDebts(g, Act(g, a));
  }

  lemma LosingLowersCount(link: seq<Frame>, at: nat)
    requires at < |link|
    ensures Count(link[..at] + link[at + 1..], AsksSync) <= Count(link, AsksSync)
  {
    hide Count, AsksSync;
    CountAdds(link[..at], link[at + 1..], AsksSync);
    CountAdds(link[..at], link[at..], AsksSync);
    CountAdds([link[at]], link[at + 1..], AsksSync);
    assert link == link[..at] + link[at..] && link[at..] == [link[at]] + link[at + 1..];
  }

  /** The room stays standing, and every request or answer sealed is paid for. */
  lemma ActionKeeps(g: Gathering, a: Action, e: nat)
    requires Standing(g, e) && Enabled(g, a)
    ensures Standing(Act(g, a), e) && Potential(Act(g, a)) + SyncsSealed(g, a) <= Potential(g)
  {
    hide Standing, Potential, Enabled;
    match a
    case Move(who, input) => MoveKeeps(g, who, input, e);
    case Arrive(_, _, _, _, _) =>
      ArrivalKeeps(g, a, e);
      ArrivalLowers(g, a, e);
    case Lose(_, _, _) =>
      LossKeeps(g, a, e);
      StandingIsShaped(g, e);
      LossLowers(g, a);
  }

  lemma StandingIsShaped(g: Gathering, e: nat)
    requires Standing(g, e)
    ensures Shaped(g)
  {
  }

  // --- whole runs ----------------------------------------------------------------------------------

  ghost predicate Possible(g: Gathering, run: seq<Action>)
    ensures Possible(g, run) && run != [] ==> Shaped(g)
    decreases |run|
  {
    run != [] ==> Shaped(g) && Enabled(g, run[0]) && Possible(Act(g, run[0]), run[1..])
  }

  ghost function After(g: Gathering, run: seq<Action>): Gathering
    requires Possible(g, run)
    decreases |run|
  {
    if run == [] then g else After(Act(g, run[0]), run[1..])
  }

  /** Every request and answer the sessions of a run seal between them. */
  ghost function Traffic(g: Gathering, run: seq<Action>): nat
    requires Possible(g, run)
    decreases |run|
  {
    if run == [] then 0 else SyncsSealed(g, run[0]) + Traffic(Act(g, run[0]), run[1..])
  }

  /**
   Quiescence: however long a room holding one state runs, in whatever order its sessions move,
   its frames arrive and its relay loses them, the requests and answers sealed between them never
   exceed the potential it began with.
   */
  lemma {:induction false} ARoomFallsSilent(g: Gathering, run: seq<Action>, e: nat)
    requires Standing(g, e) && Possible(g, run)
    ensures Standing(After(g, run), e)
    ensures Potential(After(g, run)) + Traffic(g, run) <= Potential(g)
    decreases |run|
  {
    hide Standing, Potential, Act, Enabled, SyncsSealed;
    if run != [] {
      ActionKeeps(g, run[0], e);
      ARoomFallsSilent(Act(g, run[0]), run[1..], e);
    }
  }

  lemma OwesAtMost(s: Session)
    requires s.debts.pending <= Writers(s.reader.committed)
    ensures Owed(s) <= 2 * |Writers(s.reader.committed)| + 3
  {
    var writers := Writers(s.reader.committed);
    assert writers == (writers - s.debts.served) + (writers * s.debts.served);
    assert writers == s.debts.pending + (writers - s.debts.pending);
  }

  /**
   The number itself: `n` sessions that owe requests to writers only, with nothing on its way,
   exchange at most `n * n * (2w + 3)` requests and answers, `w` being the writers of the state.
   */
  lemma TrafficIsBounded(g: Gathering, run: seq<Action>, e: nat, writers: nat)
    requires Standing(g, e) && Possible(g, run)
    requires forall i, j | 0 <= i < |g.sessions| && 0 <= j < |g.sessions| :: g.links[i][j] == []
    requires forall i | 0 <= i < |g.sessions| ::
               var s := g.sessions[i];
               s.debts.pending <= Writers(s.reader.committed) && |Writers(s.reader.committed)| == writers
    ensures Traffic(g, run) <= |g.sessions| * (|g.sessions| * (2 * writers + 3))
  {
    hide Act, Enabled, Owed, Writers;
    ARoomFallsSilent(g, run, e);
    var most := 2 * writers + 3;
    forall i | 0 <= i < |g.sessions| ensures Owed(g.sessions[i]) <= most {
      OwesAtMost(g.sessions[i]);
    }
    SumAtMost(Debts(g), most);
    Times(Sum(Debts(g)), |g.sessions| * most, |g.sessions|);
    forall i | 0 <= i < |g.links| ensures Sum(RequestsIn(g.links[i])) <= 0 {
      SumAtMost(RequestsIn(g.links[i]), 0);
    }
    SumAtMost(InFlight(g), 0);
  }

  /** In every such run, every content frame that arrives is accepted from the peer that sent it. */
  lemma NoContentIsEverRefused(g: Gathering, run: seq<Action>, a: Action, e: nat)
    requires Standing(g, e) && Possible(g, run)
    requires var h := After(g, run); Shaped(h) && Enabled(h, a) && a.Arrive?
    ensures var h := After(g, run);
            var frame := h.links[a.source][a.who][0];
            frame.Frame? && (frame.kind == 0 ==>
              Judge(h.sessions[a.who].reader, frame) == Accepted(0, h.sessions[a.source].who.me, frame.counter, frame.body))
  {
    hide Act, Judge, Holds;
    ARoomFallsSilent(g, run, e);
    var h := After(g, run);
    var link := h.links[a.source][a.who];
    HeadIsTimely(h.sessions[a.source], h.sessions[a.who], link, e);
    NothingIsRefused(h.sessions[a.who].reader, link[0], h.sessions[a.source].who.me, e);
  }
}
