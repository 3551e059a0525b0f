/**
 Why a room that has fallen silent agrees: while every atom some replica lacks is on its way to it,
 or asked for by a request that a writer holding it has yet to hear, emptying the queues leaves
 every session with the same document.
 */
module RoomAgreement {
  import opened Options
  import opened Replica
  import opened Frames
  import opened Sealed
  import Producer
  import opened Session
  import opened SessionFrames
  import opened Speculation
  import opened Quiescence
  import opened Room
  import opened RoomRuns
  import opened Sharing

  function DocOf(g: Gathering, i: nat): Doc
    requires i < |g.sessions|
  {
    g.sessions[i].replica.doc
  }

  predicate AsksFor(frames: seq<Frame>, a: Atom) {
    exists f <- frames :: Asks(f, a)
  }

  /** Session `k` will bring `a` to `j`: it is on the way, or a request for it is. */
  ghost predicate Brings(g: Gathering, k: nat, j: nat, a: Atom)
    requires Shaped(g) && k < |g.sessions| && j < |g.sessions|
  {
    k != j && (a in CarriedBy(g.links[k][j]) || (a in DocOf(g, k) && IsWriter(g.sessions[k]) && AsksFor(g.links[j][k], a)))
  }

  ghost predicate Due(g: Gathering, j: nat, a: Atom)
    requires Shaped(g) && j < |g.sessions|
  {
    exists k | 0 <= k < |g.sessions| :: Brings(g, k, j, a)
  }

  /** Whatever one replica holds, another holds too or is due; and nobody sends what it lacks. */
  ghost predicate Accounted(g: Gathering)
    requires Shaped(g)
  {
    && (forall i | 0 <= i < |g.sessions| :: g.sessions[i].replica.baseline.None?)
    && (forall k, j | 0 <= k < |g.sessions| && 0 <= j < |g.sessions| && k != j :: CarriedBy(g.links[k][j]) <= DocOf(g, k))
    && (forall i, j, a | 0 <= i < |g.sessions| && 0 <= j < |g.sessions| && a in DocOf(g, i) && a !in DocOf(g, j) :: Due(g, j, a))
  }

  // --- one action ----------------------------------------------------------------------------

  /** What a step of session `who` does to the room, `link` being the frames it heard the head of. */
  ghost predicate Shares(g: Gathering, who: nat, t: Session, heard: seq<Frame>)
    requires Shaped(g) && who < |g.sessions|
  {
    var s := g.sessions[who];
    && s.wire.outbound == [] && Spreads(s, t, CarriedBy(heard))
    && (forall f <- heard :: Answers(s, t, f)) && (IsWriter(s) ==> IsWriter(t))
  }

  lemma SharesMeans(g: Gathering, who: nat, t: Session, heard: seq<Frame>)
    requires Shaped(g) && who < |g.sessions| && Shares(g, who, t, heard)
    ensures t.replica.baseline.None? && (IsWriter(g.sessions[who]) ==> IsWriter(t))
    ensures DocOf(g, who) + CarriedBy(heard) + CarriedBy(t.wire.outbound) == t.replica.doc
    ensures IsWriter(g.sessions[who]) ==>
              forall f <- heard, a <- DocOf(g, who) | Asks(f, a) :: a in CarriedBy(t.wire.outbound)
  {
    hide Extends;
    ExtendsPrefix(g.sessions[who], t);
    assert Added(g.sessions[who], t) == t.wire.outbound;
  }

  lemma ExtendsPrefix(s: Session, t: Session)
    requires Extends(s, t)
    ensures s.wire.outbound <= t.wire.outbound
  {
  }

  /** `next` is `g` after session `who` has heard `heard` off its queue from `source` and become `t`. */
  ghost predicate Follows(g: Gathering, next: Gathering, source: nat, who: nat, t: Session, heard: seq<Frame>)
    requires Shaped(g) && Shaped(next) && who < |g.sessions| && source < |g.sessions|
  {
    && |next.sessions| == |g.sessions|
    && next.sessions[who].replica == t.replica && (IsWriter(t) ==> IsWriter(next.sessions[who]))
    && (forall i | 0 <= i < |g.sessions| && i != who :: next.sessions[i] == g.sessions[i])
    && (forall j | 0 <= j < |g.sessions| && j != who :: next.links[who][j] == g.links[who][j] + t.wire.outbound)
    && (forall k, j | 0 <= k < |g.sessions| && 0 <= j < |g.sessions| && k != who && k != j ::
          g.links[k][j] == (if k == source && j == who then heard else []) + next.links[k][j])
    && (heard != [] ==> source != who)
  }

  /** Nothing due is lost: what was heard has arrived, and a request heard has its answer on the way. */
  lemma DueKeeps(g: Gathering, next: Gathering, source: nat, who: nat, t: Session, heard: seq<Frame>, j: nat, a: Atom)
    requires Shaped(g) && Shaped(next) && who < |g.sessions| && source < |g.sessions|
    requires Follows(g, next, source, who, t, heard) && Shares(g, who, t, heard)
    requires j < |g.sessions| && Due(g, j, a)
    ensures a in DocOf(next, j) || Due(next, j, a)
  {
    hide Shares;
    SharesMeans(g, who, t, heard);
    var k :| 0 <= k < |g.sessions| && Brings(g, k, j, a);
    QueuesKeep(g, next, source, who, t, heard, k, j);
    if a in CarriedBy(g.links[k][j]) {
      CarriedAdds(heard, next.links[k][j]);
      if a !in DocOf(next, j) {
        assert Brings(next, k, j, a);
      }
    } else {
      QueuesKeep(g, next, source, who, t, heard, j, k);
      var f :| f in g.links[j][k] && Asks(f, a);
      if f in next.links[j][k] {
        assert Brings(next, k, j, a);
      } else {
        assert k == who && f in heard;
        CarriedAdds(g.links[k][j], t.wire.outbound);
        assert Brings(next, k, j, a);
      }
    }
  }

  /** A queue keeps every frame that the step did not hear. */
  lemma QueuesKeep(g: Gathering, next: Gathering, source: nat, who: nat, t: Session, heard: seq<Frame>, k: nat, j: nat)
    requires Shaped(g) && Shaped(next) && who < |g.sessions| && source < |g.sessions|
    requires Follows(g, next, source, who, t, heard)
    requires k < |g.sessions| && j < |g.sessions| && k != j
    ensures if k == source && j == who then g.links[k][j] == heard + next.links[k][j]
            else if k == who then next.links[k][j] == g.links[k][j] + t.wire.outbound
            else next.links[k][j] == g.links[k][j]
  {
    if k == who {
      assert next.links[who][j] == g.links[who][j] + t.wire.outbound;
    } else {
      assert g.links[k][j] == (if k == source && j == who then heard else []) + next.links[k][j];
    }
  }

  lemma SharingKeeps(g: Gathering, next: Gathering, source: nat, who: nat, t: Session, heard: seq<Frame>)
    requires Shaped(g) && Shaped(next) && who < |g.sessions| && source < |g.sessions|
    requires Follows(g, next, source, who, t, heard) && Shares(g, who, t, heard) && Accounted(g)
    ensures Accounted(next)
  {
    hide Shares, CarriedBy, Due, Brings;
    SharesMeans(g, who, t, heard);
    forall k, j | 0 <= k < |g.sessions| && 0 <= j < |g.sessions| && k != j
      ensures CarriedBy(next.links[k][j]) <= DocOf(next, k)
    {
      QueuesKeep(g, next, source, who, t, heard, k, j);
      if k == who {
        CarriedAdds(g.links[k][j], t.wire.outbound);
      } else if k == source && j == who {
        CarriedAdds(heard, next.links[k][j]);
      }
    }
    forall i, j, a | 0 <= i < |g.sessions| && 0 <= j < |g.sessions| && a in DocOf(next, i) && a !in DocOf(next, j)
      ensures Due(next, j, a)
    {
      HeardIsHeld(g, next, source, who, t, heard);
      assert DocOf(g, j) <= DocOf(next, j);
      if a in DocOf(g, i) || a in CarriedBy(heard) {
        DueKeeps(g, next, source, who, t, heard, j, a);
      } else {
        CarriedAdds(g.links[who][j], t.wire.outbound);
        SentIsDue(next, who, j, a);
      }
    }
  }

  lemma SentIsDue(g: Gathering, k: nat, j: nat, a: Atom)
    requires Shaped(g) && k < |g.sessions| && j < |g.sessions| && k != j && a in CarriedBy(g.links[k][j])
    ensures Due(g, j, a)
  {
    assert Brings(g, k, j, a);
  }

  lemma HeardIsHeld(g: Gathering, next: Gathering, source: nat, who: nat, t: Session, heard: seq<Frame>)
    requires Shaped(g) && Shaped(next) && who < |g.sessions| && source < |g.sessions|
    requires Follows(g, next, source, who, t, heard) && Accounted(g)
    ensures CarriedBy(heard) <= DocOf(g, source)
  {
    if heard != [] {
      QueuesKeep(g, next, source, who, t, heard, source, who);
      CarriedAdds(heard, next.links[source][who]);
    }
  }

  // --- actions and runs ------------------------------------------------------------------------

  ghost predicate AllWorking(g: Gathering) {
    forall i | 0 <= i < |g.sessions| :: Working(g.sessions[i])
  }

  /** A session that still works worked before: an ending and a spent budget are for good. */
  lemma WorkingBefore(s: Session, t: Session)
    requires Extends(s, t) && (s.ending.Some? ==> t.ending.Some?) && Working(t)
    ensures Working(s)
  {
  }

  lemma DrainingKeepsWork(t: Session)
    ensures var d := Step(t, Taken);
            (Working(d) <==> Working(t)) && d.replica == t.replica && d.reader == t.reader && d.who == t.who
  {
  }

  lemma MoveShares(g: Gathering, a: Action, e: nat)
    requires Standing(g, e) && a.Move? && Enabled(g, a) && Accounted(g) && Working(Actor(g, a))
    ensures Shares(g, a.who, Actor(g, a), [])
  {
    hide Step, Steady, InOrder, CarriedBy, Extends, Pays, Spreads;
    var s := g.sessions[a.who];
    CommitsMeans(s, e);
    HoldsMeans(s, e);
    SteadyStepPays(s, a.input, e);
    PaysIsAStep(s, Actor(g, a), e);
    SteppedReads(s, Actor(g, a), e);
    assert CarriedBy([]) == {} by { CarriedByNone(); }
    if a.input.Inserted? {
      InsertIsAStep(s, a.input);
      InsertingSpreads(s, a.input.payload, a.input.fits);
    } else {
      SteadyStepQuiet(s, a.input);
      QuietSpreads(s, Actor(g, a));
    }
  }

  lemma InsertIsAStep(s: Session, i: Input)
    requires i.Inserted?
    ensures Step(s, i) == Insert(s, i.payload, i.fits)
  {
  }

  lemma CarriedByNone()
    ensures CarriedBy([]) == {}
  {
  }

  lemma SteppedReads(s: Session, t: Session, e: nat)
    requires Stepped(s, t, e)
    ensures Extends(s, t) && (IsWriter(s) <==> IsWriter(t))
  {
  }

  lemma ArrivalShares(g: Gathering, a: Action, e: nat)
    requires Standing(g, e) && a.Arrive? && Enabled(g, a) && Accounted(g) && Working(Actor(g, a))
    ensures Shares(g, a.who, Actor(g, a), [g.links[a.source][a.who][0]])
  {
    hide Deliver, InOrder, CarriedBy, Extends, Holds, Spreads, Stepped, MarksOnly;
    var s, link := g.sessions[a.who], g.links[a.source][a.who];
    var sender := g.sessions[a.source];
    HeadIsTimely(sender, s, link, e);
    DeliveringSpreads(s, a.clock, link[0], a.listing, a.seals, sender.who.me, e);
    ArrivalIsAStep(g, a, e);
    SteppedReads(s, Actor(g, a), e);
    CarriedByOne(link[0]);
  }

  /** One action of a room that loses nothing keeps every atom accounted for. */
  lemma ActionAccounts(g: Gathering, a: Action, e: nat)
    requires Standing(g, e) && Enabled(g, a) && !a.Lose? && Accounted(g) && Working(Actor(g, a))
    ensures Shaped(Act(g, a)) && Accounted(Act(g, a))
  {
    hide Step, Standing, Accounted, Shares, Steady;
    StandingIsShaped(g, e);
    var t, next := Actor(g, a), Act(g, a);
    DrainingKeepsWork(t);
    if a.Move? {
      MoveShares(g, a, e);
      SharingKeeps(g, next, a.who, a.who, t, []);
    } else {
      ArrivalShares(g, a, e);
      var link := g.links[a.source][a.who];
      assert link == [link[0]] + link[1..];
      SharingKeeps(g, next, a.source, a.who, t, [link[0]]);
    }
  }

  predicate Lossless(run: seq<Action>) {
    forall a <- run :: !a.Lose?
  }

  /** What still works after an action worked before it, the actor on the way too. */
  lemma ActionKeepsWork(g: Gathering, a: Action, e: nat)
    requires Standing(g, e) && Enabled(g, a) && !a.Lose? && AllWorking(Act(g, a))
    ensures Working(Actor(g, a))
  {
    hide Step, Standing, Steady;
    StandingIsShaped(g, e);
    DrainingKeepsWork(Actor(g, a));
    assert Working(Act(g, a).sessions[a.who]);
  }

  lemma InsertingKeepsEnding(s: Session, payload: string, fits: bool)
    ensures Insert(s, payload, fits).ending == s.ending
  {
    hide Diff, StateVector, NextClock;
  }

  lemma HearingStaysEnded(s: Session, clock: nat, frame: Frame, listing: seq<Path>, seals: bool, peer: PublicKey, e: nat)
    requires Holds(s, e) && Timely(s.reader, frame, peer, e)
    ensures s.ending.Some? ==> Deliver(s, clock, frame, listing, seals).ending.Some?
  {
    hide Judge, ApplyContent, AfterState, PublishState, Producer.Announce, Read;
    NothingIsRefused(s.reader, frame, peer, e);
    KnownKinds(s.reader, frame, peer, e);
    if frame.kind == 0 {
      ReadingKeepsEnding(Received(s, frame), frame.body.messages, peer);
    }
  }

  lemma ReadingKeepsEnding(s: Session, messages: seq<Message>, peer: PublicKey)
    ensures ApplyContent(s, messages, peer).ending == s.ending
  {
    hide ApplyStream, SendReplies, Writers;
    var answers := MayPublish(s) && IsWriter(s);
    var read := ApplyStream(PublicationDoc(s), answers, messages);
    var t := ReadInto(s, messages, answers);
    ReplyingKeepsReplica(if read.requested then ArmReciprocal(t, peer) else t, read.replies);
  }

  lemma ActorWorkedBefore(g: Gathering, a: Action, e: nat)
    requires Standing(g, e) && Enabled(g, a) && !a.Lose? && Working(Actor(g, a))
    ensures Working(g.sessions[a.who])
  {
    hide Step, Steady, InOrder, Extends, Pays, Quiet;
    var s, t := g.sessions[a.who], Actor(g, a);
    CommitsMeans(s, e);
    if a.Arrive? {
      var link := g.links[a.source][a.who];
      HeadIsTimely(g.sessions[a.source], s, link, e);
      ArrivalIsAStep(g, a, e);
      SteppedReads(s, t, e);
      HearingStaysEnded(s, a.clock, link[0], a.listing, a.seals, g.sessions[a.source].who.me, e);
      DeliveringIsAStep(s, a.clock, link[0], a.listing, a.seals);
    } else {
      SteadyStepPays(s, a.input, e);
      PaysIsAStep(s, t, e);
      SteppedReads(s, t, e);
      if a.input.Inserted? {
        InsertIsAStep(s, a.input);
        InsertingKeepsEnding(s, a.input.payload, a.input.fits);
      } else {
        SteadyStepQuiet(s, a.input);
        QuietStaysEnded(s, t);
      }
    }
    WorkingBefore(s, t);
  }

  lemma DeliveringIsAStep(s: Session, clock: nat, frame: Frame, listing: seq<Path>, seals: bool)
    ensures Step(s, Delivered(clock, frame, listing, seals)) == Deliver(s, clock, frame, listing, seals)
  {
  }

  lemma QuietStaysEnded(s: Session, t: Session)
    requires Quiet(s, t)
    ensures s.ending.Some? ==> t.ending.Some?
  {
  }

  lemma ActionWorkedBefore(g: Gathering, a: Action, e: nat)
    requires Standing(g, e) && Enabled(g, a) && !a.Lose? && AllWorking(Act(g, a))
    ensures AllWorking(g)
  {
    hide Step, Standing, Steady;
    StandingIsShaped(g, e);
    ActionKeepsWork(g, a, e);
    ActorWorkedBefore(g, a, e);
    forall i | 0 <= i < |g.sessions| && i != a.who ensures Working(g.sessions[i]) {
      assert Act(g, a).sessions[i] == g.sessions[i];
    }
  }

  lemma {:induction false} RunWorked(g: Gathering, run: seq<Action>, e: nat)
    requires Standing(g, e) && Possible(g, run) && Lossless(run) && AllWorking(After(g, run))
    ensures AllWorking(g)
    decreases |run|
  {
    hide Standing, Act, Enabled, AllWorking;
    if run != [] {
      assert run[0] in run;
      ActionKeeps(g, run[0], e);
      RunWorked(Act(g, run[0]), run[1..], e);
      ActionWorkedBefore(g, run[0], e);
    }
  }

  lemma {:induction false} RunAccounts(g: Gathering, run: seq<Action>, e: nat)
    requires Standing(g, e) && Possible(g, run) && Lossless(run) && AllWorking(After(g, run))
    requires Shaped(g) && Accounted(g)
    ensures Standing(After(g, run), e) && Shaped(After(g, run)) && Accounted(After(g, run))
    decreases |run|
  {
    hide Standing, Act, Enabled, AllWorking, Accounted, Shaped, Actor;
    if run != [] {
      assert run[0] in run;
      ActionKeeps(g, run[0], e);
      RunWorked(Act(g, run[0]), run[1..], e);
      ActionKeepsWork(g, run[0], e);
      ActionAccounts(g, run[0], e);
      RunAccounts(Act(g, run[0]), run[1..], e);
    }
  }

  /**
   Agreement: let a room that holds one state, and whose replicas' differences are all accounted
   for, run in any order, losing nothing. If its sessions still work and their queues are empty,
   every replica is the same; and the requests and answers it took never passed the potential.
   */
  lemma ASilentRoomAgrees(g: Gathering, run: seq<Action>, e: nat)
    requires Standing(g, e) && Possible(g, run) && Lossless(run) && Shaped(g) && Accounted(g)
    requires AllWorking(After(g, run)) && NothingOnItsWay(After(g, run))
    ensures var h := After(g, run);
            && (forall i, j | 0 <= i < |h.sessions| && 0 <= j < |h.sessions| :: DocOf(h, i) == DocOf(h, j))
            && Traffic(g, run) <= Potential(g)
  {
    hide Standing, Possible, After, Potential, Traffic, AllWorking;
    RunAccounts(g, run, e);
    ARoomFallsSilent(g, run, e);
    var h := After(g, run);
    forall i, j | 0 <= i < |h.sessions| && 0 <= j < |h.sessions| ensures DocOf(h, i) <= DocOf(h, j) {
      forall a | a in DocOf(h, i) ensures a in DocOf(h, j) {
        EmptyQueuesBringNothing(h, j, a);
      }
    }
  }

  ghost predicate NothingOnItsWay(g: Gathering) {
    Shaped(g) && forall k, j | 0 <= k < |g.sessions| && 0 <= j < |g.sessions| && k != j :: g.links[k][j] == []
  }

  lemma EmptyQueuesBringNothing(g: Gathering, j: nat, a: Atom)
    requires NothingOnItsWay(g) && j < |g.sessions|
    ensures !Due(g, j, a)
  {
  }

  /**
   What makes a room accounted for: replicas without gaps that agree where they overlap, and a
   request with each one's own vector on its way to every writer, as a first state sends it.
   */
  lemma AnAskedRoomIsAccounted(g: Gathering)
    requires Shaped(g)
    requires forall i | 0 <= i < |g.sessions| :: g.sessions[i].replica.baseline.None? && Contiguous(DocOf(g, i))
    requires forall i, j | 0 <= i < |g.sessions| && 0 <= j < |g.sessions| :: Agree(DocOf(g, i), DocOf(g, j))
    requires forall k, j | 0 <= k < |g.sessions| && 0 <= j < |g.sessions| && k != j :: CarriedBy(g.links[k][j]) <= DocOf(g, k)
    requires forall i, a | 0 <= i < |g.sessions| && a in DocOf(g, i) ::
               exists k | 0 <= k < |g.sessions| :: IsWriter(g.sessions[k]) && a in DocOf(g, k)
    requires forall j, k | 0 <= j < |g.sessions| && 0 <= k < |g.sessions| && j != k && IsWriter(g.sessions[k]) ::
               Requests(g.links[j][k], StateVector(DocOf(g, j)))
    ensures Accounted(g)
  {
    hide Contiguous, Agree, StateVector;
    forall i, j, a | 0 <= i < |g.sessions| && 0 <= j < |g.sessions| && a in DocOf(g, i) && a !in DocOf(g, j)
      ensures Due(g, j, a)
    {
      var k :| 0 <= k < |g.sessions| && IsWriter(g.sessions[k]) && a in DocOf(g, k);
      AnsweredRequestConverges(DocOf(g, j), DocOf(g, k));
      assert a in DocOf(g, j) + DocOf(g, k);
      assert Requests(g.links[j][k], StateVector(DocOf(g, j)));
      assert Brings(g, k, j, a);
    }
  }

  predicate Requests(frames: seq<Frame>, vector: Vector) {
    exists f <- frames :: OneMessage(f) && f.body.messages[0] == SyncStep1(vector)
  }
}
