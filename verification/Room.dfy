/**
 A whole room: sessions joined pairwise by queues that keep their order and may lose any frame.
 While every session holds one state, nothing they send each other is refused, and the requests
 and answers they exchange come to an end.
 */
module Room {
  import opened Arithmetic
  import opened Options
  import opened Replica
  import opened Frames
  import opened Sealed
  import opened Producer
  import opened Session
  import opened SessionFrames
  import opened SyncDebts
  import opened Quiescence

  // --- one frame heard -------------------------------------------------------------------------

  /** No two committed keys share an id. */
  predicate DistinctIds(committed: map<PublicKey, PeerEntry>) {
    forall j <- committed, k <- committed | j.id == k.id :: j == k
  }

  /** A frame from a peer the state commits, numbered above every one heard from it before. */
  ghost predicate Timely(r: ReaderState, frame: Frame, peer: PublicKey, e: nat) {
    && peer in r.committed && e <= r.issued && Fair(frame, peer, r.committed, e)
    && (Marking(frame) ==> MarkOf(r.marks, peer.id) < frame.counter)
  }

  /** Content and holds from a committed peer, in the order it sent them, are never refused. */
  lemma NothingIsRefused(r: ReaderState, frame: Frame, peer: PublicKey, e: nat)
    requires Timely(r, frame, peer, e)
    ensures Marking(frame) ==> Judge(r, frame) == Accepted(frame.kind, peer, frame.counter, frame.body)
    ensures frame.kind == 1 ==> Judge(r, frame).Refused? && Judge(r, frame).claimed == Some(1)
    ensures frame.kind == 2 ==>
              (var v := Judge(r, frame); if v.Refused? then v.claimed == Some(2) else v.body.ClosingBody? && v.kind == 2 && r.issued < v.body.issued)
  {
    if Marking(frame) {
      assert peer in Candidates(r.hostKey, r.committed, frame);
      if frame.kind == 0 {
        var messages := frame.body.messages;
        assert messages == [messages[0]] && messages[1..] == [];
        assert !NestsTooDeep(messages[1..]) && !NestsTooDeep(messages);
        if HasContent(messages) {
          var m :| m in messages && CarriesContent(m);
          assert m == messages[0];
        }
      }
    }
  }

  lemma MarksOfTheOthersStand(r: ReaderState, id: KeyId, counter: nat)
    requires MarkOf(r.marks, id) < counter && id in CommittedIds(r.committed)
    ensures var next := Marked(r, id, counter);
            && MarkOf(next.marks, id) == counter
            && (forall other <- CommittedIds(r.committed) | other != id :: MarkOf(next.marks, other) == MarkOf(r.marks, other))
  {
    CapKeepsTheNewest(r.marks[id := Mark(counter, r.moved + 1)], CommittedIds(r.committed));
  }

  /** What hearing one frame moves in a receiver whose state stands. */
  ghost predicate MarksOnly(r: ReaderState, next: ReaderState, frame: Frame, peer: PublicKey) {
    && next.committed == r.committed && r.issued <= next.issued
    && MarkOf(next.marks, peer.id) == (if Marking(frame) then frame.counter else MarkOf(r.marks, peer.id))
    && (forall id <- CommittedIds(r.committed) | id != peer.id :: MarkOf(next.marks, id) == MarkOf(r.marks, id))
  }

  lemma HearingMarks(r: ReaderState, frame: Frame, peer: PublicKey, e: nat)
    requires Timely(r, frame, peer, e)
    ensures MarksOnly(r, Read(r, frame), frame, peer)
  {
    hide Judge;
    NothingIsRefused(r, frame, peer, e);
    if Marking(frame) {
      assert peer.id in CommittedIds(r.committed);
      MarksOfTheOthersStand(r, peer.id, frame.counter);
    }
  }

  // --- what hearing it costs ---------------------------------------------------------------------

  lemma ArmingKeepsTheDebt(s: Session, key: PublicKey)
    ensures Owed(ArmReciprocal(s, key)) <= Owed(s)
  {
    var writers, t := Writers(s.reader.committed), ArmReciprocal(s, key);
    if key in writers && key !in s.debts.served {
      assert writers - s.debts.served == (writers - t.debts.served) + {key};
      assert |s.debts.pending + {key}| <= |s.debts.pending| + 1 by {
        if key in s.debts.pending { assert s.debts.pending + {key} == s.debts.pending; }
      }
    }
  }

  lemma {:induction false} ReplyingPays(s: Session, replies: seq<Message>, e: nat)
    requires forall m <- replies :: m.SyncStep2? && m.delta.Atoms?
    ensures Pays(s, SendReplies(s, replies), |replies|, e)
    decreases |replies|
  {
    hide PublishFrame, Pays;
    PaysItself(s, s, e);
    if replies != [] {
      assert replies[0] in replies;
      var t := PublishFrame(s, Syncing, StreamBody([replies[0]])).0;
      PublishingPays(s, Syncing, StreamBody([replies[0]]), e);
      ReplyingPays(t, replies[1..], e);
      PaysChains(s, t, SendReplies(t, replies[1..]), 1, |replies| - 1, e);
    }
  }

  lemma OneMessageRead(doc: Doc, answers: bool, message: Message)
    ensures var read := ApplyStream(doc, answers, [message]);
            && (read.requested <==> message.SyncStep1?)
            && |read.replies| <= One(message.SyncStep1?)
            && (forall m <- read.replies :: m.SyncStep2? && m.delta.Atoms?)
  {
    var r := ReadState(doc, [], false);
    var (next, goesOn) := ReadMessage(r, answers, message);
    assert [message][0] == message && [message][1..] == [];
    assert ReadStream(next, answers, []) == next;
    assert ReadStream(r, answers, [message]) == next;
  }

  /** One message heard draws one answer at most, and that only for a request. */
  lemma ReadingPays(s: Session, message: Message, peer: PublicKey, e: nat)
    ensures Pays(s, ApplyContent(s, [message], peer), One(message.SyncStep1?), e)
  {
    hide ApplyStream, SendReplies, Pays, Holds, ArmReciprocal, ReadInto;
    PaysItself(s, s, e);
    PaysMore(s, s, 0, One(message.SyncStep1?), e);
    if s.view.stateIssued.Some? {
      var answers := MayPublish(s) && IsWriter(s);
      var read := ApplyStream(PublicationDoc(s), answers, [message]);
      OneMessageRead(PublicationDoc(s), answers, message);
      var t := ReadInto(s, [message], answers);
      ReadIntoPays(s, [message], answers, e);
      var u := if read.requested then ArmReciprocal(t, peer) else t;
      PaysItself(t, t, e);
      ArmingPays(t, peer, e);
      PaysChains(s, t, u, 0, 0, e);
      ReplyingPays(u, read.replies, e);
      PaysChains(s, u, SendReplies(u, read.replies), 0, |read.replies|, e);
      PaysMore(s, SendReplies(u, read.replies), |read.replies|, One(message.SyncStep1?), e);
      PaysMore(s, u, 0, One(message.SyncStep1?), e);
    }
  }

  lemma PaysMore(s: Session, t: Session, less: nat, more: nat, e: nat)
    requires less <= more
    ensures Pays(s, t, less, e) ==> Pays(s, t, more, e)
  {
  }

  lemma ReadIntoPays(s: Session, messages: seq<Message>, answers: bool, e: nat)
    ensures Pays(s, ReadInto(s, messages, answers), 0, e)
  {
    hide ApplyStream, Pays;
    PaysItself(s, ReadInto(s, messages, answers), e);
  }

  lemma ArmingPays(s: Session, key: PublicKey, e: nat)
    ensures Pays(s, ArmReciprocal(s, key), 0, e)
  {
    hide Writers, Owed;
    ArmingKeepsTheDebt(s, key);
    ExtendsItself(s, ArmReciprocal(s, key));
    assert Added(s, ArmReciprocal(s, key)) == [];
  }

  /** What a session that has heard `frame` from `peer` is left with. */
  ghost predicate Heard(s: Session, t: Session, frame: Frame, peer: PublicKey, e: nat) {
    && Extends(s, t) && Holds(t, e) && MarksOnly(s.reader, t.reader, frame, peer)
    && Owed(t) + Asked(s, t) <= Owed(s)
    && Syncs(s, t) + Owed(t) <= Owed(s) + One(AsksSync(frame))
    && (forall f <- Added(s, t) :: Fair(f, s.who.me, s.reader.committed, e))
  }

  /** The session that has counted a frame and folded it into its reader, and done no more. */
  ghost function Received(s: Session, frame: Frame): Session {
    var t := CountFrame(s);
    t.(reader := Read(t.reader, frame))
  }

  lemma ReceivingHears(s: Session, frame: Frame, peer: PublicKey, e: nat)
    requires Holds(s, e) && Timely(s.reader, frame, peer, e)
    ensures Heard(s, Received(s, frame), frame, peer, e)
  {
    hide Judge, Read, Fair;
    HearingMarks(s.reader, frame, peer, e);
    var t := Received(s, frame);
    CountingExtends(s);
    assert Added(s, t) == [];
  }

  lemma HeardThenPays(s: Session, t: Session, u: Session, frame: Frame, peer: PublicKey, e: nat)
    requires Heard(s, t, frame, peer, e) && Pays(t, u, 0, e)
    ensures Heard(s, u, frame, peer, e)
  {
    hide Extends, Holds, Fair, Owed;
    AskedAdds(s, t, u);
    ExtendsChains(s, t, u);
    CountAdds(Added(s, t), Added(t, u), IsSync);
  }

  lemma ContentHeard(s: Session, t: Session, u: Session, frame: Frame, peer: PublicKey, e: nat)
    requires t == Received(s, frame) && Heard(s, t, frame, peer, e) && Owed(t) <= Owed(s)
    requires Pays(t, u, One(AsksSync(frame)), e)
    ensures Heard(s, u, frame, peer, e)
  {
    hide Holds, Fair, Owed, Read, Extends;
    AskedAdds(s, t, u);
    ExtendsChains(s, t, u);
    CountAdds(Added(s, t), Added(t, u), IsSync);
    ReceivingSendsNothing(s, frame);
  }

  lemma ReceivingSendsNothing(s: Session, frame: Frame)
    ensures Received(s, frame).wire.outbound == s.wire.outbound
    ensures Added(s, Received(s, frame)) == [] && Received(s, frame).debts == s.debts
  {
  }

  lemma EndingPays(s: Session, t: Session, e: nat)
    requires t == s.(ending := t.ending)
    ensures Pays(s, t, 0, e)
  {
    PaysItself(s, t, e);
  }

  /** Any frame a peer of the room sends, heard in order, leaves the state standing and owes no more. */
  lemma DeliveringHears(s: Session, clock: nat, frame: Frame, listing: seq<Path>, seals: bool, peer: PublicKey, e: nat)
    requires Holds(s, e) && Timely(s.reader, frame, peer, e)
    ensures Heard(s, Deliver(s, clock, frame, listing, seals), frame, peer, e)
  {
    hide Judge, ApplyContent, AfterState, PublishState, Announce, Pays, Heard, Holds, MarksOnly;
    var t := Received(s, frame);
    var next := Deliver(s, clock, frame, listing, seals);
    ReceivingHears(s, frame, peer, e);
    NothingIsRefused(s.reader, frame, peer, e);
    KnownKinds(s.reader, frame, peer, e);
    if frame.kind == 0 {
      var message := frame.body.messages[0];
      assert frame.body.messages == [message];
      ReadingPays(t, message, peer, e);
      ReceivingSendsNothing(s, frame);
      OwedByDebts(s, t);
      ContentHeard(s, t, next, frame, peer, e);
    } else {
      HoldsMeans(s, e);
      EndingPays(t, next, e);
      HeardThenPays(s, t, next, frame, peer, e);
    }
  }

  lemma KnownKinds(r: ReaderState, frame: Frame, peer: PublicKey, e: nat)
    requires Timely(r, frame, peer, e)
    ensures frame.Frame? && frame.kind < 4
    ensures frame.kind == 3 ==> frame.body.HoldsBody?
    ensures frame.kind == 0 ==> frame.body.StreamBody? && |frame.body.messages| == 1
  {
  }

  lemma HoldsMeans(s: Session, e: nat)
    requires Holds(s, e)
    ensures s.view.stateIssued.Some?
  {
  }

  lemma OwedByDebts(s: Session, t: Session)
    requires t.debts == s.debts && t.reader.committed == s.reader.committed
    ensures Owed(t) == Owed(s)
  {
  }
}
