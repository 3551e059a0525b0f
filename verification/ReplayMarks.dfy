/**
 What the replay marks promise over whole runs of a receiver: the cap never touches a committed
 key, a committed key's counters only rise, and a signer whose frames arrive in the order it
 numbered them is never refused for a replay or for an old edition.
 */
module ReplayMarks {
  import opened Options
  import opened Frames
  import opened Sealed

  /** What moves a receiver: a frame the relay delivered, or a state its own connection published. */
  datatype Heard = FromRelay(frame: Frame) | Own(state: RoomState)

  ghost function Next(r: ReaderState, heard: Heard): ReaderState {
    match heard
    case FromRelay(frame) => Read(r, frame)
    case Own(state) => Applied(r, state)
  }

  ghost function Run(r: ReaderState, log: seq<Heard>): ReaderState
    decreases |log|
  {
    if log == [] then r else Run(Next(r, log[0]), log[1..])
  }

  /** The reader just before the `n`th thing it heard. */
  ghost function At(r: ReaderState, log: seq<Heard>, n: nat): ReaderState
    requires n <= |log|
  {
    Run(r, log[..n])
  }

  lemma {:induction false} RunSplit(r: ReaderState, log: seq<Heard>, n: nat)
    requires n <= |log|
    ensures Run(r, log) == Run(At(r, log, n), log[n..])
    decreases n
  {
    if n == 0 {
      assert log[..0] == [] && log[0..] == log;
    } else {
      RunSplit(Next(r, log[0]), log[1..], n - 1);
      assert log[1..][..n - 1] == log[..n][1..];
      assert log[1..][n - 1..] == log[n..];
    }
  }

  lemma {:induction false} AtSucc(r: ReaderState, log: seq<Heard>, n: nat)
    requires n < |log|
    ensures At(r, log, n + 1) == Next(At(r, log, n), log[n])
  {
    var prefix := log[..n + 1];
    RunSplit(r, prefix, n);
    assert prefix[..n] == log[..n] && prefix[n..] == [log[n]];
    assert Run(At(r, log, n), [log[n]]) == Run(Next(At(r, log, n), log[n]), []);
  }

  // --- one accepted frame --------------------------------------------------------------

  /** The order of the marks is the order they were moved in. */
  ghost predicate Ordered(r: ReaderState) {
    && (forall id <- r.marks :: r.marks[id].seen <= r.moved)
    && (forall i <- r.marks, j <- r.marks | i != j :: r.marks[i].seen != r.marks[j].seen)
  }

  lemma OrderedWhenMarked(r: ReaderState, id: KeyId, counter: nat)
    requires Ordered(r)
    ensures Ordered(Marked(r, id, counter))
  {
    hide Capped;
    var marks := r.marks[id := Mark(if MarkOf(r.marks, id) < counter then counter else MarkOf(r.marks, id), r.moved + 1)];
    CapKeepsTheNewest(marks, CommittedIds(r.committed));
  }

  lemma OrderedKept(r: ReaderState, heard: Heard)
    requires Ordered(r)
    ensures Ordered(Next(r, heard))
  {
    hide Judge, Marked, Ordered;
    if heard.FromRelay? && Judge(r, heard.frame).Accepted? {
      var v := Judge(r, heard.frame);
      OrderedWhenMarked(r, v.key.id, v.counter);
      SameMarksOrdered(r, Read(r, heard.frame));
    } else {
      SameMarksOrdered(r, Next(r, heard));
    }
  }

  lemma SameMarksOrdered(r: ReaderState, next: ReaderState)
    requires Ordered(r)
    ensures next.marks == r.marks && next.moved == r.moved ==> Ordered(next)
  {
  }

  /**
   `next` is `r` with one id's mark moved to `counter`: every other mark either stands or is
   gone, only loose marks go, they go only when more than 64 stand and then down to 64, and each
   one gone was moved before every loose one that stays.
   */
  ghost predicate MarkMoved(r: ReaderState, next: ReaderState, id: KeyId, counter: nat) {
    var kept := CommittedIds(r.committed);
    var all := r.marks.Keys + {id};
    && next.committed == r.committed && next.issued == r.issued && next.ended == r.ended
    && MarkOf(r.marks, id) < counter
    && id in next.marks && next.marks[id].counter == counter
    && next.marks.Keys <= all
    && (forall i <- next.marks | i != id :: next.marks[i] == r.marks[i])
    && (forall i <- all | i !in next.marks :: i !in kept)
    && |Loose(next.marks, kept)| <= UNCOMMITTED_MARKS
    && (next.marks.Keys != all ==> |Loose(next.marks, kept)| == UNCOMMITTED_MARKS)
    && (forall gone <- r.marks, stays <- next.marks | gone !in next.marks && stays !in kept ::
          r.marks[gone].seen < next.marks[stays].seen)
  }

  lemma MarkedMoves(r: ReaderState, id: KeyId, counter: nat)
    requires Ordered(r) && MarkOf(r.marks, id) < counter
    ensures MarkMoved(r, Marked(r, id, counter), id, counter)
  {
    var kept := CommittedIds(r.committed);
    var marks := r.marks[id := Mark(counter, r.moved + 1)];
    CapKeepsTheNewest(marks, kept);
    var left := Capped(marks, kept);
    assert Marked(r, id, counter).marks == left;
    if stays :| stays in Loose(left, kept) && stays != id {
      assert !Earlier(marks, id, stays);
    }
    if |Loose(marks, kept)| <= UNCOMMITTED_MARKS {
      assert left == marks;
    }
    forall gone <- r.marks, stays <- left | gone !in left && stays !in kept
      ensures r.marks[gone].seen < left[stays].seen
    {
      assert Earlier(marks, gone, stays);
    }
  }

  /** Every accepted frame of kind 0, 3 or 4 moves its own id's mark, to its own counter. */
  lemma AcceptedFrameMarks(r: ReaderState, frame: Frame)
    requires Ordered(r) && Marking(frame) && Judge(r, frame).Accepted?
    ensures MarkMoved(r, Read(r, frame), frame.keyId, frame.counter)
  {
    MarkedMoves(r, frame.keyId, frame.counter);
  }

  // --- runs ----------------------------------------------------------------------------

  lemma {:induction false} OrderedAt(r: ReaderState, log: seq<Heard>, n: nat)
    requires Ordered(r) && n <= |log|
    ensures Ordered(At(r, log, n))
  {
    if n == 0 {
      assert log[..0] == [];
    } else {
      OrderedAt(r, log, n - 1);
      AtSucc(r, log, n - 1);
      OrderedKept(At(r, log, n - 1), log[n - 1]);
    }
  }

  lemma OthersNeverMoveAMark(r: ReaderState, heard: Heard)
    requires heard.FromRelay? ==> !Marking(heard.frame) || Judge(r, heard.frame).Refused?
    ensures Next(r, heard).marks == r.marks && Next(r, heard).moved == r.moved
  {
  }

  /** While an id stays committed its mark never falls. */
  lemma {:induction false} CommittedMarkNeverFalls(r: ReaderState, log: seq<Heard>, id: KeyId, from: nat, to: nat)
    requires Ordered(r) && from <= to <= |log|
    requires forall k | from <= k < to :: id in CommittedIds(At(r, log, k).committed)
    ensures MarkOf(At(r, log, from).marks, id) <= MarkOf(At(r, log, to).marks, id)
  {
    if from < to {
      CommittedMarkNeverFalls(r, log, id, from, to - 1);
      AtSucc(r, log, to - 1);
      OrderedAt(r, log, to - 1);
      var before, heard := At(r, log, to - 1), log[to - 1];
      if heard.FromRelay? && Marking(heard.frame) && Judge(before, heard.frame).Accepted? {
        AcceptedFrameMarks(before, heard.frame);
      } else {
        OthersNeverMoveAMark(before, heard);
      }
    }
  }

  ghost predicate AcceptedAt(r: ReaderState, log: seq<Heard>, n: nat, id: KeyId) {
    && n < |log| && log[n].FromRelay? && Marking(log[n].frame) && log[n].frame.keyId == id
    && Judge(At(r, log, n), log[n].frame).Accepted?
  }

  /**
   No replay: between two accepted frames of one id, committed throughout, the counter rises.
   */
  lemma CommittedCountersRise(r: ReaderState, log: seq<Heard>, id: KeyId, first: nat, second: nat)
    requires Ordered(r) && first < second
    requires AcceptedAt(r, log, first, id) && AcceptedAt(r, log, second, id)
    requires forall k | first < k < second :: id in CommittedIds(At(r, log, k).committed)
    ensures log[first].frame.counter < log[second].frame.counter
  {
    AtSucc(r, log, first);
    OrderedAt(r, log, first);
    OrderedAt(r, log, second);
    AcceptedFrameMarks(At(r, log, first), log[first].frame);
    CommittedMarkNeverFalls(r, log, id, first + 1, second);
    AcceptedFrameMarks(At(r, log, second), log[second].frame);
  }

  // --- an honest signer ----------------------------------------------------------------

  predicate SignedBy(heard: Heard, key: PublicKey) {
    heard.FromRelay? && heard.frame.Frame? && heard.frame.signer == Some(key) && heard.frame.keyId == key.id
  }

  /** A signature of any key but `key` that shares its id: a digest collision inside the room. */
  predicate Collides(heard: Heard, key: PublicKey) {
    heard.FromRelay? && heard.frame.Frame? && heard.frame.signer.Some? &&
    heard.frame.signer.value != key && heard.frame.signer.value.id == key.id
  }

  /** The key's own frames of kinds 0, 3 and 4 come in rising counter order, above `floor`. */
  ghost predicate Rising(log: seq<Heard>, key: PublicKey, floor: nat) {
    && (forall n | 0 <= n < |log| && SignedBy(log[n], key) && Marking(log[n].frame) :: floor < log[n].frame.counter)
    && (forall m, n | 0 <= m < n < |log| && SignedBy(log[m], key) && Marking(log[m].frame)
            && SignedBy(log[n], key) && Marking(log[n].frame) ::
          log[m].frame.counter < log[n].frame.counter)
  }

  /**
   An in-order signer is never refused as a replay, whatever else arrives, whatever states come
   and go, and whether or not its mark was evicted on the way.
   */
  lemma {:induction false} InOrderNeverReplayed(r: ReaderState, log: seq<Heard>, key: PublicKey, floor: nat, n: nat)
    requires Ordered(r) && MarkOf(r.marks, key.id) <= floor && Rising(log, key, floor)
    requires forall h <- log :: !Collides(h, key)
    requires n < |log| && SignedBy(log[n], key) && Marking(log[n].frame)
    ensures var v := Judge(At(r, log, n), log[n].frame);
            v.Refused? ==> v.reason != ReplayedCounter
  {
    MarkBelowTheRest(r, log, key, floor, n);
  }

  /** Whatever a receiver hears, a key's mark rises only with that key's own frame, to its counter. */
  lemma OnlyTheSignerRaisesItsMark(r: ReaderState, heard: Heard, key: PublicKey)
    requires Ordered(r) && !Collides(heard, key)
    ensures MarkOf(Next(r, heard).marks, key.id) > MarkOf(r.marks, key.id) ==>
              SignedBy(heard, key) && Marking(heard.frame) && MarkOf(Next(r, heard).marks, key.id) == heard.frame.counter
  {
    if heard.FromRelay? && Marking(heard.frame) && Judge(r, heard.frame).Accepted? {
      AcceptedFrameMarks(r, heard.frame);
    } else {
      OthersNeverMoveAMark(r, heard);
    }
  }

  lemma {:induction false} MarkBelowTheRest(r: ReaderState, log: seq<Heard>, key: PublicKey, floor: nat, n: nat)
    requires Ordered(r) && MarkOf(r.marks, key.id) <= floor && Rising(log, key, floor)
    requires forall h <- log :: !Collides(h, key)
    requires n <= |log|
    ensures forall m | n <= m < |log| && SignedBy(log[m], key) && Marking(log[m].frame) ::
              MarkOf(At(r, log, n).marks, key.id) < log[m].frame.counter
  {
    if n == 0 {
      assert log[..0] == [];
    } else {
      MarkBelowTheRest(r, log, key, floor, n - 1);
      AtSucc(r, log, n - 1);
      OrderedAt(r, log, n - 1);
      OnlyTheSignerRaisesItsMark(At(r, log, n - 1), log[n - 1], key);
    }
  }

  // --- the edition series --------------------------------------------------------------

  /** The edition a frame the host key really signed would be ordered by. */
  function Edition(r: ReaderState, heard: Heard): Option<nat> {
    match heard
    case Own(state) => Some(state.issued)
    case FromRelay(frame) =>
      if frame.Frame? && frame.signer == Some(r.hostKey) then IssuedOf(frame.kind, frame.body) else None
  }

  ghost predicate EditionsRise(r: ReaderState, log: seq<Heard>, floor: nat) {
    && (forall n | 0 <= n < |log| && Edition(r, log[n]).Some? :: floor < Edition(r, log[n]).value)
    && (forall m, n | 0 <= m < n < |log| && Edition(r, log[m]).Some? && Edition(r, log[n]).Some? ::
          Edition(r, log[m]).value < Edition(r, log[n]).value)
  }

  /**
   A receiver handed any in-order subsequence of a rising edition series refuses none of it as
   stale, and holds the last edition it was handed that it could read.
   */
  lemma {:induction false} RisingEditionsNeverStale(r: ReaderState, log: seq<Heard>, floor: nat, n: nat)
    requires r.issued <= floor && EditionsRise(r, log, floor)
    requires n < |log| && log[n].FromRelay?
    ensures var v := Judge(At(r, log, n), log[n].frame);
            v.Refused? ==> v.reason != StaleIssued
  {
    IssuedBelowTheRest(r, log, floor, n);
  }

  lemma {:induction false} IssuedBelowTheRest(r: ReaderState, log: seq<Heard>, floor: nat, n: nat)
    requires r.issued <= floor && EditionsRise(r, log, floor)
    requires n <= |log|
    ensures At(r, log, n).hostKey == r.hostKey
    ensures forall m | n <= m < |log| && Edition(r, log[m]).Some? :: At(r, log, n).issued < Edition(r, log[m]).value
  {
    if n == 0 {
      assert log[..0] == [];
    } else {
      IssuedBelowTheRest(r, log, floor, n - 1);
      AtSucc(r, log, n - 1);
      var before, heard := At(r, log, n - 1), log[n - 1];
      if heard.FromRelay? && Judge(before, heard.frame).Accepted? && (heard.frame.kind == 1 || heard.frame.kind == 2) {
        assert Candidates(before.hostKey, before.committed, heard.frame) == {r.hostKey};
        assert Edition(r, heard).Some?;
      }
    }
  }
}
