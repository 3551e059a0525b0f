/**
 The receiver as the object the client keeps: its fields are updated in place, and each method is
 proved to do exactly what the byte layer's specification says.
 */
module Receiver {
  import opened Options
  import opened Frames
  import opened Sealed

  class Reader {
    const hostKey: PublicKey
    var committed: map<PublicKey, PeerEntry>
    var marks: Marks
    var moved: nat
    var issued: nat
    var ended: bool

    ghost function View(): ReaderState
      reads this
    {
      ReaderState(hostKey, committed, marks, moved, issued, ended)
    }

    /** A reader that knows only the invite's keys: a joiner before any state. */
    constructor (hostKey: PublicKey)
      ensures View() == ReaderState(hostKey, map[], map[], 0, 0, false)
    {
      this.hostKey := hostKey;
      committed, marks, moved, issued, ended := map[], map[], 0, 0, false;
    }

    /** One frame: the first step that refuses it, or its acceptance folded in. */
    method Read(frame: Frame) returns (verdict: Verdict)
      modifies this
      ensures verdict == Judge(old(View()), frame)
      ensures View() == Sealed.Read(old(View()), frame)
    {
      if frame.Garbage? {
        return Refuse(BadEnvelope, frame);
      }
      if 4 < frame.kind {
        return Refuse(UnknownKind, frame);
      }
      if frame.epoch != 0 {
        return Refuse(UnknownEpoch, frame);
      }
      if frame.kind == 4 {
        verdict := ReadAnnouncement(frame);
      } else {
        verdict := ReadOrdinary(frame);
      }
    }

    /** Kind 4 names its signer inside its plaintext, so it is opened before it is verified. */
    method ReadAnnouncement(frame: Frame) returns (verdict: Verdict)
      requires frame.Frame? && frame.kind == 4
      modifies this
      ensures verdict == JudgeAnnouncement(old(View()), frame)
      ensures View() == if verdict.Accepted? then Folded(old(View()), verdict) else old(View())
    {
      if !frame.opens {
        return Refuse(BadAead, frame);
      }
      if !frame.body.AnnounceBody? {
        return Refuse(BadPayload, frame);
      }
      var key := frame.body.key;
      if key.id != frame.keyId {
        return Refuse(UncommittedKey, frame);
      }
      if frame.signer != Some(key) {
        return Refuse(BadSignature, frame);
      }
      var stale := IsReplayed(key.id, frame.counter);
      if stale {
        return Refuse(ReplayedCounter, frame);
      }
      MoveMark(key.id, frame.counter);
      verdict := Accepted(4, key, frame.counter, frame.body);
    }

    method ReadOrdinary(frame: Frame) returns (verdict: Verdict)
      requires frame.Frame? && frame.kind < 4
      modifies this
      ensures verdict == JudgeOrdinary(old(View()), frame)
      ensures View() == if verdict.Accepted? then Folded(old(View()), verdict) else old(View())
    {
      var candidates := Candidates(hostKey, committed, frame);
      if candidates == {} {
        return Refuse(UncommittedKey, frame);
      }
      if frame.kind == 0 || frame.kind == 3 {
        var stale := IsReplayed(frame.keyId, frame.counter);
        if stale {
          return Refuse(ReplayedCounter, frame);
        }
      }
      var found := FindSigner(candidates, frame.signer);
      if found.None? {
        return Refuse(BadSignature, frame);
      }
      if !frame.opens {
        return Refuse(BadAead, frame);
      }
      if !Reads(frame.kind, frame.body) {
        return Refuse(BadPayload, frame);
      }
      var edition := IssuedOf(frame.kind, frame.body);
      if edition.Some? && edition.value <= issued {
        return Refused(StaleIssued, Some(frame.kind), edition.value == issued && frame.kind == 1);
      }
      if frame.kind == 0 && HasContent(Stream(frame.body))
         && RoleOf(committed, found.value) == Some(ViewerRole) {
        return Refuse(UnauthorisedContent, frame);
      }
      verdict := Accept(frame, found.value);
    }

    /** An id may name several keys: the signer is whichever of them the signature checks under. */
    method FindSigner(candidates: set<PublicKey>, signer: Option<PublicKey>) returns (found: Option<PublicKey>)
      ensures found == if signer.Some? && signer.value in candidates then signer else None
    {
      var rest := candidates;
      while rest != {}
        invariant rest <= candidates
        invariant forall key <- candidates - rest :: signer != Some(key)
        decreases rest
      {
        var key :| key in rest;
        if signer == Some(key) {
          return Some(key);
        }
        rest := rest - {key};
      }
      found := None;
    }

    method IsReplayed(id: KeyId, counter: nat) returns (replayed: bool)
      ensures replayed == Replayed(View(), id, counter)
    {
      replayed := if id in marks then counter <= marks[id].counter else counter <= 0;
    }

    method Accept(frame: Frame, key: PublicKey) returns (verdict: Verdict)
      requires frame.Frame? && frame.kind < 4 && key.id == frame.keyId && Reads(frame.kind, frame.body)
      modifies this
      ensures verdict == Accepted(frame.kind, key, frame.counter, frame.body)
      ensures View() == Folded(old(View()), verdict)
    {
      if frame.kind == 0 || frame.kind == 3 {
        MoveMark(key.id, frame.counter);
      } else if frame.kind == 1 {
        ApplyState(frame.body.state);
      } else {
        issued := frame.body.issued;
        ended := true;
      }
      verdict := Accepted(frame.kind, key, frame.counter, frame.body);
    }

    method ApplyState(state: RoomState)
      modifies this
      ensures View() == Applied(old(View()), state)
    {
      committed := state.peers;
      issued := state.issued;
    }

    method MoveMark(id: KeyId, counter: nat)
      modifies this
      ensures View() == Marked(old(View()), id, counter)
    {
      moved := moved + 1;
      var mark := if id in marks then marks[id] else Mark(0, moved);
      if mark.counter < counter {
        mark := mark.(counter := counter);
      }
      marks := marks[id := mark.(seen := moved)];
      CapMarks();
    }

    /** Evicts the least recently moved loose marks, one at a time, until 64 are left. */
    method CapMarks()
      modifies this
      ensures View() == old(View()).(marks := Capped(old(marks), CommittedIds(old(committed))))
    {
      var kept := CommittedIds(committed);
      var loose := set id <- marks | id !in kept;
      if |marks| <= UNCOMMITTED_MARKS {
        assert |loose| <= |marks| by {
          Subset(loose, marks.Keys);
        }
        assert loose == Loose(marks, kept);
        return;
      }
      while UNCOMMITTED_MARKS < |loose|
        invariant loose == Loose(marks, kept)
        invariant Capped(marks, kept) == Capped(old(marks), kept)
        invariant unchanged(`committed) && unchanged(`moved) && unchanged(`issued) && unchanged(`ended)
        decreases |loose|
      {
        var id := FindOldest(loose);
        OldestUnique(marks, loose, id, Oldest(marks, loose));
        marks := marks - {id};
        loose := loose - {id};
      }
    }

    method FindOldest(ids: set<KeyId>) returns (id: KeyId)
      requires ids <= marks.Keys && ids != {}
      ensures IsOldest(marks, ids, id)
    {
      id :| id in ids;
      var rest := ids - {id};
      while rest != {}
        invariant id in ids && rest <= ids
        invariant forall other <- ids - rest :: Earlier(marks, id, other)
        decreases rest
      {
        var next :| next in rest;
        ghost var done := ids - rest;
        if !Earlier(marks, id, next) {
          id := next;
        }
        rest := rest - {next};
        assert ids - rest == done + {next};
      }
    }
  }

  lemma Subset<T>(small: set<T>, big: set<T>)
    requires small <= big
    ensures |small| <= |big|
  {
    assert big == small + (big - small);
  }

  lemma OldestUnique(marks: Marks, ids: set<KeyId>, i: KeyId, j: KeyId)
    requires ids <= marks.Keys && IsOldest(marks, ids, i) && IsOldest(marks, ids, j)
    ensures i == j
  {
    assert Earlier(marks, i, j) && Earlier(marks, j, i);
  }
}
