/**
 What being accepted means: over every run of a receiver, a frame it accepts was really signed by
 a key that may send it, under the commitments of the state then applied, and is fresh.
 */
module Authority {
  import opened Options
  import opened Frames
  import opened Sealed
  import opened ReplayMarks

  // --- one frame ---------------------------------------------------------------------------

  /** The frame carries `key`'s own signature, under its id, over a ciphertext that opens. */
  predicate Authentic(frame: Frame, key: PublicKey) {
    frame.Frame? && frame.epoch == 0 && frame.opens && frame.signer == Some(key) && frame.keyId == key.id
  }

  predicate IsWriterOf(committed: map<PublicKey, PeerEntry>, key: PublicKey) {
    key in committed && (committed[key].role == HostRole || committed[key].role == GuestRole)
  }

  /** Who may send it: the host its states, a writer the content, a peer the rest, and anyone its own key. */
  predicate MaySend(r: ReaderState, key: PublicKey, frame: Frame)
    requires frame.Frame?
  {
    if frame.kind == 1 || frame.kind == 2 then key == r.hostKey
    else if frame.kind == 4 then frame.body.AnnounceBody? && key == frame.body.key
    else (frame.kind == 0 || frame.kind == 3) && key in r.committed
         && (frame.kind == 0 && HasContent(Stream(frame.body)) ==> IsWriterOf(r.committed, key))
  }

  /**
   The plaintext is one of the kind's own: a state, a closing that says so, holds, an announcement,
   or a stream in which no update nests too deep ahead of the first custom message.
   */
  predicate IsPayload(kind: nat, body: Body) {
    match kind
    case 0 =>
      forall i | 0 <= i < |Stream(body)| && CarriesContent(Stream(body)[i]) && Stream(body)[i].delta.TooDeep? ::
        exists j :: 0 <= j < i && Stream(body)[j].Custom?
    case 1 => body.StateBody?
    case 2 => body.ClosingBody? && body.closing
    case 3 => body.HoldsBody?
    case 4 => body.AnnounceBody?
    case _ => false
  }

  lemma {:induction false} DepthIsWalked(messages: seq<Message>)
    ensures NestsTooDeep(messages) <==>
              exists i :: 0 <= i < |messages| && CarriesContent(messages[i]) && messages[i].delta.TooDeep?
                          && forall j | 0 <= j < i :: !messages[j].Custom?
  {
    if messages != [] {
      var rest := messages[1..];
      DepthIsWalked(rest);
      if NestsTooDeep(rest) && !messages[0].Custom? {
        var i :| 0 <= i < |rest| && CarriesContent(rest[i]) && rest[i].delta.TooDeep? && forall j | 0 <= j < i :: !rest[j].Custom?;
        assert messages[i + 1] == rest[i];
        assert forall j | 0 <= j < i + 1 :: j > 0 ==> messages[j] == rest[j - 1];
      }
      if i :| 0 < i < |messages| && CarriesContent(messages[i]) && messages[i].delta.TooDeep? && forall j | 0 <= j < i :: !messages[j].Custom? {
        assert rest[i - 1] == messages[i];
        assert forall j | 0 <= j < i - 1 :: rest[j] == messages[j + 1];
        assert messages[0] == messages[0] && !messages[0].Custom?;
      }
    }
  }

  lemma ReadsExactly(kind: nat, body: Body)
    requires kind <= 4
    ensures Reads(kind, body) <==> IsPayload(kind, body)
  {
    DepthIsWalked(Stream(body));
  }

  /** The edition the frame's plaintext claims. */
  function EditionOf(frame: Frame): Option<nat> {
    if frame.Frame? && frame.kind == 1 && frame.body.StateBody? then Some(frame.body.state.issued)
    else if frame.Frame? && frame.kind == 2 && frame.body.ClosingBody? then Some(frame.body.issued)
    else None
  }

  /** Nothing heard before was as late: counters for a session key's frames, editions for the host's. */
  predicate Fresh(r: ReaderState, frame: Frame)
    requires frame.Frame?
  {
    && (Marking(frame) ==> MarkOf(r.marks, frame.keyId) < frame.counter)
    && (EditionOf(frame).Some? ==> r.issued < EditionOf(frame).value)
  }

  /**
   A frame is accepted if and only if it is some key's own, of a payload that reads, from a key
   that may send it, and fresh; and what is accepted is that key's, unaltered.
   */
  lemma AcceptedExactly(r: ReaderState, frame: Frame)
    ensures Judge(r, frame).Accepted? <==>
              && frame.Frame? && frame.signer.Some? && Authentic(frame, frame.signer.value)
              && IsPayload(frame.kind, frame.body) && MaySend(r, frame.signer.value, frame) && Fresh(r, frame)
    ensures var v := Judge(r, frame);
            v.Accepted? ==> v == Accepted(frame.kind, frame.signer.value, frame.counter, frame.body)
  {
    if frame.Frame? && frame.kind <= 4 {
      ReadsExactly(frame.kind, frame.body);
    }
    if frame.Frame? && frame.kind <= 4 && frame.signer.Some? {
      var key := frame.signer.value;
      if MaySend(r, key, frame) && frame.keyId == key.id && frame.kind != 4 {
        assert key in Candidates(r.hostKey, r.committed, frame);
      }
    }
  }

  /** A refused frame leaves the receiver exactly as it was. */
  lemma RefusedMovesNothing(r: ReaderState, frame: Frame)
    requires !(frame.Frame? && frame.signer.Some? && Authentic(frame, frame.signer.value)
               && IsPayload(frame.kind, frame.body) && MaySend(r, frame.signer.value, frame) && Fresh(r, frame))
    ensures Read(r, frame) == r
  {
    AcceptedExactly(r, frame);
  }

  // --- whole runs ----------------------------------------------------------------------------

  ghost predicate TakenAt(r: ReaderState, log: seq<Heard>, n: nat) {
    n < |log| && log[n].FromRelay? && Judge(At(r, log, n), log[n].frame).Accepted?
  }

  /** A session's own state is never below an edition it has accepted. */
  ghost predicate OwnStatesRise(r: ReaderState, log: seq<Heard>) {
    forall n | 0 <= n < |log| && log[n].Own? :: At(r, log, n).issued <= log[n].state.issued
  }

  lemma OneMoreHeard(r: ReaderState, heard: Heard)
    ensures Next(r, heard).hostKey == r.hostKey
    ensures heard.FromRelay? ==> r.issued <= Next(r, heard).issued
    ensures heard.FromRelay? && Judge(r, heard.frame).Accepted? && EditionOf(heard.frame).Some? ==>
              Next(r, heard).issued == EditionOf(heard.frame).value
    ensures heard.FromRelay? && Judge(r, heard.frame).Accepted? && heard.frame.kind == 1 ==>
              heard.frame.body.StateBody? && Next(r, heard).committed == heard.frame.body.state.peers
    ensures heard.FromRelay? && !(Judge(r, heard.frame).Accepted? && heard.frame.kind == 1) ==>
              Next(r, heard).committed == r.committed
  {
    if heard.FromRelay? {
      AcceptedExactly(r, heard.frame);
    }
  }

  lemma {:induction false} EditionsNeverFall(r: ReaderState, log: seq<Heard>, m: nat, n: nat)
    requires m <= n <= |log| && OwnStatesRise(r, log)
    ensures At(r, log, m).issued <= At(r, log, n).issued && At(r, log, m).hostKey == At(r, log, n).hostKey
  {
    if m < n {
      EditionsNeverFall(r, log, m, n - 1);
      AtSucc(r, log, n - 1);
      OneMoreHeard(At(r, log, n - 1), log[n - 1]);
    }
  }

  /**
   Authority, over every run and whatever else is heard: an accepted frame opens and is its
   signer's own; content comes from a key the state then applied names `host` or `guest`, holds
   and requests from one it names at all; and a state or closing comes from the host's key at an
   edition above every one accepted before it.
   */
  lemma AcceptedFramesAreAuthorised(r: ReaderState, log: seq<Heard>, n: nat)
    requires TakenAt(r, log, n) && OwnStatesRise(r, log)
    ensures var frame, committed := log[n].frame, At(r, log, n).committed;
            && frame.Frame? && frame.opens && frame.signer.Some? && frame.keyId == frame.signer.value.id
            && IsPayload(frame.kind, frame.body)
            && (frame.kind == 0 && HasContent(Stream(frame.body)) ==> IsWriterOf(committed, frame.signer.value))
            && (frame.kind == 0 || frame.kind == 3 ==> frame.signer.value in committed)
            && (frame.kind == 1 || frame.kind == 2 ==>
                  && frame.signer.value == r.hostKey && EditionOf(frame).Some?
                  && forall m | 0 <= m < n && TakenAt(r, log, m) && EditionOf(log[m].frame).Some? ::
                       EditionOf(log[m].frame).value < EditionOf(frame).value)
            && (frame.kind == 4 ==> frame.body.AnnounceBody? && frame.body.key == frame.signer.value)
  {
    hide Judge;
    var frame := log[n].frame;
    AcceptedExactly(At(r, log, n), frame);
    AtStart(r, log);
    EditionsNeverFall(r, log, 0, n);
    if frame.kind == 1 || frame.kind == 2 {
      forall m | 0 <= m < n && TakenAt(r, log, m) && EditionOf(log[m].frame).Some?
        ensures EditionOf(log[m].frame).value < EditionOf(frame).value
      {
        AtSucc(r, log, m);
        OneMoreHeard(At(r, log, m), log[m]);
        EditionsNeverFall(r, log, m + 1, n);
      }
    }
  }

  lemma AtStart(r: ReaderState, log: seq<Heard>)
    ensures At(r, log, 0) == r
  {
    assert log[..0] == [];
  }

  /** The keys a state heard names. */
  function Names(heard: Heard): Option<map<PublicKey, PeerEntry>> {
    if heard.Own? then Some(heard.state.peers)
    else if heard.frame.Frame? && heard.frame.body.StateBody? then Some(heard.frame.body.state.peers)
    else None
  }

  /** Where a commitment comes from: the last state accepted or published names the key. */
  lemma {:induction false} CommitmentsAreTheHosts(r: ReaderState, log: seq<Heard>, n: nat) returns (m: nat)
    requires n <= |log|
    ensures m <= n
    ensures m == 0 ==> At(r, log, n).committed == r.committed
    ensures m > 0 ==> Names(log[m - 1]) == Some(At(r, log, n).committed)
    ensures m > 0 && log[m - 1].FromRelay? ==>
              TakenAt(r, log, m - 1) && log[m - 1].frame.kind == 1 && log[m - 1].frame.signer == Some(r.hostKey)
  {
    hide Judge;
    AtStart(r, log);
    if n == 0 {
      m := 0;
    } else {
      m := CommitmentsAreTheHosts(r, log, n - 1);
      AtSucc(r, log, n - 1);
      var before, heard := At(r, log, n - 1), log[n - 1];
      OneMoreHeard(before, heard);
      if heard.Own? {
        m := n;
      } else {
        AcceptedExactly(before, heard.frame);
        HostKeyStands(r, log, n - 1);
        if Judge(before, heard.frame).Accepted? && heard.frame.kind == 1 {
          m := n;
        }
      }
    }
  }

  lemma {:induction false} HostKeyStands(r: ReaderState, log: seq<Heard>, n: nat)
    requires n <= |log|
    ensures At(r, log, n).hostKey == r.hostKey
  {
    AtStart(r, log);
    if n != 0 {
      HostKeyStands(r, log, n - 1);
      AtSucc(r, log, n - 1);
      OneMoreHeard(At(r, log, n - 1), log[n - 1]);
    }
  }
}
