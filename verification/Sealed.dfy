/**
 The receiver's byte layer: the ten read steps in their order, the replay marks with their cap,
 and the keys an applied state commits (crates/client/src/sealed.rs).
 */
module Sealed {
  import opened Options
  import opened Frames

  datatype Reason =
    | BadEnvelope | UnknownKind | UnknownEpoch | UncommittedKey | ReplayedCounter
    | BadSignature | BadAead | BadPayload | StaleIssued | UnauthorisedContent

  datatype Verdict =
    | Refused(reason: Reason, claimed: Option<nat>, conflict: bool)
    | Accepted(kind: nat, key: PublicKey, counter: nat, body: Body)

  datatype Mark = Mark(counter: nat, seen: nat)

  type Marks = map<KeyId, Mark>

  const UNCOMMITTED_MARKS: nat := 64

  datatype ReaderState = ReaderState(
    hostKey: PublicKey,
    committed: map<PublicKey, PeerEntry>,
    marks: Marks,
    moved: nat,
    issued: nat,
    ended: bool)

  // --- marks ---------------------------------------------------------------------------

  function MarkOf(marks: Marks, id: KeyId): nat {
    if id in marks then marks[id].counter else 0
  }

  function CommittedIds(committed: map<PublicKey, PeerEntry>): set<KeyId> {
    set k <- committed :: k.id
  }

  /** The ids with a mark that no committed key owns. */
  function Loose(marks: Marks, kept: set<KeyId>): set<KeyId> {
    set id <- marks | id !in kept
  }

  predicate Earlier(marks: Marks, left: KeyId, right: KeyId)
    requires left in marks && right in marks
  {
    marks[left].seen < marks[right].seen || (marks[left].seen == marks[right].seen && left <= right)
  }

  predicate IsOldest(marks: Marks, ids: set<KeyId>, id: KeyId)
    requires ids <= marks.Keys
  {
    id in ids && forall other <- ids :: Earlier(marks, id, other)
  }

  lemma OldestExists(marks: Marks, ids: set<KeyId>) returns (id: KeyId)
    requires ids <= marks.Keys && ids != {}
    ensures IsOldest(marks, ids, id)
  {
    id :| id in ids;
    var rest := ids - {id};
    while rest != {}
      invariant id in ids && rest <= ids
      invariant forall other <- ids - rest :: Earlier(marks, id, other)
      decreases rest
    {
      var next :| next in rest;
      ghost var done := ids - rest;
      if !Earlier(marks, id, next) {
        id := next;
      }
      rest := rest - {next};
      assert ids - rest == done + {next};
    }
  }

  ghost function Oldest(marks: Marks, ids: set<KeyId>): (id: KeyId)
    requires ids <= marks.Keys && ids != {}
    ensures IsOldest(marks, ids, id)
  {
    assert exists i: KeyId :: IsOldest(marks, ids, i) by {
      var i := OldestExists(marks, ids);
    }
    var id: KeyId :| IsOldest(marks, ids, id);
    id
  }

  /** The marks left once the oldest loose ones past the cap are gone. */
  ghost function Capped(marks: Marks, kept: set<KeyId>): Marks
    decreases |marks|
  {
    var loose := Loose(marks, kept);
    if |loose| <= UNCOMMITTED_MARKS then marks
    else
      var id := Oldest(marks, loose);
      assert |marks - {id}| < |marks| by {
        assert marks.Keys == (marks - {id}).Keys + {id};
      }
      Capped(marks - {id}, kept)
  }

  /**
   What the cap leaves, whatever it had to evict: every committed id's mark untouched, at most
   64 loose ones, and among the loose ones the most recently moved.
   */
  lemma {:induction false} CapKeepsTheNewest(marks: Marks, kept: set<KeyId>)
    ensures var left := Capped(marks, kept);
            && left.Keys <= marks.Keys
            && (forall id <- left :: left[id] == marks[id])
            && (forall id <- marks | id in kept :: id in left)
            && |Loose(left, kept)| == (if |Loose(marks, kept)| <= UNCOMMITTED_MARKS then |Loose(marks, kept)| else UNCOMMITTED_MARKS)
            && (forall gone <- marks, stays <- left | gone !in left && stays !in kept :: Earlier(marks, gone, stays))
    decreases |marks|
  {
    var loose := Loose(marks, kept);
    if UNCOMMITTED_MARKS < |loose| {
      var id := Oldest(marks, loose);
      var fewer := marks - {id};
      assert marks.Keys == fewer.Keys + {id};
      assert |fewer.Keys| < |marks.Keys|;
      assert Loose(fewer, kept) == loose - {id};
      CapKeepsTheNewest(fewer, kept);
      var left := Capped(fewer, kept);
      forall gone <- marks, stays <- left | gone !in left && stays !in kept
        ensures Earlier(marks, gone, stays)
      {
        if gone != id {
          assert gone in fewer && Earlier(fewer, gone, stays);
        } else {
          assert stays in loose;
        }
      }
    }
  }

  /** `Reader::mark`: the id's mark moves to at least `counter`, becomes the newest, and the cap runs. */
  ghost function Marked(r: ReaderState, id: KeyId, counter: nat): ReaderState {
    var seen := r.moved + 1;
    var before := MarkOf(r.marks, id);
    var mark := Mark(if before < counter then counter else before, seen);
    r.(moved := seen, marks := Capped(r.marks[id := mark], CommittedIds(r.committed)))
  }

  predicate Replayed(r: ReaderState, id: KeyId, counter: nat) {
    counter <= MarkOf(r.marks, id)
  }

  // --- the read ------------------------------------------------------------------------

  function Refuse(reason: Reason, frame: Frame): Verdict
  {
    Refused(reason, if frame.Frame? then Some(frame.kind) else None, false)
  }

  /** The keys a frame's id may be resolved to: the host's for a state or closing, else the committed ones. */
  function Candidates(hostKey: PublicKey, committed: map<PublicKey, PeerEntry>, frame: Frame): set<PublicKey>
    requires frame.Frame?
  {
    if frame.kind == 1 || frame.kind == 2 then
      (if hostKey.id == frame.keyId then {hostKey} else {})
    else
      set k <- committed | k.id == frame.keyId
  }

  function RoleOf(committed: map<PublicKey, PeerEntry>, key: PublicKey): Option<Role> {
    if key in committed then Some(committed[key].role) else None
  }

  /** Step 8: whether the plaintext is a payload of the frame's kind. */
  predicate Reads(kind: nat, body: Body) {
    match kind
    case 0 => !NestsTooDeep(Stream(body))
    case 1 => body.StateBody?
    case 2 => body.ClosingBody? && body.closing
    case 3 => body.HoldsBody?
    case _ => body.AnnounceBody?
  }

  function IssuedOf(kind: nat, body: Body): Option<nat> {
    if kind == 1 && body.StateBody? then Some(body.state.issued)
    else if kind == 2 && body.ClosingBody? then Some(body.issued)
    else None
  }

  /** The verdict on one frame, before an accepted one is folded in: the first step that refuses. */
  function Judge(r: ReaderState, frame: Frame): Verdict {
    if frame.Garbage? then Refuse(BadEnvelope, frame)
    else if 4 < frame.kind then Refuse(UnknownKind, frame)
    else if frame.epoch != 0 then Refuse(UnknownEpoch, frame)
    else if frame.kind == 4 then JudgeAnnouncement(r, frame)
    else JudgeOrdinary(r, frame)
  }

  function JudgeAnnouncement(r: ReaderState, frame: Frame): Verdict
    requires frame.Frame?
  {
    if !frame.opens then Refuse(BadAead, frame)
    else if !Reads(4, frame.body) then Refuse(BadPayload, frame)
    else if frame.body.key.id != frame.keyId then Refuse(UncommittedKey, frame)
    else if frame.signer != Some(frame.body.key) then Refuse(BadSignature, frame)
    else if Replayed(r, frame.keyId, frame.counter) then Refuse(ReplayedCounter, frame)
    else Accepted(4, frame.body.key, frame.counter, frame.body)
  }

  function JudgeOrdinary(r: ReaderState, frame: Frame): Verdict
    requires frame.Frame?
  {
    var candidates := Candidates(r.hostKey, r.committed, frame);
    if candidates == {} then Refuse(UncommittedKey, frame)
    else if (frame.kind == 0 || frame.kind == 3) && Replayed(r, frame.keyId, frame.counter) then
      Refuse(ReplayedCounter, frame)
    else if frame.signer.None? || frame.signer.value !in candidates then Refuse(BadSignature, frame)
    else if !frame.opens then Refuse(BadAead, frame)
    else if !Reads(frame.kind, frame.body) then Refuse(BadPayload, frame)
    else
      var key := frame.signer.value;
      var issued := IssuedOf(frame.kind, frame.body);
      if issued.Some? && issued.value <= r.issued then
        Refused(StaleIssued, Some(frame.kind), issued.value == r.issued && frame.kind == 1)
      else if frame.kind == 0 && HasContent(Stream(frame.body)) && RoleOf(r.committed, key) == Some(ViewerRole) then
        Refuse(UnauthorisedContent, frame)
      else Accepted(frame.kind, key, frame.counter, frame.body)
  }

  /** `Reader::apply_state`: a state replaces the keys and roles of the whole room. */
  function Applied(r: ReaderState, state: RoomState): ReaderState {
    r.(committed := state.peers, issued := state.issued)
  }

  ghost function Folded(r: ReaderState, v: Verdict): ReaderState
    requires v.Accepted?
  {
    match v.kind
    case 1 => if v.body.StateBody? then Applied(r, v.body.state) else r
    case 2 => if v.body.ClosingBody? then r.(issued := v.body.issued, ended := true) else r
    case _ => Marked(r, v.key.id, v.counter)
  }

  /** `Reader::read`: one frame, one verdict, and the reader it leaves. */
  ghost function Read(r: ReaderState, frame: Frame): ReaderState {
    var v := Judge(r, frame);
    if v.Accepted? then Folded(r, v) else r
  }
}
