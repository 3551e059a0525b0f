/**
 One sealed frame as a receiver sees it, with signing and sealing ideal: a frame records which
 key's signature it really carries and whether its ciphertext opens, so that a verifier learns
 the signer and nothing can be forged. The byte layout is the Envelope module's subject.
 */
module Frames {
  import opened Options
  import opened Replica

  type KeyId = nat
  type Seat = string
  type Path = string

  /**
   A 32-byte public key: the place of its canonical spelling in ascending order, and the eight
   digest bytes that index it. Two keys may share an id; the digest function is not modelled.
   */
  datatype PublicKey = PublicKey(spelling: nat, id: KeyId)

  datatype Role = HostRole | GuestRole | ViewerRole

  predicate IsWriterRole(role: Option<Role>) {
    role == Some(HostRole) || role == Some(GuestRole)
  }

  datatype PeerEntry = PeerEntry(seat: Seat, role: Role)

  datatype RoomState = RoomState(issued: nat, listing: seq<Path>, peers: map<PublicKey, PeerEntry>)

  /** One y-protocols message; an awareness entry set is reduced to whether it reads. */
  datatype Message =
    | SyncStep1(vector: Vector)
    | SyncStep2(delta: Delta)
    | Update(delta: Delta)
    | Awareness(readable: bool)
    | Auth
    | AwarenessQuery
    | Custom

  predicate CarriesContent(message: Message) {
    message.SyncStep2? || message.Update?
  }

  /** What a plaintext parses to. A state or announcement that breaks a value rule is `Unread`. */
  datatype Body =
    | Unread
    | StateBody(state: RoomState)
    | ClosingBody(closing: bool, issued: nat)
    | HoldsBody(paths: set<Path>)
    | AnnounceBody(key: PublicKey, declared: Option<Role>)
    | StreamBody(messages: seq<Message>)

  datatype Frame =
    | Garbage
    | Frame(keyId: KeyId, kind: nat, epoch: nat, counter: nat,
            signer: Option<PublicKey>, opens: bool, body: Body)

  /** The kinds a session key signs, and the only ones a replay mark is read against. */
  predicate Marking(frame: Frame) {
    frame.Frame? && (frame.kind == 0 || frame.kind == 3 || frame.kind == 4)
  }

  /** The stream a `kind = 0` plaintext is read as, whatever its bytes were meant to be. */
  function Stream(body: Body): seq<Message> {
    if body.StreamBody? then body.messages else []
  }

  /** Document content anywhere in the stream. */
  predicate HasContent(messages: seq<Message>) {
    exists m <- messages :: CarriesContent(m)
  }

  /** Whether the walk meets an update nested past the bound before a message it stops at. */
  predicate NestsTooDeep(messages: seq<Message>) {
    messages != [] && !messages[0].Custom? &&
    ((CarriesContent(messages[0]) && messages[0].delta.TooDeep?) || NestsTooDeep(messages[1..]))
  }
}
