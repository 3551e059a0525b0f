/**
 The replicated document, as far as the session's decisions depend on it: a grow-only set of
 atoms, each numbered by the client that wrote it. Integration of text positions is the CRDT
 library's business and not part of this model; which atoms a replica holds is what a state
 vector summarises and what a diff carries.
 */
module Replica {
  type ClientId = nat

  datatype Atom = Atom(client: ClientId, clock: nat, payload: string)

  type Doc = set<Atom>

  type Vector = map<ClientId, nat>

  /** An encoded update. Whether it decodes is a fact about its bytes alone. */
  datatype Delta = Atoms(atoms: set<Atom>) | Malformed | TooDeep

  /** `n` is the clock the client's next atom takes: above every clock it used, and no further. */
  ghost predicate IsNextClock(doc: Doc, client: ClientId, n: nat) {
    && (forall a <- doc | a.client == client :: a.clock < n)
    && (n == 0 || exists a <- doc :: a.client == client && a.clock == n - 1)
  }

  lemma NextClockExists(doc: Doc, client: ClientId) returns (n: nat)
    ensures IsNextClock(doc, client, n)
  {
    n := 0;
    var rest := doc;
    while rest != {}
      invariant rest <= doc
      invariant IsNextClock(doc - rest, client, n)
      decreases rest
    {
      ghost var done := doc - rest;
      var a :| a in rest;
      rest := rest - {a};
      assert doc - rest == done + {a};
      if a.client == client && n <= a.clock {
        n := a.clock + 1;
      }
    }
    assert doc - rest == doc;
  }

  ghost function NextClock(doc: Doc, client: ClientId): (n: nat)
    ensures IsNextClock(doc, client, n)
  {
    assert exists k: nat :: IsNextClock(doc, client, k) by {
      var k := NextClockExists(doc, client);
    }
    var n: nat :| IsNextClock(doc, client, n);
    n
  }

  /** The clock is determined by the document, so a loop that finds one finds this one. */
  lemma NextClockUnique(doc: Doc, client: ClientId, n: nat)
    requires IsNextClock(doc, client, n)
    ensures n == NextClock(doc, client)
  {
    NextClockBound(doc, client, n, NextClock(doc, client));
    NextClockBound(doc, client, NextClock(doc, client), n);
  }

  lemma NextClockBound(doc: Doc, client: ClientId, n: nat, m: nat)
    requires IsNextClock(doc, client, n) && IsNextClock(doc, client, m)
    ensures n <= m
  {
    if n != 0 {
      var a :| a in doc && a.client == client && a.clock == n - 1;
    }
  }

  ghost function StateVector(doc: Doc): Vector {
    map c | c in (set a <- doc :: a.client) :: NextClock(doc, c)
  }

  function Known(vector: Vector, client: ClientId): nat {
    if client in vector then vector[client] else 0
  }

  /** What a `SyncStep2` carries in answer to a state vector: every atom the vector is short of. */
  function Diff(doc: Doc, vector: Vector): set<Atom> {
    set a <- doc | Known(vector, a.client) <= a.clock
  }

  ghost function Author(doc: Doc, client: ClientId, payload: string): Atom {
    Atom(client, NextClock(doc, client), payload)
  }

  /**
   An edit's own delta, taken against the vector read before the edit, is the new atom and
   nothing else: an edit that is held back and sent later carries no peer's change with it.
   */
  lemma EditDeltaIsTheEdit(doc: Doc, client: ClientId, payload: string)
    ensures var a := Author(doc, client, payload);
            a !in doc && Diff(doc + {a}, StateVector(doc)) == {a}
  {
    var a := Author(doc, client, payload);
    var v := StateVector(doc);
    forall b <- doc ensures b.clock < Known(v, b.client) {
      assert b.client in (set x <- doc :: x.client);
    }
    if client in v {
      assert v[client] == NextClock(doc, client);
    }
  }

  ghost predicate HasAtom(doc: Doc, client: ClientId, clock: int) {
    exists a <- doc :: a.client == client && a.clock == clock
  }

  /** A replica with no gap in any client's run of clocks, and one atom per clock. */
  ghost predicate Contiguous(doc: Doc) {
    forall a <- doc, k | 0 <= k < a.clock :: HasAtom(doc, a.client, k)
  }

  ghost predicate Agree(left: Doc, right: Doc) {
    forall a <- left, b <- right | a.client == b.client && a.clock == b.clock :: a == b
  }

  /**
   A request answered is a gap closed: applying the diff a peer computes for this replica's
   state vector leaves exactly the union of the two replicas.
   */
  lemma AnsweredRequestConverges(asker: Doc, peer: Doc)
    requires Contiguous(asker) && Agree(asker, peer)
    ensures asker + Diff(peer, StateVector(asker)) == asker + peer
  {
    var v := StateVector(asker);
    forall b <- peer | b !in Diff(peer, v) ensures b in asker {
      assert b.clock < Known(v, b.client);
      assert b.client in v && v[b.client] == NextClock(asker, b.client);
      var top :| top in asker && top.client == b.client && top.clock == NextClock(asker, b.client) - 1;
      if top.clock != b.clock {
        assert HasAtom(asker, top.client, b.clock);
        var c :| c in asker && c.client == top.client && c.clock == b.clock;
        assert c == b;
      }
    }
  }
}
