/** Reads that carry their own length, as the V1 format has them: what `AnyReader` asks of a primitive. */
module Prefixes {
  import opened Options
  import opened Bytes
  import opened Envelopes
  import opened AnyReader

  /** The bytes a length-prefixed run takes: the variable integer and as many more as it says. */
  function Prefixed(bytes: seq<Byte>): Option<nat> {
    var length := ReadVaruint(bytes, 0);
    if length.None? then None else Some(length.value.1 + length.value.0)
  }

  function Marked(bytes: seq<Byte>): Option<nat> {
    var length := ReadVaruint(bytes, 0);
    if length.None? then None else Some(length.value.1)
  }

  function Parts(): Primitives {
    Primitives(bytes => ReadVaruint(bytes, 0), Marked, Prefixed, Prefixed)
  }

  /** A variable integer reads alike from any bytes that begin as it does. */
  lemma VaruintsAreLocal(left: seq<Byte>, right: seq<Byte>, value: nat, after: nat)
    requires ReadVaruint(left, 0) == Some((value, after)) && after <= |right| && after <= |left| && left[..after] == right[..after]
    ensures ReadVaruint(right, 0) == Some((value, after))
  {
    ReadsExactlyOrFails(left, 0, value, after);
    ReadsExactlyOrFails(right, 0, value, after);
    assert left[0..after] == right[0..after];
    assert forall i | 0 <= i < after :: right[i] == left[..after][i];
  }

  lemma VaruintsEndInside(bytes: seq<Byte>)
    requires ReadVaruint(bytes, 0).Some?
    ensures ReadVaruint(bytes, 0).value.1 <= |bytes|
  {
    ReadsExactlyOrFails(bytes, 0, ReadVaruint(bytes, 0).value.0, ReadVaruint(bytes, 0).value.1);
  }

  lemma MoreBytesReadAlike(word: seq<Byte>, rest: seq<Byte>)
    requires ReadVaruint(word, 0).Some?
    ensures ReadVaruint(word + rest, 0) == ReadVaruint(word, 0)
  {
    VaruintsEndInside(word);
    var after := ReadVaruint(word, 0).value.1;
    assert (word + rest)[..after] == word[..after];
    VaruintsAreLocal(word, word + rest, ReadVaruint(word, 0).value.0, after);
  }

  lemma FewerBytesReadAlike(bytes: seq<Byte>, n: nat)
    requires n <= |bytes| && ReadVaruint(bytes, 0).Some? && ReadVaruint(bytes, 0).value.1 <= n
    ensures ReadVaruint(bytes[..n], 0) == ReadVaruint(bytes, 0)
  {
    var after := ReadVaruint(bytes, 0).value.1;
    assert bytes[..n][..after] == bytes[..after];
    VaruintsAreLocal(bytes, bytes[..n], ReadVaruint(bytes, 0).value.0, after);
  }

  lemma RunsAreLocal(read: seq<Byte> -> Option<nat>)
    requires read == Marked || read == Prefixed
    ensures IsLocal(read)
  {
    hide ReadVaruint;
    forall word: seq<Byte>, rest: seq<Byte> | Spells(read, word) ensures read(word + rest) == Some(|word|) {
      MoreBytesReadAlike(word, rest);
    }
    forall bytes: seq<Byte>, n: nat | n <= |bytes| && read(bytes) == Some(n) ensures read(bytes[..n]) == Some(n) {
      FewerBytesReadAlike(bytes, n);
    }
  }

  /** Reads of these kinds see only what they take, so what is proved of every such reader is of them. */
  lemma PartsAreLocal()
    ensures Local(Parts())
  {
    hide ReadVaruint, IsLocal;
    RunsAreLocal(Marked);
    RunsAreLocal(Prefixed);
    forall word: seq<Byte>, rest: seq<Byte> | ReadVaruint(word, 0).Some? ensures ReadVaruint(word + rest, 0) == ReadVaruint(word, 0) {
      MoreBytesReadAlike(word, rest);
    }
    forall bytes: seq<Byte>, n: nat | n <= |bytes| && ReadVaruint(bytes, 0).Some? && ReadVaruint(bytes, 0).value.1 <= n
      ensures ReadVaruint(bytes[..n], 0) == ReadVaruint(bytes, 0)
    {
      FewerBytesReadAlike(bytes, n);
    }
  }
}
