/**
 A frame's bytes: variable integers, the envelope they lay out, and the input a signature covers
 (crates/client/src/sealed.rs).
 */
module Envelopes {
  import opened Options
  import opened Arithmetic
  import opened Bytes

  // --- variable integers -----------------------------------------------------------------------

  /** LEB128, shortest form: seven bits a byte, low ones first, every byte but the last marked. */
  function Varuint(value: nat): (bytes: seq<Byte>)
    ensures bytes != []
  {
    if value < 128 then [value] else [value % 128 + 128] + Varuint(value / 128)
  }

  /** The number a run of bytes stands for, seven bits each, whatever their marks. */
  function ValueOf(bytes: seq<Byte>): nat {
    if bytes == [] then 0 else bytes[0] % 128 + 128 * ValueOf(bytes[1..])
  }

  /** How many bytes up to and with the first unmarked one, of the ten that 64 bits can need. */
  function Run(data: seq<Byte>, at: nat, seen: nat): (n: Option<nat>)
    requires at + seen <= |data| && seen <= 10
    ensures n.Some? ==> seen < n.value <= 10 && at + n.value <= |data|
    decreases 10 - seen
  {
    if seen == 10 || at + seen == |data| then None
    else if data[at + seen] < 128 then Some(seen + 1)
    else Run(data, at, seen + 1)
  }

  /** One variable integer and the offset after it: the exact value, or nothing. */
  function ReadVaruint(data: seq<Byte>, at: nat): (r: Option<(nat, nat)>)
    ensures r.Some? ==> at < r.value.1 <= |data| && r.value.0 < U64_LIMIT
  {
    if |data| < at then None
    else
      var n := Run(data, at, 0);
      if n.None? then None
      else
        var value := ValueOf(data[at..at + n.value]);
        if U64_LIMIT <= value then None else Some((value, at + n.value))
  }

  lemma {:induction false} ValueAppends(bytes: seq<Byte>, last: Byte)
    ensures ValueOf(bytes + [last]) == ValueOf(bytes) + last % 128 * Pow2(7 * |bytes|)
    decreases |bytes|
  {
    if bytes == [] {
      assert [last][1..] == [];
    } else {
      var n := 7 * |bytes[1..]|;
      assert (bytes + [last])[1..] == bytes[1..] + [last];
      ValueAppends(bytes[1..], last);
      Pow2By7(n);
      var low := last % 128;
      assert 128 * (low * Pow2(n)) == low * (128 * Pow2(n));
    }
  }

  lemma {:induction false} ValueBounded(bytes: seq<Byte>)
    ensures ValueOf(bytes) < Pow2(7 * |bytes|)
    decreases |bytes|
  {
    if bytes != [] {
      ValueBounded(bytes[1..]);
      Pow2By7(7 * |bytes[1..]|);
    }
  }

  /** The writer's loop: seven bits off the value at a time. */
  method WriteVaruint(value: nat) returns (out: seq<Byte>)
    requires value < U64_LIMIT
    ensures out == Varuint(value)
  {
    out := [];
    var rest := value;
    while true
      invariant out + Varuint(rest) == Varuint(value)
      decreases rest
    {
      var byte := rest % 128;
      var shifted := rest / 128;
      if shifted == 0 {
        out := out + [byte];
        return;
      }
      assert out + ([byte + 128] + Varuint(shifted)) == (out + [byte + 128]) + Varuint(shifted);
      out := out + [byte + 128];
      rest := shifted;
    }
  }

  /**
   The reader's loop. Each part lands above every bit already set, so the source's `|` is an
   addition here, and what is added always fits the word it is added in.
   */
  method ReadVaruintAt(data: seq<Byte>, at: nat) returns (r: Option<(nat, nat)>)
    ensures r == ReadVaruint(data, at)
  {
    hide Pow2;
    var value, shift, cursor := 0, 0, at;
    if |data| < at {
      return None;
    }
    assert data[at..at] == [];
    Pow2OfAWord();
    while true
      invariant at <= cursor <= |data| && shift == 7 * (cursor - at) && shift <= 63
      invariant value == ValueOf(data[at..cursor]) && value < Pow2(shift)
      invariant Run(data, at, 0) == Run(data, at, cursor - at)
      decreases |data| - cursor
    {
      if cursor == |data| {
        return None;
      }
      var byte := data[cursor];
      var low := byte % 128;
      ghost var seen := data[at..cursor];
      assert data[at..cursor + 1] == seen + [byte];
      ValueAppends(seen, byte);
      ValueBounded(seen + [byte]);
      cursor := cursor + 1;
      if shift == 63 && 1 < low {
        LongRunOverflows(data, at, cursor);
        return None;
      }
      PartFits(value, low, shift);
      value := value + low * Pow2(shift);
      if byte < 128 {
        return Some((value, cursor));
      }
      shift := shift + 7;
      if 63 < shift {
        return None;
      }
    }
  }

  lemma PartFits(value: nat, low: nat, shift: nat)
    requires value < Pow2(shift) && low < 128 && (shift == 63 ==> low <= 1) && (shift == 63 || shift <= 56)
    ensures value + low * Pow2(shift) < U64_LIMIT
  {
    hide Pow2;
    Pow2OfAWord();
    if shift <= 56 {
      Pow2By7(shift);
      Pow2Grows(shift + 7, 63);
      Times(low, 127, Pow2(shift));
    } else {
      Times(low, 1, Pow2(shift));
    }
  }

  /** A tenth byte past bit 0 is a value past 64 bits, or no terminator at all. */
  lemma LongRunOverflows(data: seq<Byte>, at: nat, cursor: nat)
    requires cursor <= |data| && cursor == at + 10 && 1 < data[cursor - 1] % 128
    requires Run(data, at, 0) == Run(data, at, 9)
    ensures ReadVaruint(data, at).None?
  {
    var low := data[cursor - 1] % 128;
    assert data[at..cursor] == data[at..cursor - 1] + [data[cursor - 1]];
    ValueAppends(data[at..cursor - 1], data[cursor - 1]);
    Pow2OfAWord();
    assert 2 * Pow2(63) <= low * Pow2(63);
  }

  // --- what is written reads back -----------------------------------------------------------------

  lemma {:induction false} VaruintIsShort(value: nat, bits: nat)
    requires value < Pow2(7 * bits) && bits > 0
    ensures |Varuint(value)| <= bits
    decreases bits
  {
    if 128 <= value {
      Pow2By7(7 * (bits - 1));
      if bits == 1 {
        assert Pow2(0) == 1;
      } else {
        VaruintIsShort(value / 128, bits - 1);
      }
    }
  }

  /** The marks and the value of what the writer writes. */
  lemma {:induction false} VaruintSpells(value: nat)
    ensures var w := Varuint(value);
            && ValueOf(w) == value && w[|w| - 1] < 128
            && forall i | 0 <= i < |w| - 1 :: 128 <= w[i]
    decreases value
  {
    var w := Varuint(value);
    if value < 128 {
      assert w[1..] == [];
    } else {
      VaruintSpells(value / 128);
      assert w[1..] == Varuint(value / 128);
    }
  }

  lemma {:induction false} RunFinds(data: seq<Byte>, at: nat, seen: nat, n: nat)
    requires seen < n <= 10 && at + n <= |data| && data[at + n - 1] < 128
    requires forall i | at + seen <= i < at + n - 1 :: 128 <= data[i]
    ensures Run(data, at, seen) == Some(n)
    decreases n - seen
  {
    if seen + 1 < n {
      RunFinds(data, at, seen + 1, n);
    }
  }

  lemma VaruintFitsTen(value: nat)
    requires value < U64_LIMIT
    ensures |Varuint(value)| <= 10
  {
    hide Pow2, Varuint;
    Pow2OfAWord();
    Pow2Grows(64, 70);
    VaruintIsShort(value, 10);
  }

  /** Print, then parse: wherever it stands and whatever follows it. */
  lemma VaruintReadsBack(before: seq<Byte>, value: nat, after: seq<Byte>)
    requires value < U64_LIMIT
    ensures ReadVaruint(before + Varuint(value) + after, |before|) == Some((value, |before| + |Varuint(value)|))
  {
    hide Varuint;
    var w, data := Varuint(value), before + Varuint(value) + after;
    VaruintFitsTen(value);
    VaruintSpells(value);
    forall i | |before| <= i < |before| + |w| ensures data[i] == w[i - |before|] {
    }
    RunFinds(data, |before|, 0, |w|);
    assert data[|before|..|before| + |w|] == w;
  }

  /** The bytes at `at` end a variable integer after `n` of them: all marked but the last. */
  predicate Terminates(data: seq<Byte>, at: nat, n: nat) {
    0 < n && at + n <= |data| && data[at + n - 1] < 128 && forall i | at <= i < at + n - 1 :: 128 <= data[i]
  }

  /**
   A reader's value is never a truncation: it reads exactly when a terminator comes within ten
   bytes and the number those bytes spell fits 64 bits, and then it is that number.
   */
  lemma ReadsExactlyOrFails(data: seq<Byte>, at: nat, value: nat, after: nat)
    ensures ReadVaruint(data, at) == Some((value, after)) <==>
              && at < after <= at + 10 && Terminates(data, at, after - at)
              && value == ValueOf(data[at..after]) && value < U64_LIMIT
  {
    if at < after <= at + 10 && Terminates(data, at, after - at) {
      RunFinds(data, at, 0, after - at);
    }
    if at <= |data| && Run(data, at, 0).Some? {
      RunTerminates(data, at, 0);
    }
  }

  /** Bytes that run out, or ten that are all marked, read as nothing. */
  lemma NoTerminatorNoValue(data: seq<Byte>, at: nat)
    requires forall n: nat | n <= 10 :: !Terminates(data, at, n)
    ensures ReadVaruint(data, at).None?
  {
    if at <= |data| && Run(data, at, 0).Some? {
      RunTerminates(data, at, 0);
    }
  }

  lemma {:induction false} RunTerminates(data: seq<Byte>, at: nat, seen: nat)
    requires at + seen <= |data| && seen <= 10 && Run(data, at, seen).Some?
    requires forall i | at <= i < at + seen :: 128 <= data[i]
    ensures Terminates(data, at, Run(data, at, seen).value)
    decreases 10 - seen
  {
    if 128 <= data[at + seen] {
      RunTerminates(data, at, seen + 1);
    }
  }

  /**
   Parse, then print: the same bytes come back exactly when they were the shortest spelling,
   one byte or a last byte that is not zero.
   */
  lemma {:induction false} ShortestSpelling(bytes: seq<Byte>)
    requires bytes != [] && bytes[|bytes| - 1] < 128 && forall i | 0 <= i < |bytes| - 1 :: 128 <= bytes[i]
    ensures Varuint(ValueOf(bytes)) == bytes <==> |bytes| == 1 || bytes[|bytes| - 1] != 0
    decreases |bytes|
  {
    var rest := bytes[1..];
    if |bytes| == 1 {
      assert rest == [] && bytes == [bytes[0]];
    } else {
      ShortestSpelling(rest);
      assert ValueOf(bytes) == bytes[0] % 128 + 128 * ValueOf(rest);
      assert bytes == [bytes[0]] + rest;
      if ValueOf(rest) == 0 {
        VaruintSpells(ValueOf(bytes));
        ZeroSpelling(rest);
        assert |Varuint(ValueOf(bytes))| == 1;
      } else {
        assert ValueOf(bytes) / 128 == ValueOf(rest) && ValueOf(bytes) % 128 + 128 == bytes[0];
        assert Varuint(ValueOf(bytes)) == [bytes[0]] + Varuint(ValueOf(rest));
        assert Varuint(ValueOf(bytes))[1..] == Varuint(ValueOf(rest));
        if |rest| == 1 {
          assert rest[1..] == [] && ValueOf(rest[1..]) == 0;
        }
      }
    }
  }

  lemma {:induction false} ZeroSpelling(bytes: seq<Byte>)
    requires bytes != [] && ValueOf(bytes) == 0
    ensures bytes[|bytes| - 1] % 128 == 0
    decreases |bytes|
  {
    if |bytes| > 1 {
      ZeroSpelling(bytes[1..]);
    }
  }

  // --- the envelope ---------------------------------------------------------------------------------

  datatype Envelope = Envelope(
    keyId: seq<Byte>, kind: nat, epoch: nat, counter: nat, nonce: seq<Byte>,
    ciphertext: seq<Byte>, signature: seq<Byte>)

  /** The widths of the source's fields. */
  predicate Sized(e: Envelope) {
    && |e.keyId| == 8 && |e.nonce| == 12 && |e.signature| == 64
    && e.kind < U64_LIMIT && e.epoch < U64_LIMIT && e.counter < U64_LIMIT && |e.ciphertext| < U64_LIMIT
  }

  function Lengthed(raw: seq<Byte>): seq<Byte> {
    Varuint(|raw|) + raw
  }

  function ToBytes(e: Envelope): seq<Byte> {
    e.keyId + Varuint(e.kind) + Varuint(e.epoch) + Varuint(e.counter) + e.nonce + Lengthed(e.ciphertext) + e.signature
  }

  function Fixed(raw: seq<Byte>, at: nat, width: nat): (r: Option<seq<Byte>>)
    ensures r.Some? ==> at + width <= |raw| && |r.value| == width
  {
    if at + width <= |raw| then Some(raw[at..at + width]) else None
  }

  function Parse(raw: seq<Byte>): (r: Option<Envelope>)
    ensures r.Some? ==> Sized(r.value)
  {
    var id := Fixed(raw, 0, 8);
    if id.None? then None else
    var kind := ReadVaruint(raw, 8);
    if kind.None? then None else
    var epoch := ReadVaruint(raw, kind.value.1);
    if epoch.None? then None else
    var counter := ReadVaruint(raw, epoch.value.1);
    if counter.None? then None else
    var nonce := Fixed(raw, counter.value.1, 12);
    if nonce.None? then None else
    var size := ReadVaruint(raw, counter.value.1 + 12);
    if size.None? then None else
    var ciphertext := Fixed(raw, size.value.1, size.value.0);
    if ciphertext.None? then None else
    var signature := Fixed(raw, size.value.1 + size.value.0, 64);
    if signature.None? || size.value.1 + size.value.0 + 64 != |raw| then None
    else Some(Envelope(id.value, kind.value.0, epoch.value.0, counter.value.0, nonce.value, ciphertext.value, signature.value))
  }

  lemma FixedReadsBack(before: seq<Byte>, field: seq<Byte>, after: seq<Byte>)
    ensures Fixed(before + field + after, |before|, |field|) == Some(field)
  {
    assert (before + field + after)[|before|..|before| + |field|] == field;
  }

  /** Every envelope's bytes parse back to it, and to nothing else. */
  lemma EnvelopeRoundTrips(e: Envelope)
    requires Sized(e)
    ensures Parse(ToBytes(e)) == Some(e)
  {
    hide Varuint, ReadVaruint, Fixed, Lengthed;
    var raw := ToBytes(e);
    var head := e.keyId + Varuint(e.kind) + Varuint(e.epoch) + Varuint(e.counter);
    var tail := e.nonce + Varuint(|e.ciphertext|) + e.ciphertext + e.signature;
    assert raw == head + tail by {
      LengthedIs(e.ciphertext);
    }
    HeadReadsBack(e, tail);
    TailReadsBack(head, e);
    assert |raw| == |head| + |tail|;
  }

  lemma LengthedIs(raw: seq<Byte>)
    ensures Lengthed(raw) == Varuint(|raw|) + raw
  {
  }

  lemma HeadReadsBack(e: Envelope, tail: seq<Byte>)
    requires Sized(e)
    ensures var a, b, c := e.keyId, e.keyId + Varuint(e.kind), e.keyId + Varuint(e.kind) + Varuint(e.epoch);
            var d := c + Varuint(e.counter);
            && Fixed(d + tail, 0, 8) == Some(a)
            && ReadVaruint(d + tail, 8) == Some((e.kind, |b|))
            && ReadVaruint(d + tail, |b|) == Some((e.epoch, |c|))
            && ReadVaruint(d + tail, |c|) == Some((e.counter, |d|))
  {
    hide Varuint, ReadVaruint, Fixed;
    var a, b, c := e.keyId, e.keyId + Varuint(e.kind), e.keyId + Varuint(e.kind) + Varuint(e.epoch);
    var d := c + Varuint(e.counter);
    var raw := d + tail;
    assert raw == [] + a + raw[8..];
    FixedReadsBack([], a, raw[8..]);
    assert raw == a + Varuint(e.kind) + raw[|b|..];
    VaruintReadsBack(a, e.kind, raw[|b|..]);
    assert raw == b + Varuint(e.epoch) + raw[|c|..];
    VaruintReadsBack(b, e.epoch, raw[|c|..]);
    VaruintReadsBack(c, e.counter, tail);
  }

  lemma TailReadsBack(head: seq<Byte>, e: Envelope)
    requires Sized(e)
    ensures var size := Varuint(|e.ciphertext|);
            var raw := head + (e.nonce + size + e.ciphertext + e.signature);
            var f, g := |head| + 12, |head| + 12 + |size|;
            && Fixed(raw, |head|, 12) == Some(e.nonce)
            && ReadVaruint(raw, f) == Some((|e.ciphertext|, g))
            && Fixed(raw, g, |e.ciphertext|) == Some(e.ciphertext)
            && Fixed(raw, g + |e.ciphertext|, 64) == Some(e.signature)
  {
    hide Varuint, ReadVaruint, Fixed;
    var size := Varuint(|e.ciphertext|);
    var raw := head + (e.nonce + size + e.ciphertext + e.signature);
    var f := head + e.nonce;
    var g := f + size;
    var h := g + e.ciphertext;
    assert raw == head + e.nonce + raw[|f|..];
    FixedReadsBack(head, e.nonce, raw[|f|..]);
    assert raw == f + size + raw[|g|..];
    VaruintReadsBack(f, |e.ciphertext|, raw[|g|..]);
    assert raw == g + e.ciphertext + raw[|h|..];
    FixedReadsBack(g, e.ciphertext, raw[|h|..]);
    assert raw == h + e.signature + [];
    FixedReadsBack(h, e.signature, []);
  }

  /**
   Where the fields stand: the key's id in the first eight bytes and the signature in the last 64;
   and in a frame whose three numbers are one byte each, those at 8, 9 and 10, the nonce in the
   twelve from 11 and the ciphertext's length at 23.
   */
  lemma TheLayout(e: Envelope)
    requires Sized(e)
    ensures var raw := ToBytes(e);
            && 72 <= |raw| && raw[..8] == e.keyId && raw[|raw| - 64..] == e.signature
            && (e.kind < 128 && e.epoch < 128 && e.counter < 128 && |e.ciphertext| < 128 ==>
                  && |raw| == 88 + |e.ciphertext|
                  && raw[8] == e.kind && raw[9] == e.epoch && raw[10] == e.counter && raw[11..23] == e.nonce
                  && raw[23] == |e.ciphertext| && raw[24..|raw| - 64] == e.ciphertext)
  {
    hide Varuint;
    OneByteSpells(e.kind);
    OneByteSpells(e.epoch);
    OneByteSpells(e.counter);
    OneByteSpells(|e.ciphertext|);
  }

  lemma OneByteSpells(value: nat)
    ensures value < 128 ==> Varuint(value) == [value]
  {
  }

  /** Distinct envelopes never share their bytes. */
  lemma BytesDecodeUniquely(e: Envelope, f: Envelope)
    requires Sized(e) && Sized(f) && ToBytes(e) == ToBytes(f)
    ensures e == f
  {
    EnvelopeRoundTrips(e);
    EnvelopeRoundTrips(f);
  }

  // --- what a signature covers --------------------------------------------------------------------

  /** "selvage/2" */
  const DOMAIN: seq<Byte> := [115, 101, 108, 118, 97, 103, 101, 47, 50]

  function AssociatedData(room: seq<Byte>, kind: nat, epoch: nat, keyId: seq<Byte>): seq<Byte> {
    Lengthed(DOMAIN) + Lengthed(room) + Varuint(kind) + Varuint(epoch) + Lengthed(keyId)
  }

  function SigningInput(aad: seq<Byte>, e: Envelope): seq<Byte> {
    aad + Varuint(e.counter) + Lengthed(e.nonce) + Lengthed(e.ciphertext)
  }

  lemma VaruintIsPrefixFree(x: nat, a: seq<Byte>, y: nat, b: seq<Byte>)
    requires x < U64_LIMIT && y < U64_LIMIT && Varuint(x) + a == Varuint(y) + b
    ensures x == y && a == b
  {
    assert [] + Varuint(x) + a == Varuint(x) + a && [] + Varuint(y) + b == Varuint(y) + b;
    VaruintReadsBack([], x, a);
    VaruintReadsBack([], y, b);
    assert a == (Varuint(x) + a)[|Varuint(x)|..];
  }

  lemma LengthedIsPrefixFree(x: seq<Byte>, a: seq<Byte>, y: seq<Byte>, b: seq<Byte>)
    requires |x| < U64_LIMIT && |y| < U64_LIMIT && Lengthed(x) + a == Lengthed(y) + b
    ensures x == y && a == b
  {
    assert Lengthed(x) + a == Varuint(|x|) + (x + a) && Lengthed(y) + b == Varuint(|y|) + (y + b);
    VaruintIsPrefixFree(|x|, x + a, |y|, y + b);
    assert x == (x + a)[..|x|] && a == (x + a)[|x|..];
  }

  /** Equal signing inputs are inputs of one frame in one room: a signature is good for no other. */
  lemma SigningInputIsInjective(room: seq<Byte>, e: Envelope, otherRoom: seq<Byte>, f: Envelope)
    requires Sized(e) && Sized(f) && |room| < U64_LIMIT && |otherRoom| < U64_LIMIT
    requires SigningInput(AssociatedData(room, e.kind, e.epoch, e.keyId), e)
          == SigningInput(AssociatedData(otherRoom, f.kind, f.epoch, f.keyId), f)
    ensures room == otherRoom && e == f.(signature := e.signature)
  {
    hide Varuint, Lengthed;
    var left := Tail(room, e);
    var right := Tail(otherRoom, f);
    LengthedIsPrefixFree(DOMAIN, left, DOMAIN, right);
    LengthedIsPrefixFree(room, AfterRoom(e), otherRoom, AfterRoom(f));
    VaruintIsPrefixFree(e.kind, AfterKind(e), f.kind, AfterKind(f));
    VaruintIsPrefixFree(e.epoch, AfterEpoch(e), f.epoch, AfterEpoch(f));
    LengthedIsPrefixFree(e.keyId, AfterKey(e), f.keyId, AfterKey(f));
    VaruintIsPrefixFree(e.counter, Lengthed(e.nonce) + Lengthed(e.ciphertext), f.counter, Lengthed(f.nonce) + Lengthed(f.ciphertext));
    LengthedIsPrefixFree(e.nonce, Lengthed(e.ciphertext), f.nonce, Lengthed(f.ciphertext));
    assert Lengthed(e.ciphertext) + [] == Lengthed(e.ciphertext) && Lengthed(f.ciphertext) + [] == Lengthed(f.ciphertext);
    LengthedIsPrefixFree(e.ciphertext, [], f.ciphertext, []);
  }

  function AfterKey(e: Envelope): seq<Byte> {
    Varuint(e.counter) + (Lengthed(e.nonce) + Lengthed(e.ciphertext))
  }

  function AfterEpoch(e: Envelope): seq<Byte> {
    Lengthed(e.keyId) + AfterKey(e)
  }

  function AfterKind(e: Envelope): seq<Byte> {
    Varuint(e.epoch) + AfterEpoch(e)
  }

  function AfterRoom(e: Envelope): seq<Byte> {
    Varuint(e.kind) + AfterKind(e)
  }

  /** The signing input after its domain, bracketed from the right. */
  function Tail(room: seq<Byte>, e: Envelope): (tail: seq<Byte>)
    ensures Lengthed(DOMAIN) + tail == SigningInput(AssociatedData(room, e.kind, e.epoch, e.keyId), e)
  {
    Lengthed(room) + AfterRoom(e)
  }
}
