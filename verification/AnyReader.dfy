/**
 An `Any` value in its V1 bytes, and the recursive reader of it with a meter on its depth
 (crates/client/src/nesting.rs). How the library reads a variable integer, a string or a buffer is
 a parameter; each scalar's tag and width, and how containers nest, are written out twice, as an
 encoding and as a reader, and each is proved of the other.
 */
module AnyReader {
  import opened Options
  import opened Bytes

  /** How many bytes each primitive takes from the front of the input, and a length's value. */
  datatype Primitives = Primitives(
    length: seq<Byte> -> Option<(nat, nat)>,
    integer: seq<Byte> -> Option<nat>,
    text: seq<Byte> -> Option<nat>,
    buffer: seq<Byte> -> Option<nat>)

  predicate IsContainer(tag: Byte) {
    tag == 117 || tag == 118
  }

  /** The cursor past `taken` bytes, if the input has them. */
  function Past(bytes: seq<Byte>, pos: nat, taken: Option<nat>): (next: Option<nat>)
    requires pos <= |bytes|
    ensures next.Some? ==> pos <= next.value <= |bytes|
  {
    if taken.Some? && pos + taken.value <= |bytes| then Some(pos + taken.value) else None
  }

  /** The cursor past a scalar whose tag is already read; `None` for bytes that cannot be one. */
  function PastScalar(prims: Primitives, bytes: seq<Byte>, tag: Byte, pos: nat): (next: Option<nat>)
    requires pos <= |bytes|
    ensures next.Some? ==> pos <= next.value <= |bytes|
  {
    match tag
    case 120 | 121 | 126 | 127 => Some(pos)
    case 125 => Past(bytes, pos, prims.integer(bytes[pos..]))
    case 124 => Past(bytes, pos, Some(4))
    case 123 => Past(bytes, pos, Some(8))
    case 122 => Past(bytes, pos, Some(8))
    case 119 => Past(bytes, pos, prims.text(bytes[pos..]))
    case 116 => Past(bytes, pos, prims.buffer(bytes[pos..]))
    case _ => None
  }

  /** A container's claimed length and the cursor past it. */
  function PastLength(prims: Primitives, bytes: seq<Byte>, pos: nat): (read: Option<(nat, nat)>)
    requires pos <= |bytes|
    ensures read.Some? ==> pos <= read.value.1 <= |bytes|
  {
    var length := prims.length(bytes[pos..]);
    if length.None? || |bytes| < pos + length.value.1 then None
    else Some((length.value.0, pos + length.value.1))
  }

  function PastKey(prims: Primitives, bytes: seq<Byte>, isMap: bool, pos: nat): (next: Option<nat>)
    requires pos <= |bytes|
    ensures next.Some? ==> pos <= next.value <= |bytes|
  {
    if isMap then Past(bytes, pos, prims.text(bytes[pos..])) else Some(pos)
  }

  // --- the recursive reader --------------------------------------------------------------------

  function Max(x: nat, y: nat): nat {
    if x < y then y else x
  }

  /**
   The reader with no bound of its own, and a meter on it: where the value ends, if it reads to
   its end, and the most containers it was ever told to have open at once on the way.
   */
  function Decode(prims: Primitives, bytes: seq<Byte>, pos: nat, open: nat): (r: (Option<nat>, nat))
    requires pos <= |bytes|
    ensures r.0.Some? ==> pos < r.0.value <= |bytes|
    decreases |bytes| - pos, 0
  {
    if pos == |bytes| then (None, open)
    else if IsContainer(bytes[pos]) then
      var length := PastLength(prims, bytes, pos + 1);
      if length.None? then (None, open + 1)
      else DecodeItems(prims, bytes, length.value.1, length.value.0, bytes[pos] == 118, open + 1)
    else (PastScalar(prims, bytes, bytes[pos], pos + 1), open)
  }

  function DecodeItems(prims: Primitives, bytes: seq<Byte>, pos: nat, left: nat, isMap: bool, open: nat): (r: (Option<nat>, nat))
    requires pos <= |bytes|
    ensures r.0.Some? ==> pos <= r.0.value <= |bytes|
    decreases |bytes| - pos, 1
  {
    if left == 0 then (Some(pos), open)
    else
      var key := PastKey(prims, bytes, isMap, pos);
      if key.None? then (None, open)
      else
        var (end, deepest) := Decode(prims, bytes, key.value, open);
        if end.None? then (None, deepest)
        else
          var (last, rest) := DecodeItems(prims, bytes, end.value, left - 1, isMap, open);
          (last, Max(deepest, rest))
  }

  lemma {:induction false} MeterNeverFalls(prims: Primitives, bytes: seq<Byte>, pos: nat, left: nat, isMap: bool, open: nat)
    requires pos <= |bytes|
    ensures open <= Decode(prims, bytes, pos, open).1
    ensures open <= DecodeItems(prims, bytes, pos, left, isMap, open).1
    decreases |bytes| - pos
  {
    if pos < |bytes| && IsContainer(bytes[pos]) {
      var length := PastLength(prims, bytes, pos + 1);
      if length.Some? {
        MeterNeverFalls(prims, bytes, length.value.1, length.value.0, bytes[pos] == 118, open + 1);
      }
    }
    if left != 0 && PastKey(prims, bytes, isMap, pos).Some? {
      var key := PastKey(prims, bytes, isMap, pos).value;
      if key > pos {
        MeterNeverFalls(prims, bytes, key, 0, isMap, open);
      }
    }
  }

  // --- values and their bytes --------------------------------------------------------------------

  /** A value as it is spelled: its variable-length parts and its words are the bytes they stand as. */
  datatype Any =
    | Undefined
    | Null
    | Boolean(value: bool)
    | Integer(raw: seq<Byte>)
    | Float(raw: seq<Byte>)
    | Double(raw: seq<Byte>)
    | BigInt(raw: seq<Byte>)
    | Text(raw: seq<Byte>)
    | Buffer(raw: seq<Byte>)
    | Compound(isMap: bool, count: seq<Byte>, items: seq<Item>)

  /** One value of a container, after its key if that is a map. */
  datatype Item = Item(key: seq<Byte>, value: Any)

  function Encode(v: Any): seq<Byte>
    decreases v
  {
    match v
    case Undefined => [127]
    case Null => [126]
    case Integer(raw) => [125] + raw
    case Float(raw) => [124] + raw
    case Double(raw) => [123] + raw
    case BigInt(raw) => [122] + raw
    case Boolean(value) => [if value then 120 else 121]
    case Text(raw) => [119] + raw
    case Compound(isMap, count, items) => [if isMap then 118 else 117] + (count + EncodeItems(items))
    case Buffer(raw) => [116] + raw
  }

  function EncodeItems(items: seq<Item>): seq<Byte>
    decreases items
  {
    if items == [] then [] else items[0].key + (Encode(items[0].value) + EncodeItems(items[1..]))
  }

  /** The bytes are one whole spelling of what the reader reads. */
  predicate Spells(read: seq<Byte> -> Option<nat>, word: seq<Byte>) {
    read(word) == Some(|word|)
  }

  predicate Counts(prims: Primitives, count: seq<Byte>, n: nat) {
    prims.length(count) == Some((n, |count|))
  }

  predicate KeySpelled(prims: Primitives, isMap: bool, key: seq<Byte>) {
    if isMap then Spells(prims.text, key) else key == []
  }

  /** A float is four bytes, a double and a big integer eight; a container has as many values as it counts. */
  predicate WellSpelled(prims: Primitives, v: Any)
    decreases v
  {
    match v
    case Integer(raw) => Spells(prims.integer, raw)
    case Float(raw) => |raw| == 4
    case Double(raw) => |raw| == 8
    case BigInt(raw) => |raw| == 8
    case Text(raw) => Spells(prims.text, raw)
    case Buffer(raw) => Spells(prims.buffer, raw)
    case Compound(isMap, count, items) => Counts(prims, count, |items|) && ItemsSpelled(prims, isMap, items)
    case _ => true
  }

  predicate ItemsSpelled(prims: Primitives, isMap: bool, items: seq<Item>)
    decreases items
  {
    items != [] ==>
      KeySpelled(prims, isMap, items[0].key) && WellSpelled(prims, items[0].value) && ItemsSpelled(prims, isMap, items[1..])
  }

  /** How many containers are open inside one another at the deepest place of the value. */
  function Depth(v: Any): nat
    decreases v
  {
    match v
    case Compound(_, _, items) => 1 + DeepestOf(items)
    case _ => 0
  }

  function DeepestOf(items: seq<Item>): nat
    decreases items
  {
    if items == [] then 0 else Max(Depth(items[0].value), DeepestOf(items[1..]))
  }

  // --- what a primitive read may depend on ---------------------------------------------------------

  /** A read sees only the bytes it takes: what follows them changes nothing. */
  ghost predicate IsLocal(read: seq<Byte> -> Option<nat>) {
    && (forall word, rest {:trigger read(word + rest)} :: Spells(read, word) ==> read(word + rest) == Some(|word|))
    && (forall bytes, n: nat {:trigger read(bytes[..n])} :: n <= |bytes| && read(bytes) == Some(n) ==> read(bytes[..n]) == Some(n))
  }

  ghost predicate Local(prims: Primitives) {
    && IsLocal(prims.integer) && IsLocal(prims.text) && IsLocal(prims.buffer)
    && (forall word, rest, n: nat {:trigger Counts(prims, word, n), word + rest} ::
          Counts(prims, word, n) ==> prims.length(word + rest) == Some((n, |word|)))
    && (forall bytes, m: nat, n: nat {:trigger Counts(prims, bytes[..n], m)} ::
          n <= |bytes| && prims.length(bytes) == Some((m, n)) ==> Counts(prims, bytes[..n], m))
  }

  predicate At(bytes: seq<Byte>, pos: nat, word: seq<Byte>) {
    pos + |word| <= |bytes| && bytes[pos..pos + |word|] == word
  }

  lemma AtSplits(bytes: seq<Byte>, pos: nat, left: seq<Byte>, right: seq<Byte>)
    ensures At(bytes, pos, left + right) <==> At(bytes, pos, left) && At(bytes, pos + |left|, right)
  {
    if pos + |left| + |right| <= |bytes| {
      var whole := bytes[pos..pos + |left| + |right|];
      assert whole[..|left|] == bytes[pos..pos + |left|] && whole[|left|..] == bytes[pos + |left|..pos + |left| + |right|];
      assert (left + right)[..|left|] == left && (left + right)[|left|..] == right;
      assert whole == whole[..|left|] + whole[|left|..];
    }
  }

  lemma AtBounds(bytes: seq<Byte>, pos: nat, word: seq<Byte>)
    requires At(bytes, pos, word)
    ensures pos + |word| <= |bytes|
    ensures |word| == 1 ==> pos < |bytes| && bytes[pos] == word[0]
  {
    if |word| == 1 {
      assert bytes[pos] == bytes[pos..pos + 1][0];
    }
  }

  lemma AtItself(bytes: seq<Byte>, pos: nat, end: nat)
    requires pos <= end <= |bytes|
    ensures At(bytes, pos, bytes[pos..end])
    ensures end == pos + 1 ==> bytes[pos..end] == [bytes[pos]]
    ensures At(bytes, pos, [])
  {
  }

  lemma ReadsAt(read: seq<Byte> -> Option<nat>, bytes: seq<Byte>, pos: nat, word: seq<Byte>)
    requires IsLocal(read) && Spells(read, word) && At(bytes, pos, word)
    ensures Past(bytes, pos, read(bytes[pos..])) == Some(pos + |word|)
  {
    assert bytes[pos..] == word + bytes[pos + |word|..];
  }

  lemma ReadIsSpelled(read: seq<Byte> -> Option<nat>, bytes: seq<Byte>, pos: nat)
    requires IsLocal(read) && pos <= |bytes| && Past(bytes, pos, read(bytes[pos..])).Some?
    ensures var end := Past(bytes, pos, read(bytes[pos..])).value;
            Spells(read, bytes[pos..end]) && At(bytes, pos, bytes[pos..end])
  {
    var end := Past(bytes, pos, read(bytes[pos..])).value;
    assert bytes[pos..][..end - pos] == bytes[pos..end];
  }

  lemma CountsAt(prims: Primitives, bytes: seq<Byte>, pos: nat, count: seq<Byte>, n: nat)
    requires Local(prims) && Counts(prims, count, n) && At(bytes, pos, count)
    ensures PastLength(prims, bytes, pos) == Some((n, pos + |count|))
  {
    assert bytes[pos..] == count + bytes[pos + |count|..];
  }

  lemma CountIsSpelled(prims: Primitives, bytes: seq<Byte>, pos: nat)
    requires Local(prims) && pos <= |bytes| && PastLength(prims, bytes, pos).Some?
    ensures var (n, end) := PastLength(prims, bytes, pos).value;
            Counts(prims, bytes[pos..end], n) && At(bytes, pos, bytes[pos..end])
  {
    var (n, end) := PastLength(prims, bytes, pos).value;
    assert bytes[pos..][..end - pos] == bytes[pos..end];
  }

  lemma KeyAt(prims: Primitives, bytes: seq<Byte>, isMap: bool, pos: nat, key: seq<Byte>)
    requires Local(prims) && KeySpelled(prims, isMap, key) && At(bytes, pos, key)
    ensures PastKey(prims, bytes, isMap, pos) == Some(pos + |key|)
  {
    hide IsLocal;
    if isMap {
      ReadsAt(prims.text, bytes, pos, key);
    }
  }

  lemma KeyIsSpelled(prims: Primitives, bytes: seq<Byte>, isMap: bool, pos: nat)
    requires Local(prims) && pos <= |bytes| && PastKey(prims, bytes, isMap, pos).Some?
    ensures var end := PastKey(prims, bytes, isMap, pos).value;
            KeySpelled(prims, isMap, bytes[pos..end]) && At(bytes, pos, bytes[pos..end])
  {
    hide IsLocal;
    if isMap {
      ReadIsSpelled(prims.text, bytes, pos);
    }
  }

  // --- the reader and the encoding agree -----------------------------------------------------------

  lemma ScalarReads(prims: Primitives, bytes: seq<Byte>, pos: nat, v: Any)
    requires Local(prims) && WellSpelled(prims, v) && !v.Compound? && At(bytes, pos, Encode(v))
    ensures pos < |bytes| && !IsContainer(bytes[pos])
    ensures PastScalar(prims, bytes, bytes[pos], pos + 1) == Some(pos + |Encode(v)|)
  {
    hide IsLocal;
    var tag := Encode(v)[0];
    var raw := Encode(v)[1..];
    assert Encode(v) == [tag] + raw;
    AtSplits(bytes, pos, [tag], raw);
    assert bytes[pos] == bytes[pos..pos + 1][0];
    match v
    case Integer(_) => ReadsAt(prims.integer, bytes, pos + 1, raw);
    case Text(_) => ReadsAt(prims.text, bytes, pos + 1, raw);
    case Buffer(_) => ReadsAt(prims.buffer, bytes, pos + 1, raw);
    case _ =>
  }

  /** A value spelled out anywhere in the bytes reads to its own end, and meters its own depth. */
  lemma {:induction false} EncodingReads(prims: Primitives, bytes: seq<Byte>, pos: nat, v: Any, open: nat)
    requires Local(prims) && WellSpelled(prims, v) && At(bytes, pos, Encode(v))
    ensures Decode(prims, bytes, pos, open) == (Some(pos + |Encode(v)|), open + Depth(v))
    decreases v
  {
    hide Local, At, DecodeItems, EncodeItems, DeepestOf, Counts, ItemsSpelled, PastLength;
    if v.Compound? {
      var tag: Byte := if v.isMap then 118 else 117;
      AtSplits(bytes, pos, [tag], v.count + EncodeItems(v.items));
      AtSplits(bytes, pos + 1, v.count, EncodeItems(v.items));
      AtBounds(bytes, pos, [tag]);
      AtBounds(bytes, pos + 1, v.count);
      AtBounds(bytes, pos + 1 + |v.count|, EncodeItems(v.items));
      CountsAt(prims, bytes, pos + 1, v.count, |v.items|);
      ItemsRead(prims, bytes, pos + 1 + |v.count|, v.items, v.isMap, open + 1);
    } else {
      ScalarReads(prims, bytes, pos, v);
    }
  }

  lemma {:induction false} ItemsRead(prims: Primitives, bytes: seq<Byte>, pos: nat, items: seq<Item>, isMap: bool, open: nat)
    requires Local(prims) && ItemsSpelled(prims, isMap, items) && At(bytes, pos, EncodeItems(items))
    ensures DecodeItems(prims, bytes, pos, |items|, isMap, open) == (Some(pos + |EncodeItems(items)|), open + DeepestOf(items))
    decreases items
  {
    hide Local, At, Decode, Encode, Depth, WellSpelled, KeySpelled, PastKey;
    if items != [] {
      var key, value, rest := items[0].key, Encode(items[0].value), EncodeItems(items[1..]);
      AtSplits(bytes, pos, key, value + rest);
      AtSplits(bytes, pos + |key|, value, rest);
      AtBounds(bytes, pos, key);
      AtBounds(bytes, pos + |key|, value);
      AtBounds(bytes, pos + |key| + |value|, rest);
      KeyAt(prims, bytes, isMap, pos, key);
      EncodingReads(prims, bytes, pos + |key|, items[0].value, open);
      ItemsRead(prims, bytes, pos + |key| + |value|, items[1..], isMap, open);
    }
  }

  lemma ScalarIsSpelled(prims: Primitives, bytes: seq<Byte>, pos: nat) returns (v: Any)
    requires Local(prims) && pos < |bytes| && !IsContainer(bytes[pos]) && PastScalar(prims, bytes, bytes[pos], pos + 1).Some?
    ensures WellSpelled(prims, v) && At(bytes, pos, Encode(v))
    ensures PastScalar(prims, bytes, bytes[pos], pos + 1) == Some(pos + |Encode(v)|)
  {
    hide IsLocal;
    var end := PastScalar(prims, bytes, bytes[pos], pos + 1).value;
    var raw := bytes[pos + 1..end];
    assert bytes[pos..end] == [bytes[pos]] + raw;
    match bytes[pos]
    case 127 => v := Undefined;
    case 126 => v := Null;
    case 125 => ReadIsSpelled(prims.integer, bytes, pos + 1); v := Integer(raw);
    case 124 => v := Float(raw);
    case 123 => v := Double(raw);
    case 122 => v := BigInt(raw);
    case 121 => v := Boolean(false);
    case 120 => v := Boolean(true);
    case 119 => ReadIsSpelled(prims.text, bytes, pos + 1); v := Text(raw);
    case _ => ReadIsSpelled(prims.buffer, bytes, pos + 1); v := Buffer(raw);
  }

  /** Whatever reads to its end is the spelling of a value: no other bytes are taken for one. */
  lemma {:induction false} ReadingIsAnEncoding(prims: Primitives, bytes: seq<Byte>, pos: nat, open: nat) returns (v: Any)
    requires Local(prims) && pos <= |bytes| && Decode(prims, bytes, pos, open).0.Some?
    ensures WellSpelled(prims, v) && At(bytes, pos, Encode(v))
    ensures Decode(prims, bytes, pos, open).0 == Some(pos + |Encode(v)|)
    decreases |bytes| - pos, 0
  {
    hide Local, At, DecodeItems, EncodeItems, Counts, ItemsSpelled, PastLength;
    if IsContainer(bytes[pos]) {
      var (n, from) := PastLength(prims, bytes, pos + 1).value;
      CountIsSpelled(prims, bytes, pos + 1);
      var items := ItemsAreEncodings(prims, bytes, from, n, bytes[pos] == 118, open + 1);
      v := Compound(bytes[pos] == 118, bytes[pos + 1..from], items);
      AtItself(bytes, pos, pos + 1);
      AtSplits(bytes, pos + 1, v.count, EncodeItems(items));
      AtSplits(bytes, pos, [bytes[pos]], v.count + EncodeItems(items));
    } else {
      v := ScalarIsSpelled(prims, bytes, pos);
    }
  }

  lemma {:induction false} ItemsAreEncodings(prims: Primitives, bytes: seq<Byte>, pos: nat, left: nat, isMap: bool, open: nat)
    returns (items: seq<Item>)
    requires Local(prims) && pos <= |bytes| && DecodeItems(prims, bytes, pos, left, isMap, open).0.Some?
    ensures |items| == left && ItemsSpelled(prims, isMap, items) && At(bytes, pos, EncodeItems(items))
    ensures DecodeItems(prims, bytes, pos, left, isMap, open).0 == Some(pos + |EncodeItems(items)|)
    decreases |bytes| - pos, 1
  {
    hide Local, At, Decode, Encode, WellSpelled, KeySpelled, PastKey;
    if left == 0 {
      AtItself(bytes, pos, pos);
      items := [];
    } else {
      var from := PastKey(prims, bytes, isMap, pos).value;
      KeyIsSpelled(prims, bytes, isMap, pos);
      var value := ReadingIsAnEncoding(prims, bytes, from, open);
      var end := from + |Encode(value)|;
      var rest := ItemsAreEncodings(prims, bytes, end, left - 1, isMap, open);
      var key := bytes[pos..from];
      items := [Item(key, value)] + rest;
      assert items[1..] == rest;
      AtSplits(bytes, from, Encode(value), EncodeItems(rest));
      AtSplits(bytes, pos, key, Encode(value) + EncodeItems(rest));
    }
  }

  /**
   The reader and the encoding are one: the bytes read to `end` from `pos` if and only if what
   stands there is a value's encoding, and then the meter has gone up by that value's depth.
   */
  lemma ReadsExactlyEncodings(prims: Primitives, bytes: seq<Byte>, pos: nat, open: nat, end: nat)
    requires Local(prims) && pos <= |bytes|
    ensures Decode(prims, bytes, pos, open).0 == Some(end) <==>
              exists v :: WellSpelled(prims, v) && At(bytes, pos, Encode(v)) && end == pos + |Encode(v)|
    ensures Decode(prims, bytes, pos, open).0.Some? ==>
              exists v :: WellSpelled(prims, v) && At(bytes, pos, Encode(v)) && Decode(prims, bytes, pos, open).1 == open + Depth(v)
  {
    if Decode(prims, bytes, pos, open).0.Some? {
      var v := ReadingIsAnEncoding(prims, bytes, pos, open);
      EncodingReads(prims, bytes, pos, v, open);
    }
    forall v | WellSpelled(prims, v) && At(bytes, pos, Encode(v))
      ensures Decode(prims, bytes, pos, open).0 == Some(pos + |Encode(v)|)
    {
      EncodingReads(prims, bytes, pos, v, open);
    }
  }

  // --- bytes that never end a value ------------------------------------------------------------------

  /** A container the bytes have opened: the values it has finished, and the key of the one inside. */
  datatype Level = Level(isMap: bool, count: seq<Byte>, done: seq<Item>, key: seq<Byte>)

  function EncodeLevels(levels: seq<Level>): seq<Byte> {
    if levels == [] then []
    else [if levels[0].isMap then 118 else 117] + (levels[0].count + (EncodeItems(levels[0].done) + (levels[0].key + EncodeLevels(levels[1..]))))
  }

  /** The container's count is more than the values it has finished, so one more stands inside it. */
  ghost predicate LevelSpelled(prims: Primitives, level: Level) {
    && (exists n | |level.done| < n :: Counts(prims, level.count, n))
    && ItemsSpelled(prims, level.isMap, level.done) && KeySpelled(prims, level.isMap, level.key)
  }

  /** These levels stand open at the front of the bytes, and one more container opens inside them. */
  ghost predicate Opens(prims: Primitives, bytes: seq<Byte>, pos: nat, levels: seq<Level>) {
    && (forall level <- levels :: LevelSpelled(prims, level))
    && At(bytes, pos, EncodeLevels(levels))
    && pos + |EncodeLevels(levels)| < |bytes| && IsContainer(bytes[pos + |EncodeLevels(levels)|])
  }

  lemma {:induction false} OpenLevelsAreMetered(prims: Primitives, bytes: seq<Byte>, pos: nat, levels: seq<Level>, open: nat)
    requires Local(prims) && pos <= |bytes| && Opens(prims, bytes, pos, levels)
    ensures open + |levels| < Decode(prims, bytes, pos, open).1
    decreases |levels|, 0
  {
    hide Local, At, DecodeItems, EncodeItems, Counts, ItemsSpelled, KeySpelled, PastLength;
    if levels == [] {
      MeterRisesInside(prims, bytes, pos, open);
    } else {
      var level, inner := levels[0], levels[1..];
      var tail := level.key + EncodeLevels(inner);
      var tag: Byte := if level.isMap then 118 else 117;
      AtSplits(bytes, pos, [tag], level.count + (EncodeItems(level.done) + tail));
      AtSplits(bytes, pos + 1, level.count, EncodeItems(level.done) + tail);
      AtBounds(bytes, pos, [tag]);
      assert LevelSpelled(prims, level);
      var n :| |level.done| < n && Counts(prims, level.count, n);
      CountsAt(prims, bytes, pos + 1, level.count, n);
      var from := pos + 1 + |level.count|;
      AtSplits(bytes, from, EncodeItems(level.done), tail);
      AtSplits(bytes, from + |EncodeItems(level.done)|, level.key, EncodeLevels(inner));
      assert forall l <- inner :: l in levels;
      OpenItemsAreMetered(prims, bytes, from, n, level, level.done, inner, open + 1);
    }
  }

  lemma MeterRisesInside(prims: Primitives, bytes: seq<Byte>, pos: nat, open: nat)
    requires pos < |bytes| && IsContainer(bytes[pos])
    ensures open < Decode(prims, bytes, pos, open).1
  {
    var length := PastLength(prims, bytes, pos + 1);
    if length.Some? {
      MeterNeverFalls(prims, bytes, length.value.1, length.value.0, bytes[pos] == 118, open + 1);
    }
  }

  lemma {:induction false} OpenItemsAreMetered(prims: Primitives, bytes: seq<Byte>, pos: nat, left: nat, level: Level, done: seq<Item>,
                                               inner: seq<Level>, open: nat)
    requires Local(prims) && pos <= |bytes| && |done| < left
    requires ItemsSpelled(prims, level.isMap, done) && KeySpelled(prims, level.isMap, level.key)
    requires At(bytes, pos, EncodeItems(done)) && At(bytes, pos + |EncodeItems(done)|, level.key + EncodeLevels(inner))
    requires Opens(prims, bytes, pos + |EncodeItems(done)| + |level.key|, inner)
    ensures open + |inner| < DecodeItems(prims, bytes, pos, left, level.isMap, open).1
    decreases |inner|, 1 + |done|
  {
    hide Local, At, Decode, Encode, Depth, WellSpelled, KeySpelled, PastKey, Opens;
    if done == [] {
      AtSplits(bytes, pos, level.key, EncodeLevels(inner));
      AtBounds(bytes, pos, level.key);
      KeyAt(prims, bytes, level.isMap, pos, level.key);
      OpenLevelsAreMetered(prims, bytes, pos + |level.key|, inner, open);
    } else {
      var key, value, rest := done[0].key, Encode(done[0].value), EncodeItems(done[1..]);
      AtSplits(bytes, pos, key, value + rest);
      AtSplits(bytes, pos + |key|, value, rest);
      AtBounds(bytes, pos, key);
      AtBounds(bytes, pos + |key|, value);
      AtBounds(bytes, pos + |key| + |value|, rest);
      KeyAt(prims, bytes, level.isMap, pos, key);
      EncodingReads(prims, bytes, pos + |key|, done[0].value, open);
      OpenItemsAreMetered(prims, bytes, pos + |key| + |value|, left - 1, level, done[1..], inner, open);
    }
  }

  lemma {:induction false} MeterIsOpenLevels(prims: Primitives, bytes: seq<Byte>, pos: nat, open: nat, k: nat) returns (levels: seq<Level>)
    requires Local(prims) && pos <= |bytes| && open + k < Decode(prims, bytes, pos, open).1
    ensures |levels| == k && Opens(prims, bytes, pos, levels)
    decreases |bytes| - pos, 0
  {
    hide Local, At, DecodeItems, EncodeItems, Counts, ItemsSpelled, KeySpelled, PastLength;
    assert pos < |bytes| && IsContainer(bytes[pos]);
    if k == 0 {
      AtItself(bytes, pos, pos);
      levels := [];
    } else {
      var (n, from) := PastLength(prims, bytes, pos + 1).value;
      CountIsSpelled(prims, bytes, pos + 1);
      var isMap := bytes[pos] == 118;
      var done, key, inner := MeterIsOpenItems(prims, bytes, from, n, isMap, open + 1, k - 1);
      var level := Level(isMap, bytes[pos + 1..from], done, key);
      levels := [level] + inner;
      assert LevelSpelled(prims, level);
      assert levels[1..] == inner;
      AtItself(bytes, pos, pos + 1);
      assert forall l <- levels :: l == level || l in inner;
      var tail := EncodeItems(done) + (key + EncodeLevels(inner));
      assert EncodeLevels(levels) == [bytes[pos]] + (level.count + tail);
      AtSplits(bytes, pos + 1, level.count, tail);
      AtSplits(bytes, pos, [bytes[pos]], level.count + tail);
    }
  }

  lemma OpensIsAt(prims: Primitives, bytes: seq<Byte>, pos: nat, levels: seq<Level>)
    requires Opens(prims, bytes, pos, levels)
    ensures At(bytes, pos, EncodeLevels(levels))
  {
  }

  lemma {:induction false} MeterIsOpenItems(prims: Primitives, bytes: seq<Byte>, pos: nat, left: nat, isMap: bool, open: nat, k: nat)
    returns (done: seq<Item>, key: seq<Byte>, inner: seq<Level>)
    requires Local(prims) && pos <= |bytes| && open + k < DecodeItems(prims, bytes, pos, left, isMap, open).1
    ensures |done| < left && |inner| == k && ItemsSpelled(prims, isMap, done) && KeySpelled(prims, isMap, key)
    ensures At(bytes, pos, EncodeItems(done) + (key + EncodeLevels(inner)))
    ensures Opens(prims, bytes, pos + |EncodeItems(done)| + |key|, inner)
    decreases |bytes| - pos, 1
  {
    hide Local, At, Decode, Encode, WellSpelled, KeySpelled, PastKey, Opens;
    var from := PastKey(prims, bytes, isMap, pos).value;
    KeyIsSpelled(prims, bytes, isMap, pos);
    var (end, deepest) := Decode(prims, bytes, from, open);
    if open + k < deepest {
      key := bytes[pos..from];
      inner := MeterIsOpenLevels(prims, bytes, from, open, k);
      done := [];
      AtSplits(bytes, pos, key, EncodeLevels(inner));
      OpensIsAt(prims, bytes, from, inner);
      assert [] + (key + EncodeLevels(inner)) == key + EncodeLevels(inner);
    } else {
      var value := ReadingIsAnEncoding(prims, bytes, from, open);
      var rest: seq<Item>;
      rest, key, inner := MeterIsOpenItems(prims, bytes, end.value, left - 1, isMap, open, k);
      var first := bytes[pos..from];
      done := [Item(first, value)] + rest;
      assert done[1..] == rest;
      var tail := key + EncodeLevels(inner);
      OpensIsAt(prims, bytes, end.value + |EncodeItems(rest)| + |key|, inner);
      AtSplits(bytes, end.value, EncodeItems(rest), tail);
      AtSplits(bytes, from, Encode(value), EncodeItems(rest) + tail);
      AtSplits(bytes, pos, first, Encode(value) + (EncodeItems(rest) + tail));
      assert EncodeItems(done) + tail == first + (Encode(value) + (EncodeItems(rest) + tail));
    }
  }

  /**
   What the meter reads, of all bytes, whole values or not: it passes `k` further containers exactly
   when `k` stand open inside one another at the front of the bytes and one more opens inside them.
   */
  lemma TheMeterIsTheOpenLevels(prims: Primitives, bytes: seq<Byte>, pos: nat, open: nat, k: nat)
    requires Local(prims) && pos <= |bytes|
    ensures open + k < Decode(prims, bytes, pos, open).1 <==> exists levels :: |levels| == k && Opens(prims, bytes, pos, levels)
  {
    if open + k < Decode(prims, bytes, pos, open).1 {
      var levels := MeterIsOpenLevels(prims, bytes, pos, open, k);
    }
    forall levels | |levels| == k && Opens(prims, bytes, pos, levels) ensures open + k < Decode(prims, bytes, pos, open).1 {
      OpenLevelsAreMetered(prims, bytes, pos, levels, open);
    }
  }
}
