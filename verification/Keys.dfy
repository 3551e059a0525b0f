/**
 A key's one spelling: 32 bytes as 43 letters of the URL-safe alphabet of RFC 4648, section 5,
 whose last letter leaves two bits zero (section 3.5). Spelling and reading are stated as a
 change of base, and the two loops are proved to compute it.
 */
module Keys {
  import opened Options
  import opened Arithmetic
  import opened Bytes

  const KEY_BYTES: nat := 32
  const KEY_LETTERS: nat := 43
  const U32_LIMIT: nat := 0x1_0000_0000

  // --- numbers and their digits -------------------------------------------------------------------

  predicate AreDigits(digits: seq<nat>, base: nat) {
    forall i | 0 <= i < |digits| :: digits[i] < base
  }

  function Number(digits: seq<nat>, base: nat): nat {
    if digits == [] then 0 else Number(digits[..|digits| - 1], base) * base + digits[|digits| - 1]
  }

  function Digits(n: nat, base: nat, width: nat): (digits: seq<nat>)
    requires base > 0
    ensures |digits| == width && AreDigits(digits, base)
    decreases width
  {
    if width == 0 then []
    else
      Quotient(n, base);
      Digits(n / base, base, width - 1) + [n % base]
  }

  lemma Quotient(n: nat, base: nat)
    requires base > 0
    ensures 0 <= n / base && 0 <= n % base < base && n / base * base + n % base == n
  {
  }

  /** A number's digits at a width are the only ones of that width that spell it. */
  lemma {:induction false} DigitsOfNumber(digits: seq<nat>, base: nat)
    requires base > 0 && AreDigits(digits, base)
    ensures Digits(Number(digits, base), base, |digits|) == digits
    decreases |digits|
  {
    if digits != [] {
      var rest, last := digits[..|digits| - 1], digits[|digits| - 1];
      DigitsOfNumber(rest, base);
      DivideOff(Number(rest, base), base, last);
      assert digits == rest + [last];
    }
  }

  lemma DivideOff(n: nat, base: nat, last: nat)
    requires last < base
    ensures (n * base + last) / base == n && (n * base + last) % base == last
  {
    var q, r := (n * base + last) / base, (n * base + last) % base;
    Quotient(n * base + last, base);
    assert (n + 1) * base == n * base + base;
    assert (q + 1) * base == q * base + base;
    if q > n {
      Times(n + 1, q, base);
    } else if q < n {
      Times(q + 1, n, base);
    }
  }

  function Power(base: nat, width: nat): nat {
    if width == 0 then 1 else Power(base, width - 1) * base
  }

  lemma {:induction false} NumberOfDigits(n: nat, base: nat, width: nat)
    requires base > 0 && n < Power(base, width)
    ensures Number(Digits(n, base, width), base) == n
    decreases width
  {
    if width > 0 {
      QuotientBounded(n, Power(base, width - 1), base);
      Quotient(n, base);
      NumberOfDigits(n / base, base, width - 1);
      assert Digits(n, base, width)[..width - 1] == Digits(n / base, base, width - 1);
    }
  }

  lemma QuotientBounded(n: nat, limit: nat, base: nat)
    requires base > 0 && n < limit * base
    ensures n / base < limit
  {
    Quotient(n, base);
    if limit <= n / base {
      Times(limit, n / base, base);
    }
  }

  lemma {:induction false} NumberBounded(digits: seq<nat>, base: nat)
    requires base > 0 && AreDigits(digits, base)
    ensures Number(digits, base) < Power(base, |digits|)
    decreases |digits|
  {
    if digits != [] {
      var rest, last := digits[..|digits| - 1], digits[|digits| - 1];
      NumberBounded(rest, base);
      BoundedStep(Number(rest, base), Power(base, |rest|), base, last);
    }
  }

  lemma BoundedStep(n: nat, limit: nat, base: nat, last: nat)
    requires n < limit && last < base
    ensures n * base + last < limit * base
  {
    Times(n + 1, limit, base);
    assert (n + 1) * base == n * base + base;
  }

  // --- letters ----------------------------------------------------------------------------------------

  function Letter(value: nat): (letter: Byte)
    requires value < 64
  {
    if value < 26 then 65 + value
    else if value < 52 then 97 + (value - 26)
    else if value < 62 then 48 + (value - 52)
    else if value == 62 then 45 else 95
  }

  function LetterValue(letter: Byte): (value: Option<nat>)
    ensures value.Some? ==> value.value < 64 && Letter(value.value) == letter
    ensures value.None? ==> forall v: nat | v < 64 :: Letter(v) != letter
  {
    if 65 <= letter <= 90 then Some(letter - 65)
    else if 97 <= letter <= 122 then Some(letter - 97 + 26)
    else if 48 <= letter <= 57 then Some(letter - 48 + 52)
    else if letter == 45 then Some(62)
    else if letter == 95 then Some(63)
    else None
  }

  /**
   Table 2 of RFC 4648, read from both sides: the capitals, the small letters, the figures, and then
   the two that set this alphabet apart from the other, minus for 62 and underline for 63.
   */
  lemma LettersAreTheAlphabet(c: char)
    ensures 'A' <= c <= 'Z' ==> LetterValue(c as int) == Some(c as int - 'A' as int)
    ensures 'a' <= c <= 'z' ==> LetterValue(c as int) == Some(c as int - 'a' as int + 26)
    ensures '0' <= c <= '9' ==> LetterValue(c as int) == Some(c as int - '0' as int + 52)
    ensures Letter(62) == '-' as int && Letter(63) == '_' as int
    ensures c as int < 256 && LetterValue(c as int).Some? ==>
              'A' <= c <= 'Z' || 'a' <= c <= 'z' || '0' <= c <= '9' || c == '-' || c == '_'
  {
  }

  lemma LettersDiffer(v: nat)
    requires v < 64
    ensures LetterValue(Letter(v)) == Some(v)
  {
  }

  function Letters(values: seq<nat>): (text: seq<Byte>)
    requires AreDigits(values, 64)
    ensures |text| == |values| && forall i | 0 <= i < |text| :: text[i] == Letter(values[i])
  {
    seq(|values|, i requires 0 <= i < |values| => Letter(values[i]))
  }

  predicate AllLetters(text: seq<Byte>) {
    forall b <- text :: LetterValue(b).Some?
  }

  function Values(text: seq<Byte>): (values: seq<nat>)
    requires AllLetters(text)
    ensures |values| == |text| && AreDigits(values, 64)
  {
    seq(|text|, i requires 0 <= i < |text| => assert text[i] in text; LetterValue(text[i]).value)
  }

  function Plain(bytes: seq<Byte>): (digits: seq<nat>)
    ensures |digits| == |bytes| && AreDigits(digits, 256)
  {
    seq(|bytes|, i requires 0 <= i < |bytes| => bytes[i] as nat)
  }

  function AsBytes(digits: seq<nat>): (bytes: seq<Byte>)
    requires AreDigits(digits, 256)
    ensures |bytes| == |digits| && Plain(bytes) == digits
  {
    seq(|digits|, i requires 0 <= i < |digits| => var b: Byte := digits[i]; b)
  }

  // --- the one spelling ----------------------------------------------------------------------------

  /** The 256 bits, two zero bits after them, in letters of six. */
  function Spelling(raw: seq<Byte>): (text: seq<Byte>)
    ensures |text| == KEY_LETTERS
  {
    Letters(Digits(Number(Plain(raw), 256) * 4, 64, KEY_LETTERS))
  }

  predicate Canonical(text: seq<Byte>) {
    |text| == KEY_LETTERS && AllLetters(text) && Values(text)[KEY_LETTERS - 1] % 4 == 0
  }

  /** The 32 bytes a canonical spelling stands for. */
  function KeyOf(text: seq<Byte>): (key: Option<seq<Byte>>)
    ensures key.Some? ==> |key.value| == KEY_BYTES
  {
    if Canonical(text) then Some(AsBytes(Digits(Number(Values(text), 64) / 4, 256, KEY_BYTES))) else None
  }

  lemma PowersMeet()
    ensures Power(256, KEY_BYTES) * 4 == Power(64, KEY_LETTERS)
  {
    var q := Power(64, 4);
    assert Power(256, 3) == 0x100_0000 && q == 0x100_0000 by {
      assert Power(256, 1) == 256 && Power(256, 2) == 0x1_0000;
      assert Power(64, 1) == 64 && Power(64, 2) == 4096 && Power(64, 3) == 262144;
    }
    PowerOfPower(256, 3, 10);
    PowerOfPower(64, 4, 10);
    var n := Power(q, 10);
    assert Power(256, 31) == n * 256 && Power(256, 32) == n * 256 * 256;
    assert Power(64, 41) == n * 64 && Power(64, 42) == n * 64 * 64 && Power(64, 43) == n * 64 * 64 * 64;
  }

  lemma {:induction false} PowerOfPower(base: nat, group: nat, times: nat)
    ensures Power(base, group * times) == Power(Power(base, group), times)
    decreases times
  {
    if times > 0 {
      PowerOfPower(base, group, times - 1);
      PowerAdds(base, group * (times - 1), group);
      assert group * (times - 1) + group == group * times;
    }
  }

  lemma {:induction false} PowerAdds(base: nat, m: nat, n: nat)
    ensures Power(base, m + n) == Power(base, m) * Power(base, n)
    decreases n
  {
    if n > 0 {
      PowerAdds(base, m, n - 1);
      assert Power(base, m) * Power(base, n) == Power(base, m) * Power(base, n - 1) * base;
    }
  }

  lemma LastDigit(values: seq<nat>, base: nat)
    requires values != [] && base % 4 == 0
    ensures Number(values, base) % 4 == values[|values| - 1] % 4
  {
    var rest := Number(values[..|values| - 1], base);
    assert rest * base == rest * (base / 4) * 4;
    assert (rest * (base / 4) * 4 + values[|values| - 1]) % 4 == values[|values| - 1] % 4;
  }

  /** Every key has a spelling, and that spelling reads back to it. */
  lemma KeySpellsAndReads(raw: seq<Byte>)
    requires |raw| == KEY_BYTES
    ensures KeyOf(Spelling(raw)) == Some(raw)
  {
    hide Power, LetterValue, Letter, Number, Digits, AllLetters;
    var n := Number(Plain(raw), 256);
    var digits := Digits(n * 4, 64, KEY_LETTERS);
    NumberBounded(Plain(raw), 256);
    PowersMeet();
    NumberOfDigits(n * 4, 64, KEY_LETTERS);
    var text := Spelling(raw);
    assert Letters(digits) == text;
    LettersReadBack(digits);
    LastDigit(digits, 64);
    assert Values(text) == digits;
    DigitsOfNumber(Plain(raw), 256);
    assert Plain(AsBytes(Plain(raw))) == Plain(raw);
    SamePlain(AsBytes(Digits(n, 256, KEY_BYTES)), raw);
  }

  lemma LettersReadBack(values: seq<nat>)
    requires AreDigits(values, 64)
    ensures AllLetters(Letters(values)) && Values(Letters(values)) == values
  {
    var text := Letters(values);
    forall i | 0 <= i < |text| ensures LetterValue(text[i]) == Some(values[i]) {
      LettersDiffer(values[i]);
    }
    forall b <- text ensures LetterValue(b).Some? {
      var i :| 0 <= i < |text| && text[i] == b;
    }
  }

  lemma SamePlain(a: seq<Byte>, b: seq<Byte>)
    requires Plain(a) == Plain(b)
    ensures a == b
  {
    assert |a| == |Plain(a)| == |b|;
    forall i | 0 <= i < |a| ensures a[i] == b[i] {
      assert Plain(a)[i] == a[i] && Plain(b)[i] == b[i];
    }
  }

  /** Every accepted spelling is the spelling of the key it reads as: a key has one. */
  lemma AcceptedSpellingIsTheOne(text: seq<Byte>)
    requires KeyOf(text).Some?
    ensures Spelling(KeyOf(text).value) == text
  {
    hide Power, LetterValue, Letter;
    var values := Values(text);
    var n := Number(values, 64);
    LastDigit(values, 64);
    NumberBounded(values, 64);
    PowersMeet();
    assert n / 4 * 4 == n;
    NumberOfDigits(n / 4, 256, KEY_BYTES);
    DigitsOfNumber(values, 64);
    var raw := KeyOf(text).value;
    assert Plain(raw) == Digits(n / 4, 256, KEY_BYTES);
    assert Number(Plain(raw), 256) * 4 == n;
    ValuesSpellBack(text);
  }

  lemma ValuesSpellBack(text: seq<Byte>)
    requires AllLetters(text)
    ensures Letters(Values(text)) == text
  {
    forall i | 0 <= i < |text| ensures Letter(Values(text)[i]) == text[i] {
      assert text[i] in text;
    }
  }

  // --- the two loops ---------------------------------------------------------------------------------

  lemma NumberAppends(digits: seq<nat>, last: nat, base: nat)
    ensures Number(digits + [last], base) == Number(digits, base) * base + last
  {
    assert (digits + [last])[..|digits|] == digits;
  }

  /** Six bits at a time into a 32-bit accumulator, a byte out whenever eight are there. */
  method DecodeKey(text: seq<Byte>) returns (key: Option<seq<Byte>>)
    ensures key == KeyOf(text)
  {
    hide Number, LetterValue, KeyOf, Pow2;
    if |text| != KEY_LETTERS {
      WrongLength(text);
      return None;
    }
    var last := LetterValue(text[KEY_LETTERS - 1]);
    if last.None? || last.value % 4 != 0 {
      NotCanonical(text);
      return None;
    }
    var acc, bits := 0, 0;
    var out: seq<nat> := [];
    ghost var values: seq<nat> := [];
    NothingReadYet();
    var i := 0;
    while i < |text|
      invariant 0 <= i <= |text| == KEY_LETTERS && |values| == i
      invariant forall k | 0 <= k < i :: LetterValue(text[k]) == Some(values[k])
      invariant acc == Number(values, 64) % U32_LIMIT
      invariant bits in {0, 2, 4, 6} && 6 * i == 8 * |out| + bits && AreDigits(out, 256)
      invariant Number(values, 64) / Pow2(bits) == Number(out, 256)
    {
      var value := LetterValue(text[i]);
      if value.None? {
        NotALetter(text, i);
        return None;
      }
      NumberAppends(values, value.value, 64);
      ghost var before := Number(values, 64);
      values := values + [value.value];
      acc := (acc * 64 % U32_LIMIT) + value.value;
      AccumulatorWraps(before, value.value);
      bits := bits + 6;
      if 8 <= bits {
        bits := bits - 8;
        var byte := acc / Pow2(bits) % 256;
        ByteComesOut(before, value.value, acc, bits, Number(out, 256));
        NumberAppends(out, byte, 256);
        out := out + [byte];
      } else {
        NothingComesOut(before, value.value);
      }
      i := i + 1;
    }
    WholeTextRead(text, values, out);
    key := Some(AsBytes(out));
  }

  lemma NothingReadYet()
    ensures Number([], 64) == 0 && Number([], 256) == 0
  {
  }

  lemma WrongLength(text: seq<Byte>)
    requires |text| != KEY_LETTERS
    ensures KeyOf(text).None?
  {
  }

  lemma NotALetter(text: seq<Byte>, i: nat)
    requires i < |text| && LetterValue(text[i]).None?
    ensures KeyOf(text).None?
  {
    assert text[i] in text;
  }

  lemma NotCanonical(text: seq<Byte>)
    requires |text| == KEY_LETTERS
    requires var last := LetterValue(text[KEY_LETTERS - 1]); last.None? || last.value % 4 != 0
    ensures KeyOf(text).None?
  {
    assert text[KEY_LETTERS - 1] in text;
  }

  lemma AccumulatorWraps(before: nat, value: nat)
    requires value < 64
    ensures (before % U32_LIMIT) * 64 % U32_LIMIT + value == (before * 64 + value) % U32_LIMIT
  {
  }

  lemma ByteComesOut(before: nat, value: nat, acc: nat, bits: nat, out: nat)
    requires value < 64 && bits in {0, 2, 4} && acc == (before * 64 + value) % U32_LIMIT
    requires before / Pow2(bits + 2) == out
    ensures (before * 64 + value) / Pow2(bits) == out * 256 + acc / Pow2(bits) % 256
  {
    SmallPowers();
    var x := before * 64 + value;
    var d := Pow2(bits);
    LowByte(x, d);
    if bits == 0 {
      assert x / 256 == before / 4;
    } else if bits == 2 {
      assert x / 4 / 256 == before / 16;
    } else {
      assert x / 16 / 256 == before / 64;
    }
  }

  lemma SmallPowers()
    ensures Pow2(0) == 1 && Pow2(2) == 4 && Pow2(4) == 16 && Pow2(6) == 64
  {
    assert Pow2(1) == 2 && Pow2(3) == 8 && Pow2(5) == 32;
  }

  /** The bits an accumulator of 32 has lost are above the byte it gives out. */
  lemma LowByte(x: nat, d: nat)
    requires d in {1, 4, 16}
    ensures x % U32_LIMIT / d % 256 == x / d % 256
  {
    var k, low := x / U32_LIMIT, x % U32_LIMIT;
    if d == 1 {
      HighBytesDrop(k * 0x100_0000, low);
    } else if d == 4 {
      assert x / 4 == k * 0x40_0000 * 256 + low / 4;
      HighBytesDrop(k * 0x40_0000, low / 4);
    } else {
      assert x / 16 == k * 0x10_0000 * 256 + low / 16;
      HighBytesDrop(k * 0x10_0000, low / 16);
    }
  }

  lemma HighBytesDrop(high: nat, low: nat)
    ensures (high * 256 + low) % 256 == low % 256
  {
  }

  lemma NothingComesOut(before: nat, value: nat)
    requires value < 64
    ensures (before * 64 + value) / Pow2(6) == before / Pow2(0)
  {
    SmallPowers();
  }

  lemma WholeTextRead(text: seq<Byte>, values: seq<nat>, out: seq<nat>)
    requires |text| == KEY_LETTERS == |values| && forall k | 0 <= k < |text| :: LetterValue(text[k]) == Some(values[k])
    requires values[KEY_LETTERS - 1] % 4 == 0
    requires |out| == KEY_BYTES && AreDigits(out, 256) && Number(values, 64) / Pow2(2) == Number(out, 256)
    ensures KeyOf(text) == Some(AsBytes(out))
  {
    forall b <- text ensures LetterValue(b).Some? {
      var i :| 0 <= i < |text| && text[i] == b;
    }
    assert Values(text) == values;
    SmallPowers();
    DigitsOfNumber(out, 256);
  }

  /** Three bytes at a time into four letters; the last group is two bytes and a zero. */
  method EncodeKey(raw: seq<Byte>) returns (text: seq<Byte>)
    requires |raw| == KEY_BYTES
    ensures text == Spelling(raw)
  {
    hide Number, Letters, Spelling;
    var out: seq<nat> := [];
    var at := 0;
    NothingReadYet();
    assert raw[..0] == [] && Plain([]) == [];
    while at < |raw|
      invariant (at <= 30 && at % 3 == 0 && 3 * |out| == 4 * at && Number(out, 64) == Number(Plain(raw[..at]), 256))
             || (at == 33 && |out| == 44 && Number(out, 64) == Number(Plain(raw), 256) * 256)
      invariant AreDigits(out, 64)
      decreases 33 - at
    {
      var b0 := raw[at];
      var b1 := raw[at + 1];
      var b2 := if at + 2 < |raw| then raw[at + 2] else 0;
      var triple: nat := b0 as int * 0x1_0000 + b1 as int * 0x100 + b2;
      GroupNumber(raw, at, b2);
      GroupSpells(out, triple);
      out := out + [triple / 0x4_0000 % 64, triple / 0x1000 % 64, triple / 64 % 64, triple % 64];
      at := at + 3;
    }
    TruncatedIsTheSpelling(raw, out);
    out := out[..KEY_LETTERS];
    text := Letters(out);
  }

  lemma GroupNumber(raw: seq<Byte>, at: nat, b2: Byte)
    requires |raw| == KEY_BYTES && at <= 30 && at % 3 == 0
    requires b2 == if at + 2 < |raw| then raw[at + 2] else 0
    ensures var high: nat, triple: nat := Number(Plain(raw[..at]), 256), raw[at] as int * 0x1_0000 + raw[at + 1] as int * 0x100 + b2;
            high * 0x100_0000 + triple ==
              if at < 30 then Number(Plain(raw[..at + 3]), 256) else Number(Plain(raw), 256) * 256
  {
    PlainAppends(raw, at);
    PlainAppends(raw, at + 1);
    if at < 30 {
      PlainAppends(raw, at + 2);
    } else {
      assert raw[..32] == raw;
    }
  }

  lemma PlainAppends(raw: seq<Byte>, at: nat)
    requires at < |raw|
    ensures Number(Plain(raw[..at + 1]), 256) == Number(Plain(raw[..at]), 256) * 256 + raw[at]
  {
    assert Plain(raw[..at + 1]) == Plain(raw[..at]) + [raw[at]];
    NumberAppends(Plain(raw[..at]), raw[at], 256);
  }

  lemma GroupSpells(out: seq<nat>, triple: nat)
    requires triple < 0x100_0000
    ensures Number(out + [triple / 0x4_0000 % 64, triple / 0x1000 % 64, triple / 64 % 64, triple % 64], 64)
         == Number(out, 64) * 0x100_0000 + triple
  {
    var a, b, c, d := triple / 0x4_0000 % 64, triple / 0x1000 % 64, triple / 64 % 64, triple % 64;
    SextetsSpell(triple);
    hide Number;
    NumberAppends(out, a, 64);
    NumberAppends(out + [a], b, 64);
    NumberAppends(out + [a] + [b], c, 64);
    NumberAppends(out + [a] + [b] + [c], d, 64);
    assert out + [a, b, c, d] == out + [a] + [b] + [c] + [d];
  }

  lemma SextetsSpell(triple: nat)
    requires triple < 0x100_0000
    ensures ((triple / 0x4_0000 % 64 * 64 + triple / 0x1000 % 64) * 64 + triple / 64 % 64) * 64 + triple % 64 == triple
  {
  }

  lemma TruncatedIsTheSpelling(raw: seq<Byte>, out: seq<nat>)
    requires |raw| == KEY_BYTES && |out| == 44 && AreDigits(out, 64) && Number(out, 64) == Number(Plain(raw), 256) * 256
    ensures AreDigits(out[..KEY_LETTERS], 64) && Letters(out[..KEY_LETTERS]) == Spelling(raw)
  {
    var kept, last := out[..KEY_LETTERS], out[KEY_LETTERS];
    assert out == kept + [last];
    NumberAppends(kept, last, 64);
    assert Number(kept, 64) == Number(Plain(raw), 256) * 4;
    DigitsOfNumber(kept, 64);
  }
}
