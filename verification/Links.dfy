/**
 Connection URLs: percent escapes, the join query, and the address they stand in
 (crates/protocol/src/lib.rs). Text is its UTF-8 bytes, one character a byte; a decoded value
 that is not UTF-8 is replaced by the source in a last step that is not part of this model.
 */
module Links {
  import opened Arithmetic
  import opened Options

  const ENDPOINT_PATH: string := "/session"

  /** Every character is one byte. */
  predicate IsBytes(s: string) {
    forall i | 0 <= i < |s| :: s[i] as int < 256
  }

  // --- pieces of text ----------------------------------------------------------------------------

  function Before(s: string, c: char): (front: string)
    ensures front <= s && c !in front
    ensures c in s <==> |front| < |s|
    ensures c in s ==> s[|front|] == c
  {
    if s == [] || s[0] == c then [] else [s[0]] + Before(s[1..], c)
  }

  function SplitOnce(s: string, c: char): Option<(string, string)> {
    if c !in s then None else Some((Before(s, c), s[|Before(s, c)| + 1..]))
  }

  function Split(s: string, c: char): seq<string>
    decreases |s|
  {
    if c !in s then [s] else [Before(s, c)] + Split(s[|Before(s, c)| + 1..], c)
  }

  lemma {:induction false} BeforeAt(a: string, c: char, b: string)
    requires c !in a
    ensures Before(a + [c] + b, c) == a
    decreases |a|
  {
    var s := a + [c] + b;
    if a == [] {
      assert s[0] == c;
    } else {
      assert s[0] == a[0] && s[1..] == a[1..] + [c] + b;
      assert a[0] in a;
      BeforeAt(a[1..], c, b);
    }
  }

  lemma SplitsAt(a: string, c: char, b: string)
    requires c !in a
    ensures SplitOnce(a + [c] + b, c) == Some((a, b))
    ensures Split(a + [c] + b, c) == [a] + Split(b, c)
  {
    BeforeAt(a, c, b);
    assert (a + [c] + b)[|a| + 1..] == b;
  }

  function StripSuffix(s: string, end: string): Option<string> {
    if |end| <= |s| && s[|s| - |end|..] == end then Some(s[..|s| - |end|]) else None
  }

  function TrimSlashes(s: string): (t: string)
    ensures t <= s && (t == [] || t[|t| - 1] != '/')
  {
    if s != [] && s[|s| - 1] == '/' then TrimSlashes(s[..|s| - 1]) else s
  }

  // --- percent escapes ---------------------------------------------------------------------------

  predicate Unreserved(c: char) {
    'a' <= c <= 'z' || 'A' <= c <= 'Z' || '0' <= c <= '9' || c in {'-', '.', '_', '~'}
  }

  function HexDigit(n: nat): (c: char)
    requires n < 16
  {
    if n < 10 then '0' + n as char else 'A' + (n - 10) as char
  }

  function HexValue(c: char): (v: Option<nat>)
    ensures v.Some? ==> v.value < 16
  {
    if '0' <= c <= '9' then Some((c - '0') as int)
    else if 'A' <= c <= 'F' then Some((c - 'A') as int + 10)
    else if 'a' <= c <= 'f' then Some((c - 'a') as int + 10)
    else None
  }

  function Escape(c: char): string
    requires c as int < 256
  {
    ['%', HexDigit(c as int / 16), HexDigit(c as int % 16)]
  }

  function PercentEncode(s: string): string
    requires IsBytes(s)
  {
    if s == [] then []
    else (if Unreserved(s[0]) then [s[0]] else Escape(s[0])) + PercentEncode(s[1..])
  }

  /** The byte two characters after a `%` spell; the number reader behind it takes a leading `+`. */
  function Escaped(rest: string): (byte: Option<nat>)
    ensures byte.Some? ==> byte.value < 256 && 2 <= |rest|
  {
    if |rest| < 2 then None
    else if rest[0] == '+' then HexValue(rest[1])
    else if HexValue(rest[0]).None? || HexValue(rest[1]).None? then None
    else Some(HexValue(rest[0]).value * 16 + HexValue(rest[1]).value)
  }

  function PercentDecode(s: string): string
    decreases |s|
  {
    if s == [] then []
    else if s[0] == '%' && Escaped(s[1..]).Some? then [Escaped(s[1..]).value as char] + PercentDecode(s[3..])
    else [s[0]] + PercentDecode(s[1..])
  }

  lemma HexReadsBack(n: nat)
    requires n < 16
    ensures HexValue(HexDigit(n)) == Some(n) && HexDigit(n) != '+'
  {
  }

  /** A whole code unit escaped or left alone decodes to itself, whatever follows. */
  lemma OneDecodes(c: char, rest: string)
    requires c as int < 256
    ensures PercentDecode((if Unreserved(c) then [c] else Escape(c)) + rest) == [c] + PercentDecode(rest)
  {
    if Unreserved(c) {
      assert ([c] + rest)[1..] == rest;
    } else {
      var s := Escape(c) + rest;
      HexReadsBack(c as int / 16);
      HexReadsBack(c as int % 16);
      assert s[0] == '%' && s[1] == HexDigit(c as int / 16) && s[2] == HexDigit(c as int % 16) && s[3..] == rest;
      assert s[1..][0] == s[1] && s[1..][1] == s[2];
      assert Escaped(s[1..]) == Some(c as int);
    }
  }

  /** Sections 2.1 and 2.3 of RFC 3986: decoding undoes encoding, for any bytes at all. */
  lemma {:induction false} PercentRoundTrips(s: string)
    requires IsBytes(s)
    ensures PercentDecode(PercentEncode(s)) == s
    decreases |s|
  {
    if s != [] {
      PercentRoundTrips(s[1..]);
      OneDecodes(s[0], PercentEncode(s[1..]));
      assert [s[0]] + s[1..] == s;
    }
  }

  predicate UrlSafe(s: string) {
    forall c <- s :: Unreserved(c) || c == '%'
  }

  lemma {:induction false} EncodedIsUrlSafe(s: string)
    requires IsBytes(s)
    ensures UrlSafe(PercentEncode(s))
    decreases |s|
  {
    if s != [] {
      EncodedIsUrlSafe(s[1..]);
      var head := if Unreserved(s[0]) then [s[0]] else Escape(s[0]);
      assert UrlSafe(head);
    }
  }

  /** A value with nothing to escape is its own decoding. */
  lemma {:induction false} PlainDecodesToItself(s: string)
    requires forall c <- s :: Unreserved(c)
    ensures PercentDecode(s) == s
    decreases |s|
  {
    if s != [] {
      PlainDecodesToItself(s[1..]);
      assert s[0] in s && [s[0]] + s[1..] == s;
    }
  }

  /** Section 2.1 of RFC 3986: two hexadecimal digits and nothing else. */
  function RfcEscaped(rest: string): Option<nat> {
    if |rest| < 2 || HexValue(rest[0]).None? || HexValue(rest[1]).None? then None
    else Some(HexValue(rest[0]).value * 16 + HexValue(rest[1]).value)
  }

  function RfcDecode(s: string): string
    decreases |s|
  {
    if s == [] then []
    else if s[0] == '%' && RfcEscaped(s[1..]).Some? then [RfcEscaped(s[1..]).value as char] + RfcDecode(s[3..])
    else [s[0]] + RfcDecode(s[1..])
  }

  /** A plus sign and one digit: what a reader of signed numbers takes and the RFC does not. */
  predicate SignAndDigit(rest: string) {
    |rest| >= 2 && rest[0] == '+' && HexValue(rest[1]).Some?
  }

  /** Whether the decoder, going from escape to escape, comes to a `%` with a sign behind it. */
  predicate MeetsSignedEscape(s: string)
    decreases |s|
  {
    s != [] &&
    if s[0] == '%' && SignAndDigit(s[1..]) then true
    else if s[0] == '%' && RfcEscaped(s[1..]).Some? then MeetsSignedEscape(s[3..])
    else MeetsSignedEscape(s[1..])
  }

  lemma HeadsAlike(c: char, left: string, right: string)
    ensures [c] + left == [c] + right <==> left == right
  {
    assert ([c] + left)[1..] == left && ([c] + right)[1..] == right;
  }

  /** The decoder is the RFC's on exactly the texts in which its walk meets no signed escape. */
  lemma {:induction false} DecodesAsTheRfcExactly(s: string)
    ensures PercentDecode(s) == RfcDecode(s) <==> !MeetsSignedEscape(s)
    decreases |s|
  {
    if s != [] {
      var rest := s[1..];
      if s[0] == '%' && SignAndDigit(rest) {
        assert PercentDecode(s)[0] == Escaped(rest).value as char && RfcDecode(s)[0] == '%';
      } else if s[0] == '%' && RfcEscaped(rest).Some? {
        DecodesAsTheRfcExactly(s[3..]);
        HeadsAlike(Escaped(rest).value as char, PercentDecode(s[3..]), RfcDecode(s[3..]));
      } else {
        DecodesAsTheRfcExactly(rest);
        HeadsAlike(s[0], PercentDecode(rest), RfcDecode(rest));
      }
    }
  }

  /** The shortest such text: `%+A` is read as the byte 10, and stands for itself in the RFC. */
  lemma AnEscapeWithASign()
    ensures PercentDecode("%+A") == [10 as char] && RfcDecode("%+A") == "%+A" && MeetsSignedEscape("%+A")
  {
    assert "%+A"[1..] == "+A" && "%+A"[3..] == "" && "+A"[1..] == "A" && "A"[1..] == "";
    assert "+A"[0] == '+' && HexValue('A') == Some(10) && HexValue('+') == None;
    assert RfcDecode("A") == "A" && RfcDecode("+A") == "+A";
  }

  method EncodePercent(s: string) returns (out: string)
    requires IsBytes(s)
    ensures out == PercentEncode(s)
  {
    out := "";
    var i := 0;
    while i < |s|
      invariant 0 <= i <= |s|
      invariant PercentEncode(s) == out + PercentEncode(s[i..])
    {
      assert s[i..][0] == s[i] && s[i..][1..] == s[i + 1..];
      var piece := if Unreserved(s[i]) then [s[i]] else Escape(s[i]);
      assert out + (piece + PercentEncode(s[i + 1..])) == (out + piece) + PercentEncode(s[i + 1..]);
      out := out + piece;
      i := i + 1;
    }
    assert s[|s|..] == [] && out + [] == out;
  }

  method DecodePercent(s: string) returns (out: string)
    ensures out == PercentDecode(s)
  {
    out := "";
    var rest := s;
    while rest != []
      invariant PercentDecode(s) == out + PercentDecode(rest)
      decreases |rest|
    {
      var first, tail := rest[0], rest[1..];
      var escaped := if first == '%' then Escaped(tail) else None;
      ghost var before := out;
      if escaped.Some? {
        assert rest[3..] == tail[2..];
        assert before + ([escaped.value as char] + PercentDecode(rest[3..])) == (before + [escaped.value as char]) + PercentDecode(rest[3..]);
        out := out + [escaped.value as char];
        rest := tail[2..];
        continue;
      }
      assert before + ([first] + PercentDecode(tail)) == (before + [first]) + PercentDecode(tail);
      out := out + [first];
      rest := tail;
    }
    assert out + [] == out;
  }

  // --- the join query ------------------------------------------------------------------------------

  datatype JoinQuery = JoinQuery(room: Option<string>, token: Option<string>)

  datatype Joined = Joins(query: JoinQuery) | NamedTwice(name: string)

  function NameOf(pair: string): string {
    Before(pair, '=')
  }

  function ValueIn(pair: string): string {
    if '=' in pair then pair[|Before(pair, '=')| + 1..] else ""
  }

  /** One parameter folded in: a name that comes twice is refused, an unknown one ignored. */
  function WithPair(query: JoinQuery, pair: string): Joined {
    if NameOf(pair) == "room" then
      if query.room.Some? then NamedTwice("room") else Joins(query.(room := Some(PercentDecode(ValueIn(pair)))))
    else if NameOf(pair) == "token" then
      if query.token.Some? then NamedTwice("token") else Joins(query.(token := Some(PercentDecode(ValueIn(pair)))))
    else Joins(query)
  }

  function WithPairs(query: JoinQuery, pairs: seq<string>): Joined
    decreases |pairs|
  {
    if pairs == [] then Joins(query)
    else
      var next := WithPair(query, pairs[0]);
      if next.NamedTwice? then next else WithPairs(next.query, pairs[1..])
  }

  function ParseJoinQuery(query: string): Joined {
    WithPairs(JoinQuery(None, None), Split(query, '&'))
  }

  /** How often a query names a parameter. */
  function Named(pairs: seq<string>, name: string): nat {
    if pairs == [] then 0 else (if NameOf(pairs[0]) == name then 1 else 0) + Named(pairs[1..], name)
  }

  /** No value depends on the order of two of a name: a query is read exactly when it repeats neither. */
  lemma {:induction false} ReadExactlyWithoutRepeats(query: JoinQuery, pairs: seq<string>)
    ensures WithPairs(query, pairs).Joins? <==>
              && (Named(pairs, "room") == 0 || Named(pairs, "room") + One(query.room.Some?) <= 1)
              && (Named(pairs, "token") == 0 || Named(pairs, "token") + One(query.token.Some?) <= 1)
    decreases |pairs|
  {
    if pairs != [] {
      var next := WithPair(query, pairs[0]);
      if next.Joins? {
        ReadExactlyWithoutRepeats(next.query, pairs[1..]);
      }
    }
  }

  method ReadJoinQuery(query: string) returns (joined: Joined)
    ensures joined == ParseJoinQuery(query)
  {
    var pairs := Split(query, '&');
    var out := JoinQuery(None, None);
    var i := 0;
    while i < |pairs|
      invariant 0 <= i <= |pairs|
      invariant ParseJoinQuery(query) == WithPairs(out, pairs[i..])
    {
      var pair := pairs[i];
      assert pairs[i..][0] == pair && pairs[i..][1..] == pairs[i + 1..];
      i := i + 1;
      if pair == "" {
        continue;
      }
      var split := SplitOnce(pair, '=');
      var (name, value) := if split.Some? then split.value else (pair, "");
      assert name == NameOf(pair) && value == ValueIn(pair);
      if name == "room" {
        if out.room.Some? {
          return NamedTwice("room");
        }
        var decoded := DecodePercent(value);
        out := out.(room := Some(decoded));
      } else if name == "token" {
        if out.token.Some? {
          return NamedTwice("token");
        }
        var decoded := DecodePercent(value);
        out := out.(token := Some(decoded));
      }
    }
    joined := Joins(out);
  }

  // --- the address -------------------------------------------------------------------------------

  datatype SessionAddress = SessionAddress(base: string, join: JoinQuery)

  function ParseSessionUrl(url: string): Option<SessionAddress> {
    var endpoint := Before(url, '?');
    var query := if '?' in url then url[|endpoint| + 1..] else "";
    var joined := ParseJoinQuery(query);
    var base := StripSuffix(endpoint, ENDPOINT_PATH);
    if joined.NamedTwice? || base.None? then None else Some(SessionAddress(base.value, joined.query))
  }

  function Parameter(name: string, value: Option<string>, separator: char): string
    requires value.Some? ==> IsBytes(value.value)
  {
    if value.None? then "" else [separator] + name + "=" + PercentEncode(value.value)
  }

  function SessionUrl(base: string, room: Option<string>, token: Option<string>): string
    requires room.Some? ==> IsBytes(room.value)
    requires token.Some? ==> IsBytes(token.value)
  {
    TrimSlashes(base) + ENDPOINT_PATH + Parameter("room", room, '?')
    + Parameter("token", token, if room.Some? then '&' else '?')
  }

  method BuildSessionUrl(base: string, room: Option<string>, token: Option<string>) returns (url: string)
    requires room.Some? ==> IsBytes(room.value)
    requires token.Some? ==> IsBytes(token.value)
    ensures url == SessionUrl(base, room, token)
  {
    hide TrimSlashes, Parameter;
    var front := TrimSlashes(base) + ENDPOINT_PATH;
    url := front;
    var separator := '?';
    var parts := [("room", room), ("token", token)];
    for i := 0 to 2
      invariant url == front + Printed(room, token, i)
      invariant i <= 1 ==> separator == if i == 1 && room.Some? then '&' else '?'
    {
      var (name, value) := parts[i];
      var parameter := BuildParameter(name, value, separator);
      url := url + parameter;
      if value.Some? {
        separator := '&';
      }
    }
  }

  method BuildParameter(name: string, value: Option<string>, separator: char) returns (text: string)
    requires value.Some? ==> IsBytes(value.value)
    ensures text == Parameter(name, value, separator)
  {
    if value.None? {
      return "";
    }
    var encoded := EncodePercent(value.value);
    text := [separator] + name + "=" + encoded;
  }

  /** The parameters a URL has been given after `done` of the two. */
  function Printed(room: Option<string>, token: Option<string>, done: nat): string
    requires room.Some? ==> IsBytes(room.value)
    requires token.Some? ==> IsBytes(token.value)
  {
    (if done > 0 then Parameter("room", room, '?') else "")
    + (if done > 1 then Parameter("token", token, if room.Some? then '&' else '?') else "")
  }

  /** A query of one room and one token, as the printer writes it, reads back to both. */
  lemma PrintedQueryReadsBack(room: string, token: string)
    requires IsBytes(room) && IsBytes(token)
    ensures ParseJoinQuery("room=" + PercentEncode(room) + "&" + ("token=" + PercentEncode(token)))
         == Joins(JoinQuery(Some(room), Some(token)))
  {
    hide PercentEncode, PercentDecode, Split, WithPairs, WithPair, Before, NameOf, ValueIn;
    var a, b := "room=" + PercentEncode(room), "token=" + PercentEncode(token);
    EncodedIsUrlSafe(room);
    EncodedIsUrlSafe(token);
    SafeHasNoSeparator(PercentEncode(room));
    SafeHasNoSeparator(PercentEncode(token));
    assert '&' !in a && '&' !in b;
    SplitsAt(a, '&', b);
    SplitOfOne(b, '&');
    assert a + "&" + b == a + ['&'] + b;
    PairIs("room", PercentEncode(room));
    PairIs("token", PercentEncode(token));
    assert "room" + "=" == "room=" && "token" + "=" == "token=";
    PercentRoundTrips(room);
    PercentRoundTrips(token);
    assert [a] + [b] == [a, b];
    TwoPairs(a, b, room, token);
  }

  lemma SafeHasNoSeparator(s: string)
    requires UrlSafe(s)
    ensures '&' !in s && '?' !in s && '=' !in s && '#' !in s && '/' !in s
  {
  }

  lemma SplitOfOne(s: string, c: char)
    requires c !in s
    ensures Split(s, c) == [s]
  {
  }

  lemma PairIs(name: string, value: string)
    requires '=' !in name
    ensures NameOf(name + "=" + value) == name && ValueIn(name + "=" + value) == value
  {
    var pair := name + "=" + value;
    assert pair == name + ['='] + value;
    BeforeAt(name, '=', value);
    assert pair[|name|] == '=' && pair[|name| + 1..] == value;
  }

  lemma TwoPairs(a: string, b: string, room: string, token: string)
    requires NameOf(a) == "room" && PercentDecode(ValueIn(a)) == room
    requires NameOf(b) == "token" && PercentDecode(ValueIn(b)) == token
    ensures WithPairs(JoinQuery(None, None), [a, b]) == Joins(JoinQuery(Some(room), Some(token)))
  {
    hide PercentDecode;
    assert "token" != "room" by { assert |"token"| == 5 && |"room"| == 4; }
    assert [a, b][1..] == [b] && [b][1..] == [];
    assert WithPairs(JoinQuery(Some(room), Some(token)), []) == Joins(JoinQuery(Some(room), Some(token)));
    assert WithPairs(JoinQuery(Some(room), None), [b]) == Joins(JoinQuery(Some(room), Some(token)));
  }

  /** A base the printer leaves as it is: no query of its own, and no slash to trim. */
  predicate PlainBase(base: string) {
    '?' !in base && (base == "" || base[|base| - 1] != '/')
  }

  /**
   A printed connection URL always reads back, to the same room and token; and to the same base
   exactly when that has no `?` and no trailing slash.
   */
  lemma SessionUrlRoundTrips(base: string, room: string, token: string)
    requires IsBytes(room) && IsBytes(token)
    ensures var read := ParseSessionUrl(SessionUrl(base, Some(room), Some(token)));
            (read == Some(SessionAddress(base, JoinQuery(Some(room), Some(token))))) <==> PlainBase(base)
  {
    hide PercentEncode, ParseJoinQuery, TrimSlashes, Before;
    var url := SessionUrl(base, Some(room), Some(token));
    var trimmed := TrimSlashes(base);
    var query := "room=" + PercentEncode(room) + "&" + ("token=" + PercentEncode(token));
    assert url == (trimmed + ENDPOINT_PATH) + ['?'] + query;
    ReadBaseHasNoQuery(url);
    if '?' !in base {
      PrintedQueryReadsBack(room, token);
      AddressReads(trimmed, query);
      PlainIsTrimmed(base);
    }
  }

  lemma AddressReads(base: string, query: string)
    requires '?' !in base && ParseJoinQuery(query).Joins?
    ensures ParseSessionUrl(base + ENDPOINT_PATH + ['?'] + query) == Some(SessionAddress(base, ParseJoinQuery(query).query))
  {
    hide ParseJoinQuery;
    var endpoint := base + ENDPOINT_PATH;
    var url := endpoint + ['?'] + query;
    BeforeAt(endpoint, '?', query);
    assert url[|endpoint|] == '?' && url[|endpoint| + 1..] == query;
    assert endpoint[|base|..] == ENDPOINT_PATH && endpoint[..|base|] == base;
  }

  lemma PlainIsTrimmed(base: string)
    ensures TrimSlashes(base) == base <==> base == "" || base[|base| - 1] != '/'
  {
  }

  lemma ReadBaseHasNoQuery(url: string)
    ensures var read := ParseSessionUrl(url); read.Some? ==> '?' !in read.value.base
  {
  }
}
