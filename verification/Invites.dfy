/**
 An invite: the link a host prints, and the room, token and keys a guest reads out of one
 (crates/client/src/peer/invite.rs, and the printing in crates/client/src/relay.rs).
 */
module Invites {
  import opened Options
  import opened Bytes
  import opened Keys
  import opened Links

  type Key = seq<Byte>

  datatype Invite = Invite(socketUrl: string, room: string, token: string, roomKey: Key, hostKey: Key)

  datatype Refusal =
    | NoFragment | NoEndpoint | RepeatedName(name: string) | NoRoom | NoToken
    | NoRoomKey | NoHostKey | KeyTwice(name: string) | NotAKey(name: string)

  datatype Parsed = Reads(invite: Invite) | Refused(why: Refusal)

  // --- the address half ---------------------------------------------------------------------------

  /** The connection scheme a page's scheme stands for, and the rest of the link. */
  function WireScheme(address: string): Option<string> {
    if "http://" <= address then Some("ws://" + address[7..])
    else if "https://" <= address then Some("wss://" + address[8..])
    else None
  }

  function PageToEndpoint(address: string): Option<string> {
    if WireScheme(address).None? then None else EndpointOn(WireScheme(address).value)
  }

  /** The session endpoint under a page's path, with the page's own query behind it. */
  function EndpointOn(wire: string): Option<string> {
    var front := Before(wire, '?');
    var authority := Before(front, '/');
    if authority == "" then None
    else
      var base := authority + TrimSlashes(front[|authority|..]);
      Some(base + ENDPOINT_PATH + (if '?' in wire then wire[|front|..] else ""))
  }

  function WireAddress(link: string): string {
    var address := Before(link, '#');
    if PageToEndpoint(address).Some? then PageToEndpoint(address).value else address
  }

  // --- the fragment half --------------------------------------------------------------------------

  datatype Slots = Slots(room: Option<Key>, host: Option<Key>)

  datatype Filled = Fills(slots: Slots) | Spoilt(why: Refusal)

  function FromText(text: string): seq<Byte>
    requires IsBytes(text)
  {
    seq(|text|, i requires 0 <= i < |text| => var b: Byte := text[i] as int; b)
  }

  function ToText(bytes: seq<Byte>): (text: string)
    ensures |text| == |bytes| && IsBytes(text)
    ensures FromText(text) == bytes
  {
    seq(|bytes|, i requires 0 <= i < |bytes| => bytes[i] as char)
  }

  function KeyIn(value: string): Option<Key> {
    var decoded := PercentDecode(value);
    if IsBytes(decoded) then KeyOf(FromText(decoded)) else None
  }

  function SetOnce(slot: Option<Key>, value: Option<Key>, name: string): (Option<Key>, Option<Refusal>) {
    if slot.Some? then (slot, Some(KeyTwice(name)))
    else if value.None? then (slot, Some(NotAKey(name)))
    else (value, None)
  }

  function WithFragment(slots: Slots, pair: string): Filled {
    if NameOf(pair) == "k" then
      var (slot, why) := SetOnce(slots.room, KeyIn(ValueIn(pair)), "k");
      if why.Some? then Spoilt(why.value) else Fills(slots.(room := slot))
    else if NameOf(pair) == "h" then
      var (slot, why) := SetOnce(slots.host, KeyIn(ValueIn(pair)), "h");
      if why.Some? then Spoilt(why.value) else Fills(slots.(host := slot))
    else Fills(slots)
  }

  function WithFragments(slots: Slots, pairs: seq<string>): Filled
    decreases |pairs|
  {
    if pairs == [] then Fills(slots)
    else
      var next := WithFragment(slots, pairs[0]);
      if next.Spoilt? then next else WithFragments(next.slots, pairs[1..])
  }

  function FragmentKeys(fragment: string): (filled: Filled)
    ensures filled.Fills? ==> filled.slots.room.Some? && filled.slots.host.Some?
  {
    var filled := WithFragments(Slots(None, None), Split(fragment, '&'));
    if filled.Spoilt? then filled
    else if filled.slots.room.None? then Spoilt(NoRoomKey)
    else if filled.slots.host.None? then Spoilt(NoHostKey)
    else filled
  }

  method ReadFragment(fragment: string) returns (filled: Filled)
    ensures filled == FragmentKeys(fragment)
  {
    var pairs := Split(fragment, '&');
    var slots := Slots(None, None);
    var i := 0;
    while i < |pairs|
      invariant 0 <= i <= |pairs|
      invariant WithFragments(Slots(None, None), pairs) == WithFragments(slots, pairs[i..])
    {
      var pair := pairs[i];
      assert pairs[i..][0] == pair && pairs[i..][1..] == pairs[i + 1..];
      i := i + 1;
      if NameOf(pair) == "k" {
        if slots.room.Some? {
          return Spoilt(KeyTwice("k"));
        }
        var key := KeyIn(ValueIn(pair));
        if key.None? {
          return Spoilt(NotAKey("k"));
        }
        slots := slots.(room := key);
      } else if NameOf(pair) == "h" {
        if slots.host.Some? {
          return Spoilt(KeyTwice("h"));
        }
        var key := KeyIn(ValueIn(pair));
        if key.None? {
          return Spoilt(NotAKey("h"));
        }
        slots := slots.(host := key);
      }
    }
    if slots.room.None? {
      return Spoilt(NoRoomKey);
    }
    if slots.host.None? {
      return Spoilt(NoHostKey);
    }
    filled := Fills(slots);
  }

  // --- the whole link ------------------------------------------------------------------------------

  function Parse(link: string): Parsed {
    if '#' !in link then Refused(NoFragment)
    else
      var url := WireAddress(link);
      var query := if '?' in url then url[|Before(url, '?')| + 1..] else "";
      var read := ParseSessionUrl(url);
      if read.None? then
        Refused(if ParseJoinQuery(query).NamedTwice? then RepeatedName(ParseJoinQuery(query).name) else NoEndpoint)
      else if read.value.join.room.None? then Refused(NoRoom)
      else if read.value.join.token.None? then Refused(NoToken)
      else
        var keys := FragmentKeys(link[|Before(link, '#')| + 1..]);
        if keys.Spoilt? then Refused(keys.why)
        else Reads(Invite(url, read.value.join.room.value, read.value.join.token.value,
                          keys.slots.room.value, keys.slots.host.value))
  }

  function Fragment(roomKey: Key, hostKey: Key): string {
    "k=" + ToText(Spelling(roomKey)) + "&" + ("h=" + ToText(Spelling(hostKey)))
  }

  /** The link a host prints: the connection URL, and both keys behind the fragment sign. */
  function Printed(base: string, room: string, token: string, roomKey: Key, hostKey: Key): string
    requires IsBytes(room) && IsBytes(token)
  {
    SessionUrl(base, Some(room), Some(token)) + ['#'] + Fragment(roomKey, hostKey)
  }

  lemma SpellingIsPlain(key: Key)
    requires |key| == KEY_BYTES
    ensures var text := ToText(Spelling(key));
            (forall c <- text :: Unreserved(c)) && KeyIn(text) == Some(key)
  {
    hide Spelling, KeyOf, PercentDecode;
    var spelled := Spelling(key);
    var text := ToText(spelled);
    KeySpellsAndReads(key);
    SpellingIsLetters(key);
    forall c <- text ensures Unreserved(c) {
      var i :| 0 <= i < |text| && text[i] == c;
      assert FromText(text)[i] == spelled[i];
      LettersAreUnreserved(spelled[i]);
    }
    PlainDecodesToItself(text);
  }

  lemma SpellingIsLetters(key: Key)
    requires |key| == KEY_BYTES
    ensures forall i | 0 <= i < |Spelling(key)| :: LetterValue(Spelling(key)[i]).Some?
  {
    hide Spelling, LetterValue;
    KeySpellsAndReads(key);
    assert AllLetters(Spelling(key));
  }

  lemma LettersAreUnreserved(b: Byte)
    requires LetterValue(b).Some?
    ensures Unreserved(b as char)
  {
  }

  /** Both keys come back from the fragment they were printed in. */
  lemma FragmentReadsBack(roomKey: Key, hostKey: Key)
    requires |roomKey| == KEY_BYTES && |hostKey| == KEY_BYTES
    ensures FragmentKeys(Fragment(roomKey, hostKey)) == Fills(Slots(Some(roomKey), Some(hostKey)))
    ensures '#' !in Fragment(roomKey, hostKey)
  {
    hide Spelling, KeyOf, KeyIn, Split, Before, NameOf, ValueIn, WithFragments;
    var k, h := ToText(Spelling(roomKey)), ToText(Spelling(hostKey));
    SpellingIsPlain(roomKey);
    SpellingIsPlain(hostKey);
    var a, b := "k=" + k, "h=" + h;
    assert '&' !in a && '&' !in b && '#' !in a && '#' !in b by {
      PlainHasNoSeparator(k);
      PlainHasNoSeparator(h);
    }
    assert a + "&" + b == a + ['&'] + b;
    SplitsAt(a, '&', b);
    SplitOfOne(b, '&');
    assert [a] + [b] == [a, b];
    assert "k" + "=" == "k=" && "h" + "=" == "h=";
    PairIs("k", k);
    PairIs("h", h);
    TwoSlots(a, b, roomKey, hostKey);
  }

  lemma PlainHasNoSeparator(s: string)
    requires forall c <- s :: Unreserved(c)
    ensures '&' !in s && '#' !in s
  {
  }

  lemma TwoSlots(a: string, b: string, roomKey: Key, hostKey: Key)
    requires NameOf(a) == "k" && KeyIn(ValueIn(a)) == Some(roomKey)
    requires NameOf(b) == "h" && KeyIn(ValueIn(b)) == Some(hostKey)
    ensures WithFragments(Slots(None, None), [a, b]) == Fills(Slots(Some(roomKey), Some(hostKey)))
  {
    hide KeyIn, NameOf, ValueIn;
    assert "h"[0] == 'h' && "k"[0] == 'k';
    assert [a, b][1..] == [b] && [b][1..] == [];
    assert WithFragments(Slots(Some(roomKey), Some(hostKey)), []) == Fills(Slots(Some(roomKey), Some(hostKey)));
    assert WithFragments(Slots(Some(roomKey), None), [b]) == Fills(Slots(Some(roomKey), Some(hostKey)));
  }

  // --- print, then parse -----------------------------------------------------------------------------

  /** A base a link keeps: no query, fragment or trailing slash, and not a page's scheme. */
  predicate WireBase(base: string) {
    PlainBase(base) && '#' !in base && !("http://" <= base) && !("https://" <= base)
  }

  /** The link read back to what it was printed from. */
  predicate ReadsBack(base: string, room: string, token: string, roomKey: Key, hostKey: Key)
    requires IsBytes(room) && IsBytes(token)
  {
    var parsed := Parse(Printed(base, room, token, roomKey, hostKey));
    && parsed.Reads? && parsed.invite.room == room && parsed.invite.token == token
    && parsed.invite.roomKey == roomKey && parsed.invite.hostKey == hostKey
    && ParseSessionUrl(parsed.invite.socketUrl).Some? && ParseSessionUrl(parsed.invite.socketUrl).value.base == base
  }

  lemma PrintedUrlHasNoFragment(base: string, room: string, token: string)
    requires IsBytes(room) && IsBytes(token)
    ensures '#' in SessionUrl(base, Some(room), Some(token)) <==> '#' in TrimSlashes(base)
  {
    hide PercentEncode, TrimSlashes;
    EncodedIsUrlSafe(room);
    EncodedIsUrlSafe(token);
    SafeHasNoSeparator(PercentEncode(room));
    SafeHasNoSeparator(PercentEncode(token));
  }

  lemma {:induction false} TrimmingKeeps(s: string, c: char)
    requires c != '/'
    ensures c in s <==> c in TrimSlashes(s)
    decreases |s|
  {
    if s != [] && s[|s| - 1] == '/' {
      TrimmingKeeps(s[..|s| - 1], c);
      assert s == s[..|s| - 1] + [s[|s| - 1]];
    }
  }

  /** The first letters of a printed URL are its base's. */
  lemma PrintedUrlStarts(base: string, room: string, token: string)
    requires IsBytes(room) && IsBytes(token)
    ensures var url := SessionUrl(base, Some(room), Some(token));
            && TrimSlashes(base) + ENDPOINT_PATH <= url
            && url[0] == (if TrimSlashes(base) == "" then '/' else base[0])
  {
    hide PercentEncode;
    var url := SessionUrl(base, Some(room), Some(token));
    var front := TrimSlashes(base) + ENDPOINT_PATH;
    assert front <= url;
    assert url[0] == front[0];
  }

  lemma NoPageScheme(base: string, url: string)
    requires TrimSlashes(base) == base && !("http://" <= base) && !("https://" <= base)
    requires base + ENDPOINT_PATH <= url
    ensures WireScheme(url).None?
  {
    var front := base + ENDPOINT_PATH;
    if "http://" <= url {
      PrefixesMeet("http://", base, url);
    }
    if "https://" <= url {
      PrefixesMeet("https://", base, url);
    }
  }

  /** A scheme that runs past the base would need its second slash where the path has a letter. */
  lemma PrefixesMeet(scheme: string, base: string, url: string)
    requires scheme == "http://" || scheme == "https://"
    requires scheme <= url && base + ENDPOINT_PATH <= url && (base == "" || base[|base| - 1] != '/')
    ensures scheme <= base
  {
    var front, n := base + ENDPOINT_PATH, |base|;
    assert url[n] == front[n] == '/' && url[n + 1] == front[n + 1] == 's';
    assert forall i | 0 <= i < n :: url[i] == front[i] == base[i];
    assert forall i | 0 <= i < |scheme| :: scheme[i] == url[i];
  }

  lemma PageAddressStarts(address: string)
    requires PageToEndpoint(address).Some?
    ensures var url := PageToEndpoint(address).value; url != "" && url[0] == 'w'
    ensures '#' in PageToEndpoint(address).value ==> '#' in address
    ensures address != "" && address[0] == 'h'
  {
    hide WireScheme, Before, TrimSlashes;
    SchemeStarts(address);
    var scheme := WireScheme(address).value;
    var front := Before(scheme, '?');
    var authority := Before(front, '/');
    assert authority != "" && authority[0] == scheme[0];
    TrimmingKeeps(front[|authority|..], '#');
  }

  lemma SchemeStarts(address: string)
    requires WireScheme(address).Some?
    ensures var wire := WireScheme(address).value;
            wire != "" && wire[0] == 'w' && address != "" && address[0] == 'h' && ('#' in wire ==> '#' in address)
  {
  }

  lemma ReadBaseStarts(url: string)
    requires ParseSessionUrl(url).Some?
    ensures ParseSessionUrl(url).value.base <= url
  {
  }

  lemma LinkSplits(url: string, fragment: string)
    requires '#' !in url
    ensures var link := url + ['#'] + fragment;
            '#' in link && Before(link, '#') == url && link[|url| + 1..] == fragment
  {
    BeforeAt(url, '#', fragment);
    assert (url + ['#'] + fragment)[|url|] == '#';
  }

  /** A printed link whose address is no page reads back all but, perhaps, its base. */
  lemma WireLinkReads(base: string, room: string, token: string, roomKey: Key, hostKey: Key)
    requires IsBytes(room) && IsBytes(token) && |roomKey| == KEY_BYTES && |hostKey| == KEY_BYTES
    requires var url := SessionUrl(base, Some(room), Some(token)); '#' !in url && PageToEndpoint(url).None?
    ensures var url := SessionUrl(base, Some(room), Some(token));
            var parsed := Parse(Printed(base, room, token, roomKey, hostKey));
            parsed.Reads? ==>
              && parsed.invite.socketUrl == url && ParseSessionUrl(url).Some?
              && ParseSessionUrl(url).value.join == JoinQuery(Some(parsed.invite.room), Some(parsed.invite.token))
    ensures PlainBase(base) ==>
              Parse(Printed(base, room, token, roomKey, hostKey))
              == Reads(Invite(SessionUrl(base, Some(room), Some(token)), room, token, roomKey, hostKey))
  {
    hide SessionUrl, ParseSessionUrl, PageToEndpoint, Fragment, FragmentKeys, Before;
    var url := SessionUrl(base, Some(room), Some(token));
    LinkSplits(url, Fragment(roomKey, hostKey));
    SessionUrlRoundTrips(base, room, token);
    FragmentReadsBack(roomKey, hostKey);
  }

  /**
   The invite round trip, and exactly when it holds: a link a host prints reads back to the base,
   room, token and both keys it was printed from if and only if the base has no query, fragment
   or trailing slash and is not written with a page's scheme.
   */
  lemma InviteRoundTrips(base: string, room: string, token: string, roomKey: Key, hostKey: Key)
    requires IsBytes(room) && IsBytes(token) && |roomKey| == KEY_BYTES && |hostKey| == KEY_BYTES
    ensures ReadsBack(base, room, token, roomKey, hostKey) <==> WireBase(base)
  {
    hide SessionUrl, ParseSessionUrl, PageToEndpoint, Fragment, FragmentKeys, Parse, TrimSlashes, Printed;
    var url := SessionUrl(base, Some(room), Some(token));
    PrintedUrlHasNoFragment(base, room, token);
    TrimmingKeeps(base, '#');
    if '#' in base {
      AFragmentInTheBaseIsLost(base, room, token, roomKey, hostKey);
    } else {
      PrintedUrlStarts(base, room, token);
      SessionUrlRoundTrips(base, room, token);
      PlainIsTrimmed(base);
      if PageToEndpoint(url).Some? {
        APageBaseIsLost(base, room, token, roomKey, hostKey);
      } else {
        WireLinkReads(base, room, token, roomKey, hostKey);
        if PlainBase(base) && ("http://" <= base || "https://" <= base) {
          PageSchemesArePages(base, url);
        }
      }
    }
  }

  lemma PageSchemesArePages(base: string, url: string)
    requires ("http://" <= base || "https://" <= base) && base <= url
    ensures PageToEndpoint(url).Some?
  {
    var scheme := if "http://" <= base then "http://" else "https://";
    assert forall i | 0 <= i < |scheme| :: scheme[i] == base[i] == url[i];
    assert scheme <= url;
    var wire := WireScheme(url).value;
    assert wire[0] == 'w';
    assert Before(wire, '?')[0] == 'w';
  }

  lemma APageBaseIsLost(base: string, room: string, token: string, roomKey: Key, hostKey: Key)
    requires IsBytes(room) && IsBytes(token) && '#' !in SessionUrl(base, Some(room), Some(token))
    requires PageToEndpoint(SessionUrl(base, Some(room), Some(token))).Some?
    ensures !ReadsBack(base, room, token, roomKey, hostKey) && !WireBase(base)
  {
    hide SessionUrl, ParseSessionUrl, PageToEndpoint, Fragment, FragmentKeys, Before;
    var url := SessionUrl(base, Some(room), Some(token));
    LinkSplits(url, Fragment(roomKey, hostKey));
    PageAddressStarts(url);
    PrintedUrlStarts(base, room, token);
    assert base[0] == 'h';
    var wire := PageToEndpoint(url).value;
    if ParseSessionUrl(wire).Some? {
      ReadBaseStarts(wire);
    }
    if WireBase(base) {
      PlainIsTrimmed(base);
      NoPageScheme(base, url);
      PagesHaveSchemes(url);
    }
  }

  /** The authority test never refuses: what stands before the first slash is the scheme itself. */
  lemma PagesHaveSchemes(address: string)
    ensures PageToEndpoint(address).Some? <==> WireScheme(address).Some?
  {
    if WireScheme(address).Some? {
      var wire := WireScheme(address).value;
      assert wire[0] == 'w';
      assert Before(wire, '?')[0] == 'w';
    }
  }

  lemma {:induction false} TrimmingStopsAtText(front: string, s: string)
    requires TrimSlashes(s) != ""
    ensures TrimSlashes(front + s) == front + TrimSlashes(s)
    decreases |s|
  {
    assert (front + s)[|front + s| - 1] == s[|s| - 1];
    if s[|s| - 1] == '/' {
      assert (front + s)[..|front + s| - 1] == front + s[..|s| - 1];
      TrimmingStopsAtText(front, s[..|s| - 1]);
    }
  }

  /** A page link reads exactly as the connection link it stands for. */
  lemma APageLinkIsItsConnection(host: string, query: string, fragment: string)
    requires '?' !in host && '#' !in host && '#' !in query && TrimSlashes(host) != ""
    ensures Parse("https://" + host + "?" + query + "#" + fragment)
         == Parse("wss://" + TrimSlashes(host) + ENDPOINT_PATH + "?" + query + "#" + fragment)
  {
    hide TrimSlashes, PageToEndpoint, Parse;
    var address := "https://" + host + "?" + query;
    var url := "wss://" + TrimSlashes(host) + ENDPOINT_PATH + "?" + query;
    PageResolves(host, query);
    TrimmingKeeps(host, '#');
    assert '#' !in address && '#' !in url;
    PagesHaveSchemes(url);
    assert url[0] == 'w' && WireScheme(url).None?;
    ResolvedReadsAlike(address, url, fragment);
    assert "https://" + host + "?" + query + "#" + fragment == address + "#" + fragment;
  }

  lemma ResolvedReadsAlike(address: string, url: string, fragment: string)
    requires '#' !in address && '#' !in url && PageToEndpoint(address) == Some(url) && PageToEndpoint(url).None?
    ensures Parse(address + "#" + fragment) == Parse(url + "#" + fragment)
  {
    hide ParseSessionUrl, FragmentKeys, PageToEndpoint, ParseJoinQuery, Before;
    LinkSplits(address, fragment);
    LinkSplits(url, fragment);
    assert address + "#" + fragment == address + ['#'] + fragment && url + "#" + fragment == url + ['#'] + fragment;
  }

  lemma SecurePageScheme(rest: string)
    ensures WireScheme("https://" + rest) == Some("wss://" + rest)
  {
    var address := "https://" + rest;
    assert "http://"[4] == ':' && address[4] == 's';
    assert address[8..] == rest;
  }

  lemma PageResolves(host: string, query: string)
    requires '?' !in host && TrimSlashes(host) != ""
    ensures PageToEndpoint("https://" + host + "?" + query)
         == Some("wss://" + TrimSlashes(host) + ENDPOINT_PATH + "?" + query)
  {
    hide TrimSlashes, EndpointOn, WireScheme;
    SecurePageScheme(host + (['?'] + query));
    Grouped("https://", host, query);
    TrimmingStopsAtText("//", host);
    EndpointResolves("//" + host, query);
    assert "wss:" + ("//" + host) == "wss://" + host && "wss:" + ("//" + TrimSlashes(host)) == "wss://" + TrimSlashes(host);
    Grouped("wss://", host, query);
    Grouped("wss://" + TrimSlashes(host), ENDPOINT_PATH, query);
  }

  lemma Grouped(a: string, b: string, query: string)
    ensures a + (b + (['?'] + query)) == a + b + ['?'] + query == a + b + "?" + query == a + b + (['?'] + query)
  {
  }

  lemma EndpointResolves(path: string, query: string)
    requires '?' !in path && path != "" && path[0] == '/'
    ensures EndpointOn("wss:" + path + ['?'] + query) == Some("wss:" + TrimSlashes(path) + ENDPOINT_PATH + (['?'] + query))
  {
    hide TrimSlashes, Before;
    var front := "wss:" + path;
    var wire := front + ['?'] + query;
    BeforeAt(front, '?', query);
    PathIs(path);
    assert '?' in wire && wire[|front|..] == ['?'] + query;
  }

  lemma PathIs(path: string)
    requires path != "" && path[0] == '/'
    ensures Before("wss:" + path, '/') == "wss:" && ("wss:" + path)[4..] == path
  {
    hide Before;
    assert "wss:" + path == "wss:" + ['/'] + path[1..];
    BeforeAt("wss:", '/', path[1..]);
  }

  lemma AFragmentInTheBaseIsLost(base: string, room: string, token: string, roomKey: Key, hostKey: Key)
    requires IsBytes(room) && IsBytes(token) && '#' in base
    ensures !ReadsBack(base, room, token, roomKey, hostKey)
  {
    hide SessionUrl, ParseSessionUrl, PageToEndpoint, Fragment, FragmentKeys;
    var link := Printed(base, room, token, roomKey, hostKey);
    var address := Before(link, '#');
    if PageToEndpoint(address).Some? {
      PageAddressStarts(address);
    }
    var url := WireAddress(link);
    assert '#' !in url;
    if ParseSessionUrl(url).Some? {
      ReadBaseStarts(url);
    }
  }

  // --- what a host prints from --------------------------------------------------------------------

  /** The base of the server a host is told to use. */
  function SessionBase(url: string): Option<string> {
    var address := Before(url, '?');
    if '#' in address then None
    else
      var stripped := StripSuffix(address, ENDPOINT_PATH);
      var base := if stripped.Some? then stripped.value else address;
      if base == "" then None else Some(base)
  }

  /** Of the four ways a base can spoil its link, a host's own reading of its server rules out two. */
  lemma AHostsLinkReadsBack(server: string, room: string, token: string, roomKey: Key, hostKey: Key)
    requires SessionBase(server).Some?
    requires IsBytes(room) && IsBytes(token) && |roomKey| == KEY_BYTES && |hostKey| == KEY_BYTES
    ensures var base := SessionBase(server).value;
            ReadsBack(base, room, token, roomKey, hostKey) <==>
              base[|base| - 1] != '/' && !("http://" <= base) && !("https://" <= base)
  {
    hide ReadsBack;
    InviteRoundTrips(SessionBase(server).value, room, token, roomKey, hostKey);
  }
}
