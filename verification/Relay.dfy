/** Relay servers: decimal numbers, "host:port" texts, and the list without duplicates
    (src/wish_utils.c, src/wish_relay_client.c). */
module Relay {
  import opened Basics
  import opened Bytes
  import opened Utf8

  const HOST_MAX: nat := 64
  /** "wish://" */
  const SCHEME: seq<byte> := [119, 105, 115, 104, 58, 47, 47]

  // Decimal numbers ------------------------------------------------------------------------------

  /** A number as %d prints it. */
  function Decimal(n: nat): (s: seq<byte>)
    ensures s != []
    decreases n
  {
    if n < 10 then [48 + n] else Decimal(n / 10) + [48 + n % 10]
  }

  function DigitValue(ch: byte): (d: nat)
    requires IsDigit(ch)
    ensures d < 10
  {
    ch - 48
  }

  function Digits(s: seq<byte>): (n: nat)
    requires AllDigits(s)
  {
    if s == [] then 0 else Digits(s[..|s| - 1]) * 10 + DigitValue(s[|s| - 1])
  }

  /** The value of the digits at the front. */
  function AtoiFrom(acc: nat, s: seq<byte>): nat
    decreases |s|
  {
    if s == [] || !IsDigit(s[0]) then acc else AtoiFrom(acc * 10 + DigitValue(s[0]), s[1..])
  }

  predicate IsSpace(ch: byte) { ch == 32 || 9 <= ch <= 13 }

  /** atoi: white space, a sign, digits. */
  function Atoi(s: seq<byte>): int
    decreases |s|
  {
    if s == [] then 0
    else if IsSpace(s[0]) then Atoi(s[1..])
    else if s[0] == 45 then 0 - AtoiFrom(0, s[1..]) as int
    else if s[0] == 43 then AtoiFrom(0, s[1..])
    else AtoiFrom(0, s)
  }

  predicate AllDigits(s: seq<byte>) { forall i :: 0 <= i < |s| ==> IsDigit(s[i]) }

  lemma {:induction false} DecimalIsDigits(n: nat)
    ensures AllDigits(Decimal(n)) && Digits(Decimal(n)) == n
    decreases n
  {
    if n >= 10 {
      DecimalIsDigits(n / 10);
      var s := Decimal(n);
      assert s[..|s| - 1] == Decimal(n / 10);
    } else {
      assert Decimal(n)[..0] == [];
    }
  }

  lemma {:induction false} AtoiOfDigits(acc: nat, a: seq<byte>, ch: byte)
    requires AllDigits(a) && IsDigit(ch)
    ensures AtoiFrom(acc, a + [ch]) == AtoiFrom(acc, a) * 10 + DigitValue(ch)
    decreases |a|
  {
    if a == [] {
      assert a + [ch] == [ch] && [ch][1..] == [];
    } else {
      assert (a + [ch])[1..] == a[1..] + [ch];
      AtoiOfDigits(acc * 10 + DigitValue(a[0]), a[1..], ch);
    }
  }

  lemma {:induction false} AtoiIsDigits(s: seq<byte>)
    requires AllDigits(s)
    ensures AtoiFrom(0, s) == Digits(s)
    decreases |s|
  {
    if s != [] {
      var front, ch := s[..|s| - 1], s[|s| - 1];
      assert s == front + [ch];
      AtoiIsDigits(front);
      AtoiOfDigits(0, front, ch);
    }
  }

  /** Printing a number and reading it with atoi gives the number back. */
  lemma DecimalRoundTrip(n: nat)
    ensures Atoi(Decimal(n)) == n
  {
    DecimalIsDigits(n);
    AtoiIsDigits(Decimal(n));
    assert IsDigit(Decimal(n)[0]);
  }

  /** Different numbers have different texts. */
  lemma DecimalIsInjective(m: nat, n: nat)
    requires Decimal(m) == Decimal(n)
    ensures m == n
  {
    DecimalRoundTrip(m);
    DecimalRoundTrip(n);
  }

  // host:port ---------------------------------------------------------------------------------------

  datatype Server = Server(host: seq<byte>, port: nat)

  predicate Without(s: seq<byte>, ch: byte) { forall i :: 0 <= i < |s| ==> s[i] != ch }

  /** strrchr among the first n bytes, as an index. */
  function LastBefore(s: seq<byte>, ch: byte, n: nat): (r: Option<nat>)
    requires n <= |s|
    ensures match r
            case None => forall k :: 0 <= k < n ==> s[k] != ch
            case Some(i) => i < n && s[i] == ch && forall k :: i < k < n ==> s[k] != ch
  {
    if n == 0 then None else if s[n - 1] == ch then Some(n - 1) else LastBefore(s, ch, n - 1)
  }

  function LastIndex(s: seq<byte>, ch: byte): (r: Option<nat>)
    ensures match r
            case None => forall k :: 0 <= k < |s| ==> s[k] != ch
            case Some(i) => i < |s| && s[i] == ch && forall k :: i < k < |s| ==> s[k] != ch
  {
    LastBefore(s, ch, |s|)
  }

  /** Where the host begins: behind the last slash. */
  function HostStart(url: seq<byte>): (i: nat)
    ensures i <= |url|
    ensures forall k :: i <= k < |url| ==> url[k] != SLASH
    ensures i > 0 ==> url[i - 1] == SLASH
  {
    match LastIndex(url, SLASH) case None => 0 case Some(i) => i + 1
  }

  /** wish_parse_transport_port */
  function ParsePort(url: seq<byte>): (r: Option<nat>)
    ensures r.Some? ==> 1 <= r.value < 0x1_0000
  {
    match LastIndex(url, COLON)
    case None => None
    case Some(c) => var port := Atoi(url[c + 1..]) % 0x1_0000; if port == 0 then None else Some(port)
  }

  /** What the parser relies on: no slash behind the last colon. */
  predicate IsTransport(url: seq<byte>) {
    NoNul(url) && match LastIndex(url, COLON) case None => true case Some(c) => HostStart(url) <= c
  }

  /** wish_parse_transport_host_port */
  function ParseHostPort(url: seq<byte>): (r: Option<Server>)
    requires IsTransport(url)
    ensures r.Some? ==> 1 <= r.value.port < 0x1_0000 && |r.value.host| < |url|
    ensures r.Some? ==> NoNul(r.value.host) && Without(r.value.host, SLASH)
  {
    match LastIndex(url, COLON)
    case None => None
    case Some(c) =>
      var start := HostStart(url);
      match ParsePort(url)
      case None => None
      case Some(port) => Some(Server(url[start..c], port))
  }

  /** Exactly which texts are parsed, and to what: the part between the last slash, if there is one, and the last
      colon, and a number behind it that is not zero in 16 bits. */
  lemma ParsedIff(url: seq<byte>, s: Server)
    requires IsTransport(url)
    ensures ParseHostPort(url) == Some(s) <==>
            exists start: nat, c: nat ::
              && Split(url, start, c) && s.port != 0
              && s == Server(url[start..c], Atoi(url[c + 1..]) % 0x1_0000)
  {
    if ParseHostPort(url) == Some(s) {
      var c := LastIndex(url, COLON).value;
      assert Split(url, HostStart(url), c);
    }
    forall start: nat, c: nat | Split(url, start, c)
      ensures HostStart(url) == start && LastIndex(url, COLON) == Some(c)
    {
      HostStartIs(url, start);
      LastIndexIs(url, COLON, c);
    }
  }

  /** The host is from `start` to `c`. */
  predicate Split(url: seq<byte>, start: nat, c: nat) {
    && start <= c < |url| && url[c] == COLON && (start == 0 || url[start - 1] == SLASH)
    && (forall k :: c < k < |url| ==> url[k] != COLON) && (forall k :: start <= k < |url| ==> url[k] != SLASH)
  }

  /** What atoi reads: white space, one sign, digits, and nothing behind them. */
  lemma {:induction false} AtoiMeans(space: seq<byte>, sign: seq<byte>, ds: seq<byte>, rest: seq<byte>)
    requires forall i :: 0 <= i < |space| ==> IsSpace(space[i])
    requires sign == [] || sign == [43] || sign == [45]
    requires AllDigits(ds) && (rest == [] || !IsDigit(rest[0]))
    requires sign == [] && ds == [] ==> rest == [] || (!IsSpace(rest[0]) && rest[0] != 43 && rest[0] != 45)
    ensures Atoi(space + (sign + (ds + rest))) == (if sign == [45] then -1 else 1) * Digits(ds)
    decreases |space|
  {
    var body := sign + (ds + rest);
    if space == [] {
      assert space + body == body;
      AtoiStops(0, ds, rest);
      AtoiIsDigits(ds);
      if sign != [] {
        assert body[0] == sign[0] && body[1..] == ds + rest;
      } else {
        assert body == ds + rest;
      }
    } else {
      assert (space + body)[0] == space[0] && (space + body)[1..] == space[1..] + body;
      AtoiMeans(space[1..], sign, ds, rest);
    }
  }

  lemma {:induction false} AtoiStops(acc: nat, ds: seq<byte>, rest: seq<byte>)
    requires AllDigits(ds) && (rest == [] || !IsDigit(rest[0]))
    ensures AtoiFrom(acc, ds + rest) == AtoiFrom(acc, ds)
    decreases |ds|
  {
    if ds == [] {
      assert ds + rest == rest;
    } else {
      assert (ds + rest)[1..] == ds[1..] + rest;
      AtoiStops(acc * 10 + DigitValue(ds[0]), ds[1..], rest);
    }
  }

  /** The text in the configuration. */
  function Print(s: Server): seq<byte> { s.host + [COLON] + Decimal(s.port) }

  /** wish_relay_encode_as_url */
  function EncodeAsUrl(s: Server): seq<byte> { SCHEME + Print(s) }

  predicate IsServer(s: Server) { NoNul(s.host) && Without(s.host, SLASH) && 1 <= s.port < 0x1_0000 }

  lemma DigitsAreNeither(n: nat)
    ensures Without(Decimal(n), COLON) && Without(Decimal(n), SLASH) && NoNul(Decimal(n))
  {
    DecimalIsDigits(n);
  }

  /** Where the last colon and the last slash are. */
  lemma Marks(prefix: seq<byte>, host: seq<byte>, d: seq<byte>)
    requires Without(host, SLASH) && Without(d, SLASH) && Without(d, COLON)
    requires prefix == [] || prefix[|prefix| - 1] == SLASH
    ensures var url, c := prefix + (host + [COLON] + d), |prefix| + |host|;
            && LastIndex(url, COLON) == Some(c) && HostStart(url) == |prefix|
            && url[c + 1..] == d && url[|prefix|..c] == host
  {
    var url, c, start := prefix + (host + [COLON] + d), |prefix| + |host|, |prefix|;
    assert url[c] == COLON && forall k :: c < k < |url| ==> url[k] == d[k - c - 1];
    assert forall k :: start <= k < c ==> url[k] == host[k - start];
    LastIndexIs(url, COLON, c);
    assert url[c + 1..] == d && url[start..c] == host;
    HostStartIs(url, start);
  }

  lemma LastIndexIs(s: seq<byte>, ch: byte, i: nat)
    requires i < |s| && s[i] == ch && forall k :: i < k < |s| ==> s[k] != ch
    ensures LastIndex(s, ch) == Some(i)
  {
  }

  lemma HostStartIs(url: seq<byte>, start: nat)
    requires start <= |url| && (forall k :: start <= k < |url| ==> url[k] != SLASH) &&
             (start > 0 ==> url[start - 1] == SLASH)
    ensures HostStart(url) == start
  {
    if start > 0 {
      LastIndexIs(url, SLASH, start - 1);
    }
  }

  lemma NoNulTogether(a: seq<byte>, b: seq<byte>)
    requires NoNul(a) && NoNul(b)
    ensures NoNul(a + b)
  {
  }

  /** A printed server behind any prefix that ends with a slash, or behind none, is read as itself. */
  lemma PrintedIsParsed(prefix: seq<byte>, s: Server)
    requires IsServer(s) && NoNul(prefix) && (prefix == [] || prefix[|prefix| - 1] == SLASH)
    ensures IsTransport(prefix + Print(s)) && ParseHostPort(prefix + Print(s)) == Some(s)
  {
    var d := Decimal(s.port);
    DigitsAreNeither(s.port);
    DecimalRoundTrip(s.port);
    NoNulTogether(s.host, [COLON]);
    NoNulTogether(s.host + [COLON], d);
    NoNulTogether(prefix, s.host + [COLON] + d);
    Marks(prefix, s.host, d);
  }

  /** The text of the configuration and the URL both give the server back. */
  lemma ServerRoundTrip(s: Server)
    requires IsServer(s)
    ensures IsTransport(Print(s)) && ParseHostPort(Print(s)) == Some(s)
    ensures IsTransport(EncodeAsUrl(s)) && ParseHostPort(EncodeAsUrl(s)) == Some(s)
  {
    PrintedIsParsed([], s);
    assert [] + Print(s) == Print(s);
    PrintedIsParsed(SCHEME, s);
  }

  // The list ------------------------------------------------------------------------------------------

  predicate NoDuplicates(rs: seq<Server>) { forall i, j :: 0 <= i < j < |rs| ==> rs[i] != rs[j] }

  function Added(rs: seq<Server>, url: seq<byte>): seq<Server>
    requires IsTransport(url)
  {
    match ParseHostPort(url)
    case None => rs
    case Some(s) => if s in rs then rs else rs + [s]
  }

  class RelayDb {
    var relays: seq<Server>

    constructor ()
      ensures relays == []
    {
      relays := [];
    }

    /** wish_relay_client_add */
    method Add(url: seq<byte>)
      requires IsTransport(url) && |url| < HOST_MAX
      modifies this
      ensures relays == Added(old(relays), url)
    {
      var relay := ParseHostPort(url);
      if relay.None? {
        return;
      }
      var found, i := false, 0;
      while i < |relays|
        invariant i <= |relays| && found == (relay.value in relays[..i])
      {
        if relays[i].host == relay.value.host && relays[i].port == relay.value.port {
          found := true;
          break;
        }
        i := i + 1;
      }
      if !found {
        assert relays[..|relays|] == relays;
        relays := relays + [relay.value];
      }
    }
  }

  /** A text adds exactly the server it is parsed to, behind the others, if that is not there yet. */
  lemma AddMeans(rs: seq<Server>, url: seq<byte>)
    requires IsTransport(url)
    ensures var r, s := Added(rs, url), ParseHostPort(url);
            && (s.None? ==> r == rs)
            && (s.Some? && s.value in rs ==> r == rs)
            && (s.Some? && s.value !in rs ==> r == rs + [s.value])
  {
  }

  /** The list never holds a server twice. */
  lemma AddKeepsNoDuplicates(rs: seq<Server>, url: seq<byte>)
    requires NoDuplicates(rs) && IsTransport(url)
    ensures NoDuplicates(Added(rs, url))
  {
  }

  function AddedAll(rs: seq<Server>, urls: seq<seq<byte>>): seq<Server>
    requires forall i :: 0 <= i < |urls| ==> IsTransport(urls[i])
    decreases |urls|
  {
    if urls == [] then rs else AddedAll(Added(rs, urls[0]), urls[1..])
  }

  /** Whatever is added, in whatever order, the list never holds a server twice. */
  lemma {:induction false} ListHasNoDuplicates(rs: seq<Server>, urls: seq<seq<byte>>)
    requires NoDuplicates(rs) && forall i :: 0 <= i < |urls| ==> IsTransport(urls[i])
    ensures NoDuplicates(AddedAll(rs, urls))
    decreases |urls|
  {
    if urls != [] {
      AddKeepsNoDuplicates(rs, urls[0]);
      ListHasNoDuplicates(Added(rs, urls[0]), urls[1..]);
    }
  }
}
