/** Bytes, C strings and the little- and big-endian integers of the two wire formats. */
module Bytes {
  type byte = x: int | 0 <= x < 256

  const INT_MAX: int := 0x7fff_ffff

  const DOT: byte := 46
  const SLASH: byte := 47
  const COLON: byte := 58

  predicate IsDigit(ch: byte) { 48 <= ch <= 57 }

  function Zeroes(n: nat): (s: seq<byte>)
    ensures |s| == n && forall i :: 0 <= i < n ==> s[i] == 0
  {
    if n == 0 then [] else [0] + Zeroes(n - 1)
  }

  /** A C string: no terminator inside. */
  predicate NoNul(s: seq<byte>) {
    forall i :: 0 <= i < |s| ==> s[i] != 0
  }

  /** The number of bytes before the first terminator at or after `pos`. */
  function StrLen(data: seq<byte>, pos: nat): nat
    decreases |data| - pos
  {
    if pos >= |data| || data[pos] == 0 then 0 else 1 + StrLen(data, pos + 1)
  }

  lemma {:induction false} StrLenAt(data: seq<byte>, pos: nat, s: seq<byte>)
    requires NoNul(s)
    requires pos + |s| < |data| && data[pos..pos + |s|] == s && data[pos + |s|] == 0
    ensures StrLen(data, pos) == |s|
    decreases |s|
  {
    if s != [] {
      assert data[pos] == data[pos..pos + |s|][0];
      assert data[pos + 1..pos + 1 + |s[1..]|] == data[pos..pos + |s|][1..];
      StrLenAt(data, pos + 1, s[1..]);
    }
  }

  lemma {:induction false} StrLenBound(data: seq<byte>, pos: nat)
    requires pos <= |data|
    ensures pos + StrLen(data, pos) <= |data|
    ensures NoNul(data[pos..pos + StrLen(data, pos)])
    ensures pos + StrLen(data, pos) < |data| ==> data[pos + StrLen(data, pos)] == 0
    decreases |data| - pos
  {
    if pos < |data| && data[pos] != 0 {
      StrLenBound(data, pos + 1);
      var n := StrLen(data, pos);
      assert data[pos..pos + n] == [data[pos]] + data[pos + 1..pos + n];
    }
  }

  /** Little-endian 32-bit encoding, as bson_little_endian32 writes an int. */
  function LE32(n: nat): (s: seq<byte>)
    ensures |s| == 4
  {
    [n % 256, n / 256 % 256, n / 0x1_0000 % 256, n / 0x100_0000 % 256]
  }

  /** The unsigned value of the four bytes at `pos`. */
  function U32(data: seq<byte>, pos: nat): nat
    requires pos + 4 <= |data|
  {
    var b0: int, b1: int, b2: int, b3: int := data[pos], data[pos + 1], data[pos + 2], data[pos + 3];
    b0 + 256 * b1 + 0x1_0000 * b2 + 0x100_0000 * b3
  }

  /** The same bytes read as a C int. */
  function Int32(data: seq<byte>, pos: nat): int
    requires pos + 4 <= |data|
  {
    var u := U32(data, pos);
    if u <= INT_MAX then u else u - 0x1_0000_0000
  }

  lemma LE32RoundTrip(n: nat)
    requires n <= INT_MAX
    ensures U32(LE32(n), 0) == n && Int32(LE32(n), 0) == n
  {
    Quotients(n);
    var a := n / 256;
    var b := a / 256;
    var c := b / 256;
    assert n == 256 * a + n % 256 && a == 256 * b + a % 256 && b == 256 * c + b % 256 && c < 256;
  }

  lemma Quotients(n: nat)
    ensures n / 0x1_0000 == n / 256 / 256 && n / 0x100_0000 == n / 256 / 256 / 256
  {
  }

  lemma LE32OfU32(s: seq<byte>)
    requires |s| == 4
    ensures U32(s, 0) <= 0xffff_ffff && LE32(U32(s, 0)) == s
  {
    var b0: int, b1: int, b2: int, b3: int := s[0], s[1], s[2], s[3];
    var n := U32(s, 0);
    assert n / 256 == b1 + 256 * b2 + 0x1_0000 * b3;
    assert n / 0x1_0000 == b2 + 256 * b3;
    assert n / 0x100_0000 == b3;
  }

  /** In a document the low byte of a number comes first. */
  lemma LE32OnTheWire(n: nat)
    requires n < 0x1_0000_0000
    ensures var s := LE32(n);
            s[0] as int + 256 * s[1] as int + 256 * 256 * s[2] as int + 256 * 256 * 256 * s[3] as int == n
  {
    Quotients(n);
    var a := n / 256;
    var b := a / 256;
    var c := b / 256;
    assert n == 256 * a + n % 256 && a == 256 * b + a % 256 && b == 256 * c + b % 256 && c < 256;
  }

  /** The integer only depends on the four bytes it reads. */
  lemma Int32At(data: seq<byte>, pos: nat, n: nat)
    requires n <= INT_MAX
    requires pos + 4 <= |data| && data[pos..pos + 4] == LE32(n)
    ensures Int32(data, pos) == n
  {
    LE32RoundTrip(n);
    var w := data[pos..pos + 4];
    assert data[pos] == w[0] && data[pos + 1] == w[1] && data[pos + 2] == w[2] && data[pos + 3] == w[3];
  }

  /** Big-endian 16-bit encoding, the length prefix of a frame. */
  function BE16(n: nat): (s: seq<byte>)
    ensures |s| == 2
  {
    [n / 256 % 256, n % 256]
  }

  function FromBE16(hi: byte, lo: byte): nat {
    var h: int := hi;
    h * 256 + lo
  }

  lemma BE16RoundTrip(n: nat)
    requires n < 0x1_0000
    ensures FromBE16(BE16(n)[0], BE16(n)[1]) == n
  {
  }

  /** A payload behind its length, as both framings of the core send it. */
  function Frame(payload: seq<byte>): seq<byte> { BE16(|payload|) + payload }

  /** On the wire the high byte of the length comes first. */
  lemma FrameOnTheWire(p: seq<byte>)
    requires |p| < 0x1_0000
    ensures var f := Frame(p); |f| == |p| + 2 && f[0] as int * 256 + f[1] as int == |p| && f[2..] == p
  {
  }

  function EncodeFrames(ps: seq<seq<byte>>): seq<byte> {
    if ps == [] then [] else Frame(ps[0]) + EncodeFrames(ps[1..])
  }

  function Flatten(pieces: seq<seq<byte>>): seq<byte> {
    if pieces == [] then [] else pieces[0] + Flatten(pieces[1..])
  }

  lemma AssocConcat(a: seq<byte>, b: seq<byte>, c: seq<byte>)
    ensures (a + b) + c == a + (b + c)
  {
  }
}
