/** The per-direction AES-GCM nonce counter of src/wish_connection.c, on a little-endian machine. */
module Nonce {
  import opened Bytes

  const TWO32: nat := 0x1_0000_0000
  const TWO64: nat := 0x1_0000_0000_0000_0000
  const IV_LEN: nat := 12

  type Iv12 = s: seq<byte> | |s| == 12 witness [0, 0, 0, 0, 0, 0, 0, 0, 0, 0, 0, 0]

  type u32 = x: int | 0 <= x < 0x1_0000_0000

  /** The value of an unsigned 32-bit expression. */
  function Truncate(x: nat): (r: u32)
    ensures x < TWO32 ==> r == x
  {
    x % TWO32
  }

  /** Four bytes read most significant first. */
  function BE32(s: seq<byte>): (n: u32)
    requires |s| == 4
  {
    var b0: int, b1: int, b2: int, b3: int := s[0], s[1], s[2], s[3];
    b0 * 0x100_0000 + b1 * 0x1_0000 + b2 * 0x100 + b3
  }

  /** The value of the first `i` bytes, most significant first. */
  function BEPrefix(s: seq<byte>, i: nat): nat
    requires i <= |s|
  {
    if i == 0 then 0 else BEPrefix(s, i - 1) * 0x100 + s[i - 1] as int
  }

  lemma BEPrefixes(s: seq<byte>)
    requires |s| == 4
    ensures BEPrefix(s, 4) == BE32(s)
    ensures forall i :: 0 <= i <= 3 ==> BEPrefix(s, i) < 0x100_0000
  {
    assert BEPrefix(s, 1) == s[0] as int;
    assert BEPrefix(s, 2) == s[0] as int * 0x100 + s[1] as int;
    assert BEPrefix(s, 3) == BEPrefix(s, 2) * 0x100 + s[2] as int;
    assert BEPrefix(s, 4) == BEPrefix(s, 3) * 0x100 + s[3] as int;
  }

  /** The loop of uint32_convert_be over the bytes of its argument, lowest address first. */
  method ShiftIn(bytes: seq<byte>) returns (result: u32)
    requires |bytes| == 4
    ensures result == BE32(bytes)
  {
    BEPrefixes(bytes);
    result := 0;
    var i := 0;
    while i < 4
      invariant 0 <= i <= 4 && result == BEPrefix(bytes, i)
    {
      assert result < 0x100_0000 && BEPrefix(bytes, i + 1) == result * 0x100 + bytes[i] as int;
      result := Truncate(result * 0x100);
      result := Truncate(result + bytes[i] as int);
      i := i + 1;
    }
  }

  /** uint32_convert_be */
  method ConvertBe(n: u32) returns (result: u32)
    ensures result == BE32(LE32(n))
  {
    result := ShiftIn(LE32(n));
  }

  /** Converting twice gives back the number. */
  lemma ConvertBeInvolutive(n: u32)
    ensures LE32(BE32(LE32(n))) == [LE32(n)[3], LE32(n)[2], LE32(n)[1], LE32(n)[0]]
    ensures BE32(LE32(BE32(LE32(n)))) == n
  {
    var s := LE32(n);
    var t := [s[3], s[2], s[1], s[0]];
    assert U32(t, 0) == BE32(s);
    LE32OfU32(t);
    var a, b, c := n / 256, n / 0x1_0000, n / 0x100_0000;
    assert a == 256 * b + a % 256 && b == 256 * c + b % 256 && n == 256 * a + n % 256;
    assert b == a / 256 && c == b / 256;
  }

  /** The counter in eight bytes. */
  function Counter(s: seq<byte>): (n: nat)
    requires |s| == 8
    ensures n < TWO64
  {
    BE32(s[..4]) * TWO32 + BE32(s[4..])
  }

  lemma BE32IsInjective(s: seq<byte>, t: seq<byte>)
    requires |s| == |t| == 4 && BE32(s) == BE32(t)
    ensures s == t
  {
    var s', t' := [s[3], s[2], s[1], s[0]], [t[3], t[2], t[1], t[0]];
    assert U32(s', 0) == BE32(s) && U32(t', 0) == BE32(t);
    LE32OfU32(s');
    LE32OfU32(t');
    assert s' == t';
  }

  lemma CounterIsInjective(s: seq<byte>, t: seq<byte>)
    requires |s| == |t| == 8 && Counter(s) == Counter(t)
    ensures s == t
  {
    BE32IsInjective(s[..4], t[..4]);
    BE32IsInjective(s[4..], t[4..]);
    assert s == s[..4] + s[4..] && t == t[..4] + t[4..];
  }

  /** The big-endian bytes of a counter value. */
  function BEBytes(n: u32): (s: seq<byte>)
    ensures |s| == 4 && BE32(s) == n
  {
    var s := LE32(n);
    var r := [s[3], s[2], s[1], s[0]];
    ConvertBeInvolutive(n);
    assert BE32(r) == n by { assert LE32(BE32(s)) == r; }
    r
  }

  /** One more, with the carry running from the last byte to the first. */
  function Next(s: seq<byte>): (t: seq<byte>)
    ensures |t| == |s|
  {
    if s == [] then []
    else
      var l := |s| - 1;
      if s[l] == 255 then Next(s[..l]) + [0] else s[..l] + [s[l] + 1]
  }

  function Value(s: seq<byte>): nat {
    if s == [] then 0 else Value(s[..|s| - 1]) * 0x100 + s[|s| - 1] as int
  }

  function Pow256(n: nat): nat { if n == 0 then 1 else 0x100 * Pow256(n - 1) }

  lemma {:induction false} NextAddsOne(s: seq<byte>)
    ensures Value(s) < Pow256(|s|)
    ensures Value(Next(s)) == if Value(s) + 1 == Pow256(|s|) then 0 else Value(s) + 1
  {
    if s != [] {
      var l := |s| - 1;
      NextAddsOne(s[..l]);
      assert Next(s)[..l] == if s[l] == 255 then Next(s[..l]) else s[..l];
    }
  }

  lemma ValueOfFour(s: seq<byte>)
    requires |s| == 4
    ensures Value(s) == BE32(s)
  {
    assert s[..3][..2] == s[..2] && s[..2][..1] == s[..1] && s[..1][..0] == [];
    assert Value(s[..1]) == s[0] as int;
    assert Value(s[..2]) == s[0] as int * 0x100 + s[1] as int;
    assert Value(s[..3]) == Value(s[..2]) * 0x100 + s[2] as int;
  }

  lemma {:induction false} ValueOfTwo(a: seq<byte>, b: seq<byte>)
    ensures Value(a + b) == Value(a) * Pow256(|b|) + Value(b)
    decreases |b|
  {
    if b == [] {
      assert a + b == a;
    } else {
      var l := |b| - 1;
      assert (a + b)[..|a + b| - 1] == a + b[..l];
      ValueOfTwo(a, b[..l]);
      ShiftByte(Value(a), Value(b[..l]), b[l] as int, Pow256(l));
    }
  }

  lemma ShiftByte(x: nat, y: nat, z: nat, p: nat)
    ensures (x * p + y) * 0x100 + z == x * (0x100 * p) + (y * 0x100 + z)
  {
  }

  lemma CounterIsValue(s: seq<byte>)
    requires |s| == 8
    ensures Counter(s) == Value(s) && Pow256(8) == TWO64
  {
    ValueOfFour(s[..4]);
    ValueOfFour(s[4..]);
    ValueOfTwo(s[..4], s[4..]);
    assert s == s[..4] + s[4..];
    assert Pow256(2) == 0x1_0000 && Pow256(4) == 0x1_0000_0000 && Pow256(6) == 0x1_0000_0000_0000;
  }

  lemma NextCounts(s: seq<byte>)
    requires |s| == 8
    ensures Counter(Next(s)) == (Counter(s) + 1) % TWO64
  {
    CounterIsValue(s);
    CounterIsValue(Next(s));
    NextAddsOne(s);
    WrapsAround(Value(s));
  }

  lemma WrapsAround(v: nat)
    requires v < TWO64
    ensures (v + 1) % TWO64 == if v + 1 == TWO64 then 0 else v + 1
  {
  }

  /** memcpy of four bytes into a native integer and conversion. */
  method Load(a: array<byte>, at: nat) returns (n: u32)
    requires at + 4 <= a.Length
    ensures n == BE32(a[at..at + 4])
  {
    var bytes := a[at..at + 4];
    LE32OfU32(bytes);
    n := ConvertBe(U32(bytes, 0));
  }

  /** Conversion and memcpy back. */
  method Store(a: array<byte>, at: nat, n: u32)
    requires at + 4 <= a.Length
    modifies a
    ensures a[at..at + 4] == BEBytes(n)
    ensures a[..at] == old(a[..at]) && a[at + 4..] == old(a[at + 4..])
  {
    var c := ConvertBe(n);
    ConvertBeInvolutive(n);
    var bytes := LE32(c);
    a[at], a[at + 1], a[at + 2], a[at + 3] := bytes[0], bytes[1], bytes[2], bytes[3];
  }

  /** The carry between the two halves. */
  lemma CarryIsRight(hi: u32, lo: u32)
    ensures var lo' := (lo + 1) % TWO32;
            (hi * TWO32 + lo + 1) % TWO64 == (if lo' == 0 then (hi + 1) % TWO32 else hi) * TWO32 + lo'
  {
    if lo + 1 == TWO32 && hi + 1 == TWO32 {
      assert hi * TWO32 + lo + 1 == TWO64;
    }
  }

  lemma NextByHalves(was: seq<byte>, now: seq<byte>)
    requires |was| == |now| == 8
    requires BE32(now[4..]) == (BE32(was[4..]) + 1) % TWO32
    requires BE32(now[..4]) == if BE32(now[4..]) == 0 then (BE32(was[..4]) + 1) % TWO32 else BE32(was[..4])
    ensures now == Next(was)
  {
    CarryIsRight(BE32(was[..4]), BE32(was[4..]));
    NextCounts(was);
    CounterIsInjective(now, Next(was));
  }

  /** update_nonce, on the last eight bytes of the IV. */
  method UpdateNonce(iv: array<byte>)
    requires iv.Length == IV_LEN
    modifies iv
    ensures iv[..] == NextIv(old(iv[..]))
  {
    ghost var was := iv[4..];
    assert was[..4] == iv[4..8] && was[4..] == iv[8..12];
    var nonce1 := Load(iv, 8);
    var nonce2 := Load(iv, 4);
    nonce1 := (nonce1 + 1) % TWO32;
    if nonce1 == 0 {
      nonce2 := (nonce2 + 1) % TWO32;
      Store(iv, 4, nonce2);
    }
    ghost var head, mid := iv[..4], iv[4..8];
    assert head == old(iv[..4]) && BE32(mid) == nonce2;
    Store(iv, 8, nonce1);
    assert iv[..8] == head + mid;
    ghost var low := iv[8..12];
    assert iv[..] == head + (mid + low);
    assert (mid + low)[..4] == mid && (mid + low)[4..] == low;
    NextByHalves(was, mid + low);
  }

  // Initialisation vectors ---------------------------------------------------------------

  /** One step of a whole IV: the first four bytes are fixed. */
  function NextIv(iv: Iv12): Iv12 {
    iv[..4] + Next(iv[4..])
  }

  /** The IV after `k` messages. */
  function Iv(iv: Iv12, k: nat): Iv12 {
    if k == 0 then iv else NextIv(Iv(iv, k - 1))
  }

  lemma {:induction false} IvAdds(iv: Iv12, a: nat, b: nat)
    ensures Iv(Iv(iv, a), b) == Iv(iv, a + b)
  {
    if b > 0 {
      IvAdds(iv, a, b - 1);
    }
  }

  lemma NextIvParts(iv: Iv12)
    ensures NextIv(iv)[..4] == iv[..4] && NextIv(iv)[4..] == Next(iv[4..])
  {
  }

  /** k messages add k to the counter, modulo 2^64; the first four bytes stay. */
  lemma {:induction false} IvCounts(iv: Iv12, k: nat)
    ensures Iv(iv, k)[..4] == iv[..4]
    ensures Counter(Iv(iv, k)[4..]) == (Counter(iv[4..]) + k) % TWO64
  {
    if k > 0 {
      IvCounts(iv, k - 1);
      NextIvParts(Iv(iv, k - 1));
      NextCounts(Iv(iv, k - 1)[4..]);
      CountStep(Counter(iv[4..]) + (k - 1));
    }
  }

  lemma CountStep(a: nat)
    ensures (a % TWO64 + 1) % TWO64 == (a + 1) % TWO64
  {
  }

  lemma CountersDiffer(a: nat, b: nat)
    requires a < b < a + TWO64
    ensures a % TWO64 != b % TWO64
  {
    var d := b / TWO64 - a / TWO64;
    assert b - a == TWO64 * d + (b % TWO64 - a % TWO64);
  }

  /** Fewer than 2^64 messages on one direction never use an IV twice. */
  lemma IvNeverRepeats(iv: Iv12, j: nat, k: nat)
    requires j < k && k - j < TWO64
    ensures Iv(iv, j) != Iv(iv, k)
  {
    IvCounts(iv, j);
    IvCounts(iv, k);
    CountersDiffer(Counter(iv[4..]) + j, Counter(iv[4..]) + k);
  }
}
