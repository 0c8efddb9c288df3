/** The parsers of IP addresses in port/win32/helper.c. */
module Inet {
  import opened Basics
  import opened Bytes

  const ADDR_LEN: nat := 16

  function Lower(ch: byte): byte { if 65 <= ch <= 90 then ch + 32 else ch }

  predicate IsHex(ch: byte) { IsDigit(ch) || 97 <= Lower(ch) <= 102 }

  function HexDigit(ch: byte): (d: nat)
    requires IsHex(ch)
    ensures d < 16
  {
    if IsDigit(ch) then ch - 48 else Lower(ch) - 87
  }

  // IPv4 -----------------------------------------------------------------------------------------

  /** The octets that are complete, the current one, and whether it has a digit. */
  function Parse4(done: seq<byte>, cur: byte, saw: bool, src: seq<byte>): Option<seq<byte>>
    decreases |src|
  {
    if src == [] then (if |done| == 3 && saw then Some(done + [cur]) else None)
    else
      var ch := src[0];
      if IsDigit(ch) then
        var n: int := cur as int * 10 + (ch as int - 48);
        if (saw && cur == 0) || n > 255 then None else Parse4(done, n, true, src[1..])
      else if ch == DOT && saw && |done| < 3 then Parse4(done + [cur], 0, false, src[1..])
      else None
  }

  /** inet_pton4, on a string without its terminator. */
  method Pton4(src: seq<byte>) returns (dst: Option<seq<byte>>)
    ensures dst == Parse4([], 0, false, src)
    ensures dst.Some? ==> |dst.value| == 4
  {
    var tmp := new byte[4](_ => 0);
    var tp, octets, saw, pos := 0, 0, false, 0;
    while pos < |src|
      invariant pos <= |src| && tp < 4 && octets == tp + (if saw then 1 else 0)
      invariant Parse4([], 0, false, src) == Parse4(tmp[..tp], tmp[tp], saw, src[pos..])
    {
      var ch := src[pos];
      assert src[pos..][0] == ch && src[pos..][1..] == src[pos + 1..];
      pos := pos + 1;
      if IsDigit(ch) {
        var n: int := tmp[tp] as int * 10 + (ch as int - 48);
        if saw && tmp[tp] == 0 {
          return None;
        }
        if n > 255 {
          return None;
        }
        tmp[tp] := n;
        if !saw {
          octets := octets + 1;
          saw := true;
        }
      } else if ch == DOT && saw {
        if octets == 4 {
          return None;
        }
        assert tmp[..tp + 1] == tmp[..tp] + [tmp[tp]];
        tp := tp + 1;
        tmp[tp] := 0;
        saw := false;
      } else {
        return None;
      }
    }
    if octets < 4 {
      return None;
    }
    assert tmp[..] == tmp[..3] + [tmp[3]];
    dst := Some(tmp[..]);
  }

  // Texts of IPv4 addresses ---------------------------------------------------------------------------

  /** An octet in decimal, without leading zeroes. */
  function OctetText(n: byte): (t: seq<byte>)
    ensures 1 <= |t| <= 3 && forall i :: 0 <= i < |t| ==> IsDigit(t[i])
  {
    var v: int := n as int;
    if v < 10 then [48 + v]
    else if v < 100 then [48 + v / 10, 48 + v % 10]
    else [48 + v / 100, 48 + v / 10 % 10, 48 + v % 10]
  }

  /** Octets with a dot behind each, and an address: four octets with dots between them. */
  function Dots(b: seq<byte>): seq<byte> { if b == [] then [] else Dots(b[..|b| - 1]) + OctetText(b[|b| - 1]) + [DOT] }

  function Dotted(b: seq<byte>): seq<byte>
    requires |b| == 4
  {
    Dots(b[..3]) + OctetText(b[3])
  }

  lemma OctetGrows(cur: byte, ch: byte)
    requires IsDigit(ch) && cur != 0 && cur as int * 10 + (ch as int - 48) <= 255
    ensures OctetText(cur as int * 10 + (ch as int - 48)) == OctetText(cur) + [ch]
  {
    var v, d: int := cur as int, ch as int - 48;
    assert (v * 10 + d) / 10 == v && (v * 10 + d) % 10 == d && (v * 10 + d) / 100 == v / 10;
  }

  /** What has been read so far. */
  function Read4(done: seq<byte>, cur: byte, saw: bool): seq<byte> {
    Dots(done) + if saw then OctetText(cur) else []
  }

  lemma Read4Grows(done: seq<byte>, cur: byte, saw: bool, ch: byte, src: seq<byte>)
    ensures IsDigit(ch) && !(saw && cur == 0) && (!saw ==> cur == 0) && cur as int * 10 + (ch as int - 48) <= 255 ==>
              Read4(done, cur as int * 10 + (ch as int - 48), true) + src == Read4(done, cur, saw) + ([ch] + src)
    ensures ch == DOT && saw ==> Read4(done + [cur], 0, false) + src == Read4(done, cur, saw) + ([ch] + src)
  {
    if IsDigit(ch) && saw && cur != 0 && cur as int * 10 + (ch as int - 48) <= 255 {
      OctetGrows(cur, ch);
    }
    if ch == DOT && saw {
      assert (done + [cur])[..|done|] == done;
    }
  }

  /** Whatever is accepted is the decimal text of the result. */
  lemma {:induction false} Parse4IsDotted(done: seq<byte>, cur: byte, saw: bool, src: seq<byte>)
    requires |done| <= 3 && (!saw ==> cur == 0)
    ensures var r := Parse4(done, cur, saw, src);
            r.Some? ==> |r.value| == 4 && Read4(done, cur, saw) + src == Dotted(r.value)
    decreases |src|
  {
    if src == [] {
      assert (done + [cur])[..|done|] == done;
    } else if Parse4(done, cur, saw, src).Some? {
      var ch := src[0];
      Read4Grows(done, cur, saw, ch, src[1..]);
      assert src == [ch] + src[1..];
      if IsDigit(ch) {
        Parse4IsDotted(done, cur as int * 10 + (ch as int - 48), true, src[1..]);
      } else {
        Parse4IsDotted(done + [cur], 0, false, src[1..]);
      }
    }
  }

  lemma ReadDigit(done: seq<byte>, cur: byte, saw: bool, ch: byte, rest: seq<byte>)
    requires IsDigit(ch) && !(saw && cur == 0) && cur as int * 10 + (ch as int - 48) <= 255
    ensures Parse4(done, cur, saw, [ch] + rest) == Parse4(done, cur as int * 10 + (ch as int - 48), true, rest)
  {
    assert ([ch] + rest)[1..] == rest;
  }

  lemma ReadTwo(done: seq<byte>, x: byte, y: byte, rest: seq<byte>)
    requires 48 < x <= 57 && IsDigit(y)
    ensures Parse4(done, 0, false, [x, y] + rest) == Parse4(done, (x as int - 48) * 10 + (y as int - 48), true, rest)
  {
    assert [x, y] + rest == [x] + ([y] + rest);
    ReadDigit(done, 0, false, x, [y] + rest);
    ReadDigit(done, x as int - 48, true, y, rest);
  }

  lemma ReadThree(done: seq<byte>, x: byte, y: byte, z: byte, rest: seq<byte>)
    requires 48 < x <= 57 && IsDigit(y) && IsDigit(z)
    requires ((x as int - 48) * 10 + (y as int - 48)) * 10 + (z as int - 48) <= 255
    ensures Parse4(done, 0, false, [x, y, z] + rest) ==
            Parse4(done, ((x as int - 48) * 10 + (y as int - 48)) * 10 + (z as int - 48), true, rest)
  {
    assert [x, y, z] + rest == [x, y] + ([z] + rest);
    ReadTwo(done, x, y, [z] + rest);
    ReadDigit(done, (x as int - 48) * 10 + (y as int - 48), true, z, rest);
  }

  lemma ReadHundreds(done: seq<byte>, n: byte, rest: seq<byte>)
    requires n >= 100
    ensures Parse4(done, 0, false, OctetText(n) + rest) == Parse4(done, n, true, rest)
  {
    var v: int := n as int;
    var x, y, z := v / 100, v / 10 % 10, v % 10;
    assert 1 <= x <= 2 && 0 <= y < 10 && 0 <= z < 10 && (x * 10 + y) * 10 + z == v;
    ReadThree(done, 48 + x, 48 + y, 48 + z, rest);
  }

  lemma ReadOctet(done: seq<byte>, n: byte, rest: seq<byte>)
    ensures Parse4(done, 0, false, OctetText(n) + rest) == Parse4(done, n, true, rest)
  {
    var t := OctetText(n);
    if n < 10 {
      ReadDigit(done, 0, false, t[0], rest);
    } else if n < 100 {
      ReadTwo(done, t[0], t[1], rest);
    } else {
      ReadHundreds(done, n, rest);
    }
  }

  lemma {:induction false} ReadDots(b: seq<byte>, rest: seq<byte>)
    requires |b| <= 3
    ensures Parse4([], 0, false, Dots(b) + rest) == Parse4(b, 0, false, rest)
    decreases |b|
  {
    if b == [] {
      assert Dots(b) + rest == rest;
    } else {
      var front, n := b[..|b| - 1], b[|b| - 1];
      var tail := OctetText(n) + ([DOT] + rest);
      assert Dots(b) + rest == Dots(front) + tail;
      ReadDots(front, tail);
      ReadOctet(front, n, [DOT] + rest);
      assert ([DOT] + rest)[1..] == rest && front + [n] == b;
    }
  }

  /** The parser accepts exactly the decimal texts of addresses, and gives the address back. */
  lemma DottedIff(src: seq<byte>, b: seq<byte>)
    ensures Parse4([], 0, false, src) == Some(b) <==> |b| == 4 && src == Dotted(b)
  {
    Parse4IsDotted([], 0, false, src);
    assert Read4([], 0, false) + src == src;
    if |b| == 4 && src == Dotted(b) {
      ReadDots(b[..3], OctetText(b[3]));
      ReadOctet(b[..3], b[3], []);
      assert OctetText(b[3]) + [] == OctetText(b[3]) && b[..3] + [b[3]] == b;
    }
  }

  // IPv6 -----------------------------------------------------------------------------------------

  /** The bytes written so far, where "::" stood, and the group that is being read. */
  datatype Scan = Scan(out: seq<byte>, colon: Option<nat>, saw: bool, val: nat)

  predicate ScanOk(s: Scan) { |s.out| <= ADDR_LEN && s.val < 0x1_0000 && (s.colon.Some? ==> s.colon.value <= |s.out|) }

  function Group(val: nat): (g: seq<byte>)
    requires val < 0x1_0000
    ensures |g| == 2
  {
    [val / 256, val % 256]
  }

  /** The loop over the text. `tok` is where the current group began. */
  function Scanned(s: Scan, tok: seq<byte>, src: seq<byte>): (r: Option<Scan>)
    requires ScanOk(s)
    ensures r.Some? ==> ScanOk(r.value)
    decreases |src|
  {
    if src == [] then Some(s)
    else
      var ch, rest := Lower(src[0]), src[1..];
      if IsHex(ch) then
        var val := s.val * 16 + HexDigit(ch);
        if val > 0xffff then None else Scanned(s.(val := val, saw := true), tok, rest)
      else if ch == COLON then
        if !s.saw then
          if s.colon.Some? then None else Scanned(s.(colon := Some(|s.out|)), rest, rest)
        else if rest == [] || |s.out| + 2 > ADDR_LEN then None
        else Scanned(Scan(s.out + Group(s.val), s.colon, false, 0), rest, rest)
      else if ch == DOT && |s.out| + 4 <= ADDR_LEN then
        match Parse4([], 0, false, tok)
        case Some(b) => if |b| == 4 then Some(s.(out := s.out + b, saw := false)) else None
        case None => None
      else None
  }

  /** The last group, and the zeroes for which "::" stands. */
  function Filled(s: Scan): Option<seq<byte>>
    requires ScanOk(s)
  {
    if s.saw && |s.out| + 2 > ADDR_LEN then None
    else
      var out := if s.saw then s.out + Group(s.val) else s.out;
      match s.colon
      case None => if |out| == ADDR_LEN then Some(out) else None
      case Some(c) => if |out| == ADDR_LEN then None else Some(out[..c] + Zeroes(ADDR_LEN - |out|) + out[c..])
  }

  const START: Scan := Scan([], None, false, 0)

  function Parse6(text: seq<byte>): Option<seq<byte>> {
    var src := if text != [] && text[0] == COLON then text[1..] else text;
    if src != text && (src == [] || src[0] != COLON) then None
    else
      match Scanned(START, src, src)
      case None => None
      case Some(s) => Filled(s)
  }

  /** The array while the tail is shifted: `i` bytes have been moved to the end. */
  predicate Shifted(tmp: seq<byte>, out: seq<byte>, i: nat)
    requires i <= |out| <= ADDR_LEN
  {
    tmp == out[..|out| - i] + Zeroes(ADDR_LEN - |out|) + out[|out| - i..]
  }

  lemma ShiftStep(tmp: seq<byte>, out: seq<byte>, i: nat)
    requires i < |out| < ADDR_LEN && Shifted(tmp, out, i)
    ensures |tmp| == ADDR_LEN
    ensures Shifted(tmp[ADDR_LEN - i - 1 := tmp[|out| - i - 1]][|out| - i - 1 := 0], out, i + 1)
  {
    var a, b, z := |out| - i - 1, ADDR_LEN - i - 1, ADDR_LEN - |out|;
    var l := tmp[b := tmp[a]][a := 0];
    var r := out[..a] + Zeroes(z) + out[a..];
    assert tmp[a] == out[a];
    forall k | 0 <= k < ADDR_LEN ensures l[k] == r[k] {
      if k < a {
        assert tmp[k] == out[k] && r[k] == out[k];
      } else if k < b {
        assert r[k] == 0;
        assert k > a ==> tmp[k] == Zeroes(z)[k - a - 1];
      } else if k > b {
        assert r[k] == out[a..][k - b] && tmp[k] == out[a + 1..][k - b - 1];
      }
    }
    assert l == r;
  }

  /** The shift of the tail to the end of the array, byte by byte from the last. */
  method ShiftTail(tmp: array<byte>, tp: nat, colon: nat)
    requires tmp.Length == ADDR_LEN && colon <= tp < ADDR_LEN
    requires forall k :: tp <= k < ADDR_LEN ==> tmp[k] == 0
    modifies tmp
    ensures tmp[..] == old(tmp[..colon]) + Zeroes(ADDR_LEN - tp) + old(tmp[colon..tp])
  {
    ghost var out := tmp[..tp];
    ShiftBegins(tmp[..], tp);
    var n := tp - colon;
    var i := 1;
    while i <= n
      invariant 1 <= i <= n + 1
      invariant Shifted(tmp[..], out, i - 1)
    {
      ShiftByte(tmp, colon + n, i, out);
      i := i + 1;
    }
    TailOf(old(tmp[..]), tp, colon);
  }

  method ShiftByte(tmp: array<byte>, end: nat, i: nat, ghost out: seq<byte>)
    requires tmp.Length == ADDR_LEN && 1 <= i <= end == |out| < ADDR_LEN && Shifted(tmp[..], out, i - 1)
    modifies tmp
    ensures Shifted(tmp[..], out, i)
  {
    ghost var was := tmp[..];
    ShiftStep(was, out, i - 1);
    tmp[ADDR_LEN - i] := tmp[end - i];
    tmp[end - i] := 0;
    assert tmp[..] == was[ADDR_LEN - i := was[end - i]][end - i := 0];
  }

  lemma ShiftBegins(tmp: seq<byte>, tp: nat)
    requires |tmp| == ADDR_LEN && tp < ADDR_LEN && forall k :: tp <= k < ADDR_LEN ==> tmp[k] == 0
    ensures Shifted(tmp, tmp[..tp], 0)
  {
    assert tmp[tp..] == Zeroes(ADDR_LEN - tp);
    assert tmp[..tp][..tp] == tmp[..tp] && tmp[..tp][tp..] == [];
  }

  lemma TailOf(tmp: seq<byte>, tp: nat, colon: nat)
    requires colon <= tp <= |tmp|
    ensures |tmp[..tp]| - (tp - colon) == colon
    ensures tmp[..tp][..colon] == tmp[..colon] && tmp[..tp][colon..] == tmp[colon..tp]
  {
  }

  /** The bytes behind the cursor are the result so far, those before it are zero. */
  ghost predicate Written(tmp: array<byte>, tp: nat, out: seq<byte>)
    reads tmp
  {
    tmp.Length == ADDR_LEN && tp <= ADDR_LEN && tmp[..tp] == out && forall k :: tp <= k < ADDR_LEN ==> tmp[k] == 0
  }

  method PutGroup(tmp: array<byte>, tp: nat, val: nat, ghost out: seq<byte>) returns (tp': nat)
    requires Written(tmp, tp, out) && val < 0x1_0000 && tp + 2 <= ADDR_LEN
    modifies tmp
    ensures tp' == tp + 2 && Written(tmp, tp', out + Group(val))
  {
    tmp[tp] := val / 256 % 256;
    tmp[tp + 1] := val % 256;
    tp' := tp + 2;
    assert tmp[..tp'] == tmp[..tp] + [tmp[tp], tmp[tp + 1]];
  }

  method PutBytes(tmp: array<byte>, tp: nat, b: seq<byte>, ghost out: seq<byte>) returns (tp': nat)
    requires Written(tmp, tp, out) && |b| == 4 && tp + 4 <= ADDR_LEN
    modifies tmp
    ensures tp' == tp + 4 && Written(tmp, tp', out + b)
  {
    tmp[tp], tmp[tp + 1], tmp[tp + 2], tmp[tp + 3] := b[0], b[1], b[2], b[3];
    tp' := tp + 4;
    assert tmp[..tp'] == tmp[..tp] + b;
  }

  /** The loop of inet_pton6 over the text, on the array. */
  method ScanText(src: seq<byte>, tmp: array<byte>)
    returns (ok: bool, tp: nat, colonp: Option<nat>, saw: bool, val: nat)
    requires Written(tmp, 0, [])
    modifies tmp
    ensures ok <==> Scanned(START, src, src).Some?
    ensures ok ==>
              var s := Scanned(START, src, src).value;
              Written(tmp, tp, s.out) && colonp == s.colon && saw == s.saw && val == s.val
  {
    ghost var s := START;
    tp, colonp, saw, val := 0, None, false, 0;
    var pos, curtok := 0, src;
    assert src[0..] == src;
    while pos < |src|
      invariant pos <= |src| && ScanOk(s) && s == Scan(s.out, colonp, saw, val)
      invariant Written(tmp, tp, s.out)
      invariant Scanned(START, src, src) == Scanned(s, curtok, src[pos..])
    {
      var ch := Lower(src[pos]);
      assert src[pos..][0] == src[pos] && src[pos..][1..] == src[pos + 1..];
      pos := pos + 1;
      if IsHex(ch) {
        val := val * 16 + HexDigit(ch);
        if val > 0xffff {
          return false, tp, colonp, saw, val;
        }
        saw := true;
        s := s.(val := val, saw := true);
      } else if ch == COLON {
        curtok := src[pos..];
        if !saw {
          if colonp.Some? {
            return false, tp, colonp, saw, val;
          }
          colonp := Some(tp);
          s := s.(colon := colonp);
        } else if pos == |src| {
          return false, tp, colonp, saw, val;
        } else {
          if tp + 2 > ADDR_LEN {
            return false, tp, colonp, saw, val;
          }
          ghost var out := s.out + Group(val);
          tp := PutGroup(tmp, tp, val, s.out);
          saw, val := false, 0;
          s := Scan(out, colonp, false, 0);
        }
      } else {
        if ch == DOT && tp + 4 <= ADDR_LEN {
          var b := Pton4(curtok);
          if b.Some? {
            tp := PutBytes(tmp, tp, b.value, s.out);
            return true, tp, colonp, false, val;
          }
        }
        return false, tp, colonp, saw, val;
      }
    }
    ok := true;
  }

  /** The end of inet_pton6: the last group, and the shift behind "::". */
  method Fill(tmp: array<byte>, at: nat, colonp: Option<nat>, saw: bool, val: nat, ghost s: Scan)
    returns (dst: Option<seq<byte>>)
    requires ScanOk(s) && Written(tmp, at, s.out) && s == Scan(s.out, colonp, saw, val)
    modifies tmp
    ensures dst == Filled(s)
  {
    ghost var out := if saw && at + 2 <= ADDR_LEN then s.out + Group(val) else s.out;
    var tp := at;
    if saw {
      if tp + 2 > ADDR_LEN {
        return None;
      }
      tp := PutGroup(tmp, tp, val, s.out);
    }
    assert out == tmp[..tp];
    if colonp.Some? {
      var c := colonp.value;
      if tp == ADDR_LEN {
        return None;
      }
      assert out[..c] == tmp[..c] && out[c..] == tmp[c..tp];
      ShiftTail(tmp, tp, c);
      assert tmp[..] == out[..c] + Zeroes(ADDR_LEN - |out|) + out[c..];
      tp := ADDR_LEN;
    }
    if tp != ADDR_LEN {
      return None;
    }
    assert tmp[..ADDR_LEN] == tmp[..];
    dst := Some(tmp[..]);
  }

  /** inet_pton6, on a string without its terminator. */
  method Pton6(text: seq<byte>) returns (dst: Option<seq<byte>>)
    ensures dst == Parse6(text)
  {
    var tmp := new byte[ADDR_LEN](_ => 0);
    var src := text;
    if src != [] && src[0] == COLON {
      src := src[1..];
      assert |src| < |text|;
      if src == [] || src[0] != COLON {
        return None;
      }
    }
    var ok, tp, colonp, saw, val := ScanText(src, tmp);
    if !ok {
      return None;
    }
    dst := Fill(tmp, tp, colonp, saw, val, Scanned(START, src, src).value);
  }

  // Texts of addresses ------------------------------------------------------------------------------

  /** What counts as a hexadecimal digit, and its value. */
  lemma HexMeans(ch: byte)
    ensures IsHex(ch) <==> 48 <= ch <= 57 || 65 <= ch <= 70 || 97 <= ch <= 102
    ensures IsHex(ch) ==> HexDigit(ch) == ch as int - (if ch <= 57 then 48 else if ch <= 70 then 55 else 87)
  {
  }

  /** Hexadecimal digits, in either case, of a value of 16 bits. Any number of leading zeroes is allowed. */
  predicate IsWord(w: seq<byte>) {
    w != [] && (forall i :: 0 <= i < |w| ==> IsHex(w[i])) && WordValue(w) < 0x1_0000
  }

  predicate AreWords(ws: seq<seq<byte>>) { forall i :: 0 <= i < |ws| ==> IsWord(ws[i]) }

  function Pow16(n: nat): nat { if n == 0 then 1 else 16 * Pow16(n - 1) }

  function WordValue(w: seq<byte>): (v: nat)
    requires forall i :: 0 <= i < |w| ==> IsHex(w[i])
    ensures v < Pow16(|w|)
  {
    if w == [] then 0 else WordValue(w[..|w| - 1]) * 16 + HexDigit(w[|w| - 1])
  }

  /** Up to four digits always fit. */
  lemma WordFits(w: seq<byte>)
    requires 1 <= |w| <= 4 && forall i :: 0 <= i < |w| ==> IsHex(w[i])
    ensures IsWord(w)
  {
    assert Pow16(1) == 16 && Pow16(2) == 256 && Pow16(3) == 4096 && Pow16(4) == 0x1_0000;
  }

  function WordBytes(w: seq<byte>): (g: seq<byte>)
    requires IsWord(w)
    ensures |g| == 2
  {
    Group(WordValue(w))
  }

  function BytesOf(ws: seq<seq<byte>>): (b: seq<byte>)
    requires AreWords(ws)
    ensures |b| == 2 * |ws|
  {
    if ws == [] then [] else WordBytes(ws[0]) + BytesOf(ws[1..])
  }

  /** The groups with colons between them. */
  function Joined(ws: seq<seq<byte>>): seq<byte> {
    if ws == [] then [] else if |ws| == 1 then ws[0] else ws[0] + [COLON] + Joined(ws[1..])
  }

  lemma ScanDigit(s: Scan, tok: seq<byte>, ch: byte, rest: seq<byte>)
    requires ScanOk(s) && IsHex(ch) && s.val * 16 + HexDigit(ch) <= 0xffff
    ensures Scanned(s, tok, [ch] + rest) == Scanned(s.(val := s.val * 16 + HexDigit(ch), saw := true), tok, rest)
  {
    assert ([ch] + rest)[1..] == rest;
    assert IsHex(Lower(ch)) && HexDigit(Lower(ch)) == HexDigit(ch);
  }

  lemma WordGrows(w: seq<byte>)
    requires IsWord(w)
    ensures WordValue(w) == WordValue(w[..|w| - 1]) * 16 + HexDigit(w[|w| - 1]) <= 0xffff
    ensures |w| > 1 ==> IsWord(w[..|w| - 1])
  {
  }

  /** The digits of one group. */
  lemma {:induction false} ScanWord(s: Scan, tok: seq<byte>, w: seq<byte>, rest: seq<byte>)
    requires ScanOk(s) && IsWord(w) && !s.saw && s.val == 0
    ensures WordValue(w) < 0x1_0000
    ensures Scanned(s, tok, w + rest) == Scanned(s.(val := WordValue(w), saw := true), tok, rest)
    decreases |w|
  {
    var front, ch := w[..|w| - 1], w[|w| - 1];
    WordGrows(w);
    if front == [] {
      assert w + rest == [ch] + rest;
      ScanDigit(s, tok, ch, rest);
    } else {
      assert w + rest == front + ([ch] + rest);
      ScanWord(s, tok, front, [ch] + rest);
      ScanDigit(s.(val := WordValue(front), saw := true), tok, ch, rest);
    }
  }

  /** Groups that are each followed by a colon. */
  function Colons(ws: seq<seq<byte>>): seq<byte> {
    if ws == [] then [] else ws[0] + [COLON] + Colons(ws[1..])
  }

  predicate Between(s: Scan, n: nat) { ScanOk(s) && !s.saw && s.val == 0 && |s.out| + 2 * n <= ADDR_LEN }

  /** A group and its colon, with more to come. */
  lemma ScanGroup(s: Scan, tok: seq<byte>, w: seq<byte>, rest: seq<byte>)
    requires Between(s, 1) && IsWord(w) && rest != []
    ensures Scanned(s, tok, w + [COLON] + rest) == Scanned(s.(out := s.out + WordBytes(w)), rest, rest)
  {
    ScanWord(s, tok, w, [COLON] + rest);
    assert w + [COLON] + rest == w + ([COLON] + rest);
    assert ([COLON] + rest)[1..] == rest;
    assert !IsHex(COLON);
  }

  lemma HeadSplits(ws: seq<seq<byte>>, rest: seq<byte>, out: seq<byte>)
    requires AreWords(ws) && ws != []
    ensures Colons(ws) + rest == ws[0] + [COLON] + (Colons(ws[1..]) + rest)
    ensures out + BytesOf(ws) == (out + WordBytes(ws[0])) + BytesOf(ws[1..])
    ensures |BytesOf(ws)| == 2 + |BytesOf(ws[1..])|
  {
    Assoc(ws[0] + [COLON], Colons(ws[1..]), rest);
    Assoc(out, WordBytes(ws[0]), BytesOf(ws[1..]));
  }

  lemma {:induction false} ScanHead(s: Scan, tok: seq<byte>, ws: seq<seq<byte>>, rest: seq<byte>)
    requires AreWords(ws) && Between(s, |ws|) && rest != []
    ensures var r := s.(out := s.out + BytesOf(ws));
            Scanned(s, tok, Colons(ws) + rest) == Scanned(r, if ws == [] then tok else rest, rest)
    decreases |ws|
  {
    if ws == [] {
      assert Colons(ws) + rest == rest && s.out + [] == s.out;
    } else {
      var more := Colons(ws[1..]) + rest;
      HeadSplits(ws, rest, s.out);
      ScanGroup(s, tok, ws[0], more);
      var next := s.(out := s.out + WordBytes(ws[0]));
      ScanHead(next, more, ws[1..], rest);
      if ws[1..] == [] {
        assert more == rest;
      }
    }
  }

  /** The bytes of a scan, with the group that is still open. */
  function Out(s: Scan): seq<byte>
    requires ScanOk(s)
  {
    if s.saw then s.out + Group(s.val) else s.out
  }

  /** The groups at the end of the text. */
  lemma {:induction false} ScanTail(s: Scan, tok: seq<byte>, ws: seq<seq<byte>>)
    requires AreWords(ws) && Between(s, |ws|)
    ensures var r := Scanned(s, tok, Joined(ws));
            && r.Some? && r.value.colon == s.colon && Out(r.value) == s.out + BytesOf(ws)
            && (r.value.saw ==> |r.value.out| + 2 <= ADDR_LEN)
    decreases |ws|
  {
    if ws == [] {
      assert s.out + [] == s.out;
    } else if |ws| == 1 {
      assert ws[0] + [] == ws[0];
      ScanWord(s, tok, ws[0], []);
      assert BytesOf(ws[1..]) == [];
      assert WordBytes(ws[0]) + [] == WordBytes(ws[0]);
    } else {
      var rest := Joined(ws[1..]);
      assert IsWord(ws[1]);
      HeadSplits(ws, [], s.out);
      ScanGroup(s, tok, ws[0], rest);
      ScanTail(s.(out := s.out + WordBytes(ws[0])), rest, ws[1..]);
    }
  }

  /** Eight groups without "::" are read as their bytes. */
  lemma FullForm(ws: seq<seq<byte>>)
    requires AreWords(ws) && |ws| == 8
    ensures Parse6(Joined(ws)) == Some(BytesOf(ws))
  {
    var text := Joined(ws);
    assert IsWord(ws[0]) && text[0] == ws[0][0];
    ScanTail(START, text, ws);
    assert [] + BytesOf(ws) == BytesOf(ws);
    FullIsFilled(Scanned(START, text, text).value, BytesOf(ws));
    PlainParse(text);
  }

  lemma FullIsFilled(s: Scan, out: seq<byte>)
    requires ScanOk(s) && s.colon.None? && Out(s) == out && |out| == ADDR_LEN && (s.saw ==> |s.out| + 2 <= ADDR_LEN)
    ensures Filled(s) == Some(out)
  {
  }

  lemma PlainParse(text: seq<byte>)
    requires text != [] && text[0] != COLON && Scanned(START, text, text).Some?
    ensures Parse6(text) == Filled(Scanned(START, text, text).value)
  {
  }

  lemma {:induction false} JoinedThenColons(ws: seq<seq<byte>>)
    requires ws != []
    ensures Joined(ws) + [COLON] == Colons(ws)
  {
    if |ws| > 1 {
      JoinedThenColons(ws[1..]);
    } else {
      assert Colons(ws[1..]) == [];
    }
  }

  lemma CompressedScan(a: seq<seq<byte>>, b: seq<seq<byte>>, src: seq<byte>)
    requires AreWords(a) && AreWords(b) && |a| + |b| <= 8
    requires src == Colons(a) + ([COLON] + Joined(b))
    ensures var r := Scanned(START, src, src);
            && r.Some? && r.value.colon == Some(2 * |a|) && Out(r.value) == BytesOf(a) + BytesOf(b)
            && (r.value.saw ==> |r.value.out| + 2 <= ADDR_LEN)
  {
    var rest := [COLON] + Joined(b);
    ScanHead(START, src, a, rest);
    assert [] + BytesOf(a) == BytesOf(a);
    assert rest[1..] == Joined(b) && !IsHex(COLON);
    var s := Scan(BytesOf(a), Some(2 * |a|), false, 0);
    ScanTail(s, Joined(b), b);
  }

  /** A text with "::" behind some groups, and one with groups behind it too. */
  function Shortened(a: seq<seq<byte>>, tail: seq<byte>): seq<byte> { Joined(a) + [COLON, COLON] + tail }

  function Compressed(a: seq<seq<byte>>, b: seq<seq<byte>>): seq<byte> { Shortened(a, Joined(b)) }

  lemma CompressedSource(a: seq<seq<byte>>, tail: seq<byte>)
    requires AreWords(a)
    ensures var text, src := Shortened(a, tail), Colons(a) + ([COLON] + tail);
            if a == [] then text[0] == COLON && text[1..] == src && src[0] == COLON else text == src && text[0] != COLON
  {
    if a == [] {
      assert Shortened(a, tail)[1..] == [COLON] + tail;
    } else {
      assert IsWord(a[0]) && Joined(a)[0] == a[0][0];
      JoinedThenColons(a);
      assert Shortened(a, tail) == (Joined(a) + [COLON]) + ([COLON] + tail);
    }
  }

  /** "::" stands for the zero bytes that are missing, of which there must be some. */
  lemma CompressedForm(a: seq<seq<byte>>, b: seq<seq<byte>>)
    requires AreWords(a) && AreWords(b) && |a| + |b| <= 8
    ensures Parse6(Compressed(a, b)) == if |a| + |b| == 8 then None else Some(WithZeroes(BytesOf(a), BytesOf(b)))
  {
    var src := Colons(a) + ([COLON] + Joined(b));
    CompressedScan(a, b, src);
    var s := Scanned(START, src, src).value;
    ParseIsFilled(a, Joined(b), s);
    CompressedFilled(a, b, s);
  }

  lemma CompressedFilled(a: seq<seq<byte>>, b: seq<seq<byte>>, s: Scan)
    requires AreWords(a) && AreWords(b) && |a| + |b| <= 8 && ScanOk(s)
    requires s.colon == Some(2 * |a|) && Out(s) == BytesOf(a) + BytesOf(b) && (s.saw ==> |s.out| + 2 <= ADDR_LEN)
    ensures Filled(s) == if |a| + |b| == 8 then None else Some(WithZeroes(BytesOf(a), BytesOf(b)))
  {
    FilledBetween(s, BytesOf(a), BytesOf(b));
  }

  /** Sixteen bytes that start and end with these. */
  function WithZeroes(x: seq<byte>, y: seq<byte>): (addr: seq<byte>)
    requires |x| + |y| <= 16
    ensures |addr| == 16
  {
    x + Zeroes(16 - (|x| + |y|)) + y
  }

  lemma FilledBetween(s: Scan, x: seq<byte>, y: seq<byte>)
    requires ScanOk(s) && s.colon == Some(|x|) && Out(s) == x + y && (s.saw ==> |s.out| + 2 <= ADDR_LEN)
    ensures |x| + |y| <= ADDR_LEN
    ensures Filled(s) == if |x| + |y| == ADDR_LEN then None else Some(WithZeroes(x, y))
  {
    var out := x + y;
    assert out[..|x|] == x && out[|x|..] == y;
  }

  lemma ParseIsFilled(a: seq<seq<byte>>, tail: seq<byte>, s: Scan)
    requires AreWords(a) && ScanOk(s)
    requires var src := Colons(a) + ([COLON] + tail); Scanned(START, src, src) == Some(s)
    ensures Parse6(Shortened(a, tail)) == Filled(s)
  {
    CompressedSource(a, tail);
  }

  // The dotted tail (section 2.2 of RFC 4291) --------------------------------------------------------------

  lemma OctetIsWord(n: byte)
    ensures IsWord(OctetText(n))
  {
    WordFits(OctetText(n));
  }

  lemma DotsOfOne(x: byte)
    ensures Dots([x]) == OctetText(x) + [DOT]
  {
    assert [x][..0] == [] && Dots([x][..0]) == [];
  }

  lemma DotsOfMore(b: seq<byte>, x: byte)
    ensures Dots(b + [x]) == Dots(b) + (OctetText(x) + [DOT])
  {
    assert (b + [x])[..|b|] == b;
    Assoc(Dots(b), OctetText(x), [DOT]);
  }

  lemma DottedStarts(o: seq<byte>) returns (rest: seq<byte>)
    requires |o| == 4
    ensures Dotted(o) == OctetText(o[0]) + ([DOT] + rest)
  {
    var one := OctetText(o[0]);
    var two, three := OctetText(o[1]) + [DOT], OctetText(o[2]) + [DOT];
    DotsOfOne(o[0]);
    DotsOfMore([o[0]], o[1]);
    DotsOfMore([o[0]] + [o[1]], o[2]);
    assert o[..3] == [o[0]] + [o[1]] + [o[2]];
    rest := two + three + OctetText(o[3]);
    Assoc(one, [DOT], rest);
    Assoc(one + [DOT], two, three);
    Assoc(one + [DOT], two + three, OctetText(o[3]));
  }

  lemma ScanDotted(s: Scan, o: seq<byte>)
    requires Between(s, 2) && |o| == 4
    ensures var r := Scanned(s, Dotted(o), Dotted(o));
            r.Some? && !r.value.saw && r.value.colon == s.colon && r.value.out == s.out + o
  {
    var rest := DottedStarts(o);
    OctetIsWord(o[0]);
    ScanWord(s, Dotted(o), OctetText(o[0]), [DOT] + rest);
    DottedIff(Dotted(o), o);
    assert ([DOT] + rest)[1..] == rest && Lower(DOT) == DOT && !IsHex(DOT) && DOT != COLON;
  }

  lemma ScanDottedTail(s: Scan, tok: seq<byte>, b: seq<seq<byte>>, o: seq<byte>)
    requires AreWords(b) && Between(s, |b| + 2) && |o| == 4 && (b == [] ==> tok == Dotted(o))
    ensures var r := Scanned(s, tok, Colons(b) + Dotted(o));
            r.Some? && !r.value.saw && r.value.colon == s.colon && r.value.out == s.out + BytesOf(b) + o
  {
    var rest := DottedStarts(o);
    ScanHead(s, tok, b, Dotted(o));
    ScanDotted(s.(out := s.out + BytesOf(b)), o);
  }

  /** Six groups and four octets. */
  lemma DottedForm(ws: seq<seq<byte>>, o: seq<byte>)
    requires AreWords(ws) && |ws| == 6 && |o| == 4
    ensures Parse6(Colons(ws) + Dotted(o)) == Some(BytesOf(ws) + o)
  {
    var text := Colons(ws) + Dotted(o);
    assert IsWord(ws[0]) && text[0] == ws[0][0];
    ScanDottedTail(START, text, ws, o);
    assert [] + BytesOf(ws) == BytesOf(ws);
    FullIsFilled(Scanned(START, text, text).value, BytesOf(ws) + o);
    PlainParse(text);
  }

  lemma DottedScan(a: seq<seq<byte>>, b: seq<seq<byte>>, o: seq<byte>, src: seq<byte>)
    requires AreWords(a) && AreWords(b) && |a| + |b| <= 6 && |o| == 4
    requires src == Colons(a) + ([COLON] + (Colons(b) + Dotted(o)))
    ensures var r := Scanned(START, src, src);
            && r.Some? && !r.value.saw && r.value.colon == Some(2 * |a|)
            && r.value.out == BytesOf(a) + BytesOf(b) + o
  {
    var tail := Colons(b) + Dotted(o);
    var rest := [COLON] + tail;
    ScanHead(START, src, a, rest);
    assert [] + BytesOf(a) == BytesOf(a);
    assert rest[1..] == tail && !IsHex(COLON);
    if b == [] {
      assert tail == Dotted(o);
    }
    ScanDottedTail(Scan(BytesOf(a), Some(2 * |a|), false, 0), tail, b, o);
  }

  lemma DottedFilled(a: seq<seq<byte>>, b: seq<seq<byte>>, o: seq<byte>, s: Scan)
    requires AreWords(a) && AreWords(b) && |a| + |b| <= 6 && |o| == 4 && ScanOk(s)
    requires !s.saw && s.colon == Some(2 * |a|) && s.out == BytesOf(a) + BytesOf(b) + o
    ensures var x, y := BytesOf(a), BytesOf(b) + o;
            Filled(s) == if |a| + |b| == 6 then None else Some(WithZeroes(x, y))
  {
    Assoc(BytesOf(a), BytesOf(b), o);
    FilledBetween(s, BytesOf(a), BytesOf(b) + o);
  }

  /** "::" in front of a dotted tail stands for the zero bytes that are missing. */
  lemma DottedCompressed(a: seq<seq<byte>>, b: seq<seq<byte>>, o: seq<byte>)
    requires AreWords(a) && AreWords(b) && |a| + |b| <= 6 && |o| == 4
    ensures var x, y := BytesOf(a), BytesOf(b) + o;
            Parse6(Shortened(a, Colons(b) + Dotted(o))) ==
            if |a| + |b| == 6 then None else Some(WithZeroes(x, y))
  {
    var tail := Colons(b) + Dotted(o);
    var src := Colons(a) + ([COLON] + tail);
    DottedScan(a, b, o, src);
    var s := Scanned(START, src, src).value;
    ParseIsFilled(a, tail, s);
    DottedFilled(a, b, o, s);
  }

  // Addresses ----------------------------------------------------------------------------------------

  lemma {:induction false} BytesOfBoth(a: seq<seq<byte>>, b: seq<seq<byte>>)
    requires AreWords(a) && AreWords(b)
    ensures AreWords(a + b) && BytesOf(a + b) == BytesOf(a) + BytesOf(b)
  {
    if a == [] {
      assert a + b == b;
    } else {
      assert (a + b)[1..] == a[1..] + b;
      BytesOfBoth(a[1..], b);
      assert WordBytes(a[0]) + (BytesOf(a[1..]) + BytesOf(b)) == (WordBytes(a[0]) + BytesOf(a[1..])) + BytesOf(b);
    }
  }

  lemma BytesSplit(ws: seq<seq<byte>>, i: nat)
    requires AreWords(ws) && i <= |ws|
    ensures BytesOf(ws) == BytesOf(ws[..i]) + BytesOf(ws[i..])
  {
    assert ws == ws[..i] + ws[i..];
    BytesOfBoth(ws[..i], ws[i..]);
  }

  lemma BytesAround(ws: seq<seq<byte>>, i: nat, j: nat)
    requires AreWords(ws) && i <= j <= |ws|
    ensures BytesOf(ws[..i]) == BytesOf(ws)[..2 * i] && BytesOf(ws[j..]) == BytesOf(ws)[2 * j..]
  {
    BytesSplit(ws, i);
    BytesSplit(ws, j);
  }

  /** Every spelling of an address is read as the address: in full, and with "::" for any non-empty
      run of zero groups. */
  lemma AddressRoundTrip(addr: seq<byte>, ws: seq<seq<byte>>, i: nat, j: nat)
    requires |addr| == ADDR_LEN && AreWords(ws) && BytesOf(ws) == addr
    requires i < j <= 8 && forall k :: 2 * i <= k < 2 * j ==> addr[k] == 0
    ensures Parse6(Joined(ws)) == Some(addr)
    ensures Parse6(Compressed(ws[..i], ws[j..])) == Some(addr)
  {
    assert |ws| == 8;
    FullForm(ws);
    CompressedForm(ws[..i], ws[j..]);
    BytesAround(ws, i, j);
    ZeroesBetween(addr, i, j, BytesOf(ws[..i]), BytesOf(ws[j..]));
  }

  /** The same for spellings whose last four bytes are written as octets, with "::" for any non-empty run of
      zero groups in front of them. */
  lemma DottedRoundTrip(addr: seq<byte>, a: seq<seq<byte>>, b: seq<seq<byte>>, o: seq<byte>)
    requires AreWords(a) && AreWords(b) && |o| == 4
    requires var x, y := BytesOf(a), BytesOf(b) + o;
             |x| + |y| < ADDR_LEN && WithZeroes(x, y) == addr
    ensures Parse6(Shortened(a, Colons(b) + Dotted(o))) == Some(addr)
  {
    DottedCompressed(a, b, o);
  }

  lemma ZeroesBetween(addr: seq<byte>, i: nat, j: nat, x: seq<byte>, y: seq<byte>)
    requires |addr| == ADDR_LEN && i < j <= 8 && forall k :: 2 * i <= k < 2 * j ==> addr[k] == 0
    requires x == addr[..2 * i] && y == addr[2 * j..]
    ensures WithZeroes(x, y) == addr
  {
    assert |x| == 2 * i && |y| == ADDR_LEN - 2 * j;
    ZeroSlice(addr, 2 * i, 2 * j);
    ThreeParts(addr, 2 * i, 2 * j);
  }

  lemma ZeroSlice(addr: seq<byte>, p: nat, q: nat)
    requires p <= q <= |addr| && forall k :: p <= k < q ==> addr[k] == 0
    ensures addr[p..q] == Zeroes(q - p)
  {
  }

  lemma ThreeParts(addr: seq<byte>, p: nat, q: nat)
    requires p <= q <= |addr|
    ensures addr[..p] + addr[p..q] + addr[q..] == addr
  {
    assert addr[..p] + addr[p..q] == addr[..q];
  }

  function HexChar(d: nat): (ch: byte)
    requires d < 16
    ensures IsHex(ch) && HexDigit(ch) == d
  {
    if d < 10 then 48 + d else 87 + d
  }

  lemma SpellGroup(hi: byte, lo: byte) returns (w: seq<byte>)
    ensures IsWord(w) && WordBytes(w) == [hi, lo]
  {
    var h, l := hi as int, lo as int;
    w := [HexChar(h / 16), HexChar(h % 16), HexChar(l / 16), HexChar(l % 16)];
    WordFits(w);
    WordOfFour(w);
    var v := WordValue(w);
    assert v == h * 256 + l && v / 256 == h && v % 256 == l;
  }

  /** Every address has a spelling. */
  lemma {:induction false} SpellingExists(addr: seq<byte>) returns (ws: seq<seq<byte>>)
    requires |addr| % 2 == 0
    ensures AreWords(ws) && BytesOf(ws) == addr
  {
    if addr == [] {
      ws := [];
    } else {
      var rest := SpellingExists(addr[2..]);
      var w := SpellGroup(addr[0], addr[1]);
      ws := [w] + rest;
      assert ws[1..] == rest;
      assert addr == [addr[0], addr[1]] + addr[2..];
    }
  }

  lemma WordOfFour(w: seq<byte>)
    requires |w| == 4 && IsWord(w)
    ensures WordValue(w) == ((HexDigit(w[0]) * 16 + HexDigit(w[1])) * 16 + HexDigit(w[2])) * 16 + HexDigit(w[3])
  {
    assert w[..3][..2] == w[..2] && w[..2][..1] == w[..1] && w[..1][..0] == [];
    assert WordValue(w[..1]) == HexDigit(w[0]);
    assert WordValue(w[..2]) == HexDigit(w[0]) * 16 + HexDigit(w[1]);
    assert WordValue(w[..3]) == WordValue(w[..2]) * 16 + HexDigit(w[2]);
  }
}
