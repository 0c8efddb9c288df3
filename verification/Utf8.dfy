/** The UTF-8 check of deps/bson/encoding.c and what it accepts. */
module Utf8 {
  import opened Bytes

  /** The bits of `err` that a builder collects. */
  datatype Errors = Errors(notUtf8: bool, hasDot: bool, initDollar: bool, alreadyFinished: bool, sizeOverflow: bool)

  const NO_ERRORS := Errors(false, false, false, false, false)

  function TrailingBytes(lead: byte): nat {
    if lead < 0xC0 then 0 else if lead < 0xE0 then 1 else if lead < 0xF0 then 2
    else if lead < 0xF8 then 3 else if lead < 0xFC then 4 else 5
  }

  function PieceLen(lead: byte): nat { TrailingBytes(lead) + 1 }

  /** The cascade of tests from the last byte of a sequence down to its lead byte. */
  predicate IsLegalUtf8(source: seq<byte>) {
    && 1 <= |source| <= 4
    && (|source| == 4 ==> 0x80 <= source[3] <= 0xBF)
    && (|source| >= 3 ==> 0x80 <= source[2] <= 0xBF)
    && (|source| >= 2 ==>
          && source[1] <= 0xBF
          && (match source[0]
              case 0xE0 => 0xA0 <= source[1]
              case 0xF0 => 0x90 <= source[1]
              case 0xF4 => source[1] <= 0x8F
              case _ => 0x80 <= source[1]))
    && !(0x80 <= source[0] < 0xC2)
    && source[0] <= 0xF4
  }

  /** The whole string is a run of legal sequences whose lengths the lead bytes announce. */
  predicate ValidUtf8(s: seq<byte>) {
    s == [] ||
    (var n := PieceLen(s[0]); n <= |s| && IsLegalUtf8(s[..n]) && ValidUtf8(s[n..]))
  }

  /** A '.' stands where the scan looks for one, up to the first illegal sequence. */
  predicate DotSeen(s: seq<byte>) {
    s != [] &&
    (s[0] == '.' as int ||
     (var n := PieceLen(s[0]); n <= |s| && IsLegalUtf8(s[..n]) && DotSeen(s[n..])))
  }

  predicate IsDbRef(s: seq<byte>) {
    if |s| >= 4 then s[1] == 'r' as int && s[2] == 'e' as int && s[3] == 'f' as int
    else |s| >= 3 && ((s[1] == 'i' as int && s[2] == 'd' as int) || (s[1] == 'd' as int && s[2] == 'b' as int))
  }

  /** The scan of bson_validate_string with check_utf8 set, as every caller sets it. */
  method ValidateString(s: seq<byte>, checkDot: bool, checkDollar: bool, err: Errors)
    returns (ok: bool, err': Errors)
    ensures ok <==> ValidUtf8(s)
    ensures err'.notUtf8 == (err.notUtf8 || !ok)
    ensures err'.hasDot == (err.hasDot || (checkDot && DotSeen(s)))
    ensures err'.initDollar == (err.initDollar || (checkDollar && s != [] && s[0] == '$' as int && !IsDbRef(s)))
    ensures err'.alreadyFinished == err.alreadyFinished && err'.sizeOverflow == err.sizeOverflow
  {
    err' := err;
    var position := 0;
    if checkDollar && s != [] && s[0] == '$' as int {
      if !IsDbRef(s) {
        err' := err'.(initDollar := true);
      }
    }
    ghost var marked, rest := err', s;
    while position < |s|
      invariant 0 <= position <= |s| && rest == s[position..]
      invariant ValidUtf8(s) == ValidUtf8(rest)
      invariant err' == marked.(hasDot := err'.hasDot)
      invariant err'.hasDot || (checkDot && DotSeen(rest)) <==> marked.hasDot || (checkDot && DotSeen(s))
    {
      assert rest[0] == s[position];
      if checkDot && s[position] == '.' as int {
        err' := err'.(hasDot := true);
      }
      var n := PieceLen(s[position]);
      if position + n > |s| {
        err' := err'.(notUtf8 := true);
        return false, err';
      }
      assert rest[..n] == s[position..position + n];
      if !IsLegalUtf8(s[position..position + n]) {
        err' := err'.(notUtf8 := true);
        return false, err';
      }
      position, rest := position + n, rest[n..];
    }
    ok := true;
  }

  // What is accepted -----------------------------------------------------------

  predicate IsPiece(p: seq<byte>) { p != [] && |p| == PieceLen(p[0]) && IsLegalUtf8(p) }

  predicate AllPieces(pieces: seq<seq<byte>>) { forall i :: 0 <= i < |pieces| ==> IsPiece(pieces[i]) }

  lemma {:induction false} PiecesAreAccepted(pieces: seq<seq<byte>>)
    requires AllPieces(pieces)
    ensures ValidUtf8(Flatten(pieces))
  {
    if pieces != [] {
      var s, p := Flatten(pieces), pieces[0];
      PiecesAreAccepted(pieces[1..]);
      assert s[..|p|] == p && s[|p|..] == Flatten(pieces[1..]);
    }
  }

  function Split(s: seq<byte>): (pieces: seq<seq<byte>>)
    requires ValidUtf8(s)
    ensures AllPieces(pieces) && Flatten(pieces) == s
  {
    if s == [] then []
    else
      var n := PieceLen(s[0]);
      assert s == s[..n] + s[n..];
      [s[..n]] + Split(s[n..])
  }

  /** An accepted string splits in only one way. */
  lemma {:induction false} SplitIsUnique(pieces: seq<seq<byte>>)
    requires AllPieces(pieces)
    ensures ValidUtf8(Flatten(pieces)) && Split(Flatten(pieces)) == pieces
  {
    PiecesAreAccepted(pieces);
    if pieces != [] {
      var s, p := Flatten(pieces), pieces[0];
      SplitIsUnique(pieces[1..]);
      assert s[..|p|] == p && s[|p|..] == Flatten(pieces[1..]);
    }
  }

  // Section 3 of RFC 3629 --------------------------------------------------------

  predicate IsScalarValue(v: int) { 0 <= v <= 0x10FFFF && !(0xD800 <= v <= 0xDFFF) }

  function EncodeScalar(v: int): (s: seq<byte>)
    requires 0 <= v <= 0x10FFFF
  {
    if v <= 0x7F then [v]
    else if v <= 0x7FF then [0xC0 + v / 64, 0x80 + v % 64]
    else if v <= 0xFFFF then [0xE0 + v / 4096, 0x80 + v / 64 % 64, 0x80 + v % 64]
    else [0xF0 + v / 0x4_0000, 0x80 + v / 4096 % 64, 0x80 + v / 64 % 64, 0x80 + v % 64]
  }

  lemma EncodingIsPiece(v: int)
    requires 0 <= v <= 0x10FFFF
    ensures IsPiece(EncodeScalar(v))
  {
    var a, b := v / 64, v / 4096;
    assert a / 64 == b && b / 64 == v / 0x4_0000;
  }

  predicate IsScalarText(vs: seq<int>) { forall i :: 0 <= i < |vs| ==> IsScalarValue(vs[i]) }

  function EncodeText(vs: seq<int>): seq<byte>
    requires IsScalarText(vs)
  {
    if vs == [] then []
    else
      assert IsScalarValue(vs[0]);
      EncodeScalar(vs[0]) + EncodeText(vs[1..])
  }

  /** Every text of Unicode scalar values is accepted. */
  lemma {:induction false} ScalarTextIsAccepted(vs: seq<int>)
    requires IsScalarText(vs)
    ensures ValidUtf8(EncodeText(vs))
  {
    if vs != [] {
      var p := EncodeScalar(vs[0]);
      EncodingIsPiece(vs[0]);
      ScalarTextIsAccepted(vs[1..]);
      assert EncodeText(vs)[..|p|] == p && EncodeText(vs)[|p|..] == EncodeText(vs[1..]);
    }
  }

  /** A surrogate code point in three bytes: ED A0..BF 80..BF. */
  predicate IsSurrogatePiece(p: seq<byte>) {
    |p| == 3 && p[0] == 0xED && 0xA0 <= p[1] <= 0xBF && 0x80 <= p[2] <= 0xBF
  }

  /** A lead byte F4 before a byte that is no continuation byte. */
  predicate IsShortF4Piece(p: seq<byte>) {
    |p| == 4 && p[0] == 0xF4 && p[1] < 0x80 && 0x80 <= p[2] <= 0xBF && 0x80 <= p[3] <= 0xBF
  }

  function DecodePiece(p: seq<byte>): int
    requires 1 <= |p| <= 4
  {
    var b0: int := p[0];
    if |p| == 1 then b0
    else
      var b1: int := p[1] as int - 0x80;
      if |p| == 2 then (b0 - 0xC0) * 64 + b1
      else
        var b2: int := p[2] as int - 0x80;
        if |p| == 3 then (b0 - 0xE0) * 4096 + b1 * 64 + b2
        else
          var b3: int := p[3] as int - 0x80;
          (b0 - 0xF0) * 0x4_0000 + b1 * 4096 + b2 * 64 + b3
  }

  lemma DecodedPieceIsScalar(p: seq<byte>)
    requires IsPiece(p) && !IsSurrogatePiece(p) && !IsShortF4Piece(p)
    ensures IsScalarValue(DecodePiece(p)) && EncodeScalar(DecodePiece(p)) == p
  {
    if |p| == 3 {
      SixBitDigits(0, p[0] as int - 0xE0, p[1] as int - 0x80, p[2] as int - 0x80);
    } else if |p| == 4 {
      SixBitDigits(p[0] as int - 0xF0, p[1] as int - 0x80, p[2] as int - 0x80, p[3] as int - 0x80);
    }
  }

  lemma SixBitDigits(a: nat, b: int, c: int, d: int)
    requires 0 <= b < 64 && 0 <= c < 64 && 0 <= d < 64
    ensures var v := a * 0x4_0000 + b * 4096 + c * 64 + d;
            && v % 64 == d && v / 64 % 64 == c && v / 4096 % 64 == b
            && v / 64 == a * 4096 + b * 64 + c && v / 4096 == a * 64 + b && v / 0x4_0000 == a
  {
    var v := a * 0x4_0000 + b * 4096 + c * 64 + d;
    var w, x := a * 4096 + b * 64 + c, a * 64 + b;
    assert v == 64 * w + d && w == 64 * x + c && x == 64 * a + b;
    assert v / 64 == w && w / 64 == x && x / 64 == a;
  }

  /** Exactly what one accepted piece can be: the encoding of a scalar value, or one of the two
      families that the standard excludes. */
  lemma PieceIsScalarOrKnownExtra(p: seq<byte>)
    ensures IsPiece(p) <==>
            || (exists v :: IsScalarValue(v) && EncodeScalar(v) == p)
            || IsSurrogatePiece(p) || IsShortF4Piece(p)
  {
    if IsPiece(p) && !IsSurrogatePiece(p) && !IsShortF4Piece(p) {
      DecodedPieceIsScalar(p);
    }
    if v :| IsScalarValue(v) && EncodeScalar(v) == p {
      EncodingIsPiece(v);
    }
  }
}
