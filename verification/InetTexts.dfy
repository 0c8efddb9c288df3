/** Exactly which texts inet_pton6 of port/win32/helper.c takes for an address. */
module InetTexts {
  import opened Basics
  import opened Bytes
  import opened Inet

  /** Groups of hexadecimal digits, at most one "::", and possibly four octets at the end. */
  datatype Spelling =
    | Full(ws: seq<seq<byte>>)
    | Short(a: seq<seq<byte>>, b: seq<seq<byte>>)
    | FullOctets(ws: seq<seq<byte>>, o: seq<byte>)
    | ShortOctets(a: seq<seq<byte>>, b: seq<seq<byte>>, o: seq<byte>)

  /** Without "::" there are 16 bytes; "::" stands for at least two. */
  predicate IsSpelling(sp: Spelling) {
    match sp
    case Full(ws) => AreWords(ws) && |ws| == 8
    case Short(a, b) => AreWords(a) && AreWords(b) && |a| + |b| <= 7
    case FullOctets(ws, o) => AreWords(ws) && |ws| == 6 && |o| == 4
    case ShortOctets(a, b, o) => AreWords(a) && AreWords(b) && |a| + |b| <= 5 && |o| == 4
  }

  function TextOf(sp: Spelling): seq<byte>
    requires IsSpelling(sp)
  {
    match sp
    case Full(ws) => Joined(ws)
    case Short(a, b) => Compressed(a, b)
    case FullOctets(ws, o) => Colons(ws) + Dotted(o)
    case ShortOctets(a, b, o) => Shortened(a, Colons(b) + Dotted(o))
  }

  function AddressOf(sp: Spelling): (addr: seq<byte>)
    requires IsSpelling(sp)
    ensures |addr| == 16
  {
    match sp
    case Full(ws) => BytesOf(ws)
    case Short(a, b) => WithZeroes(BytesOf(a), BytesOf(b))
    case FullOctets(ws, o) => BytesOf(ws) + o
    case ShortOctets(a, b, o) => WithZeroes(BytesOf(a), BytesOf(b) + o)
  }

  lemma ShortIsRead(a: seq<seq<byte>>, b: seq<seq<byte>>)
    requires IsSpelling(Short(a, b))
    ensures Parse6(TextOf(Short(a, b))) == Some(AddressOf(Short(a, b)))
  {
    CompressedForm(a, b);
  }

  lemma ShortOctetsAreRead(a: seq<seq<byte>>, b: seq<seq<byte>>, o: seq<byte>)
    requires IsSpelling(ShortOctets(a, b, o))
    ensures Parse6(TextOf(ShortOctets(a, b, o))) == Some(AddressOf(ShortOctets(a, b, o)))
  {
    DottedCompressed(a, b, o);
  }

  lemma FullIsRead(sp: Spelling)
    requires IsSpelling(sp) && (sp.Full? || sp.FullOctets?)
    ensures Parse6(TextOf(sp)) == Some(AddressOf(sp))
  {
    if sp.Full? {
      FullForm(sp.ws);
    } else {
      DottedForm(sp.ws, sp.o);
    }
  }

  lemma SpellingIsRead(sp: Spelling)
    requires IsSpelling(sp)
    ensures Parse6(TextOf(sp)) == Some(AddressOf(sp))
  {
    match sp
    case Short(a, b) => ShortIsRead(a, b);
    case ShortOctets(a, b, o) => ShortOctetsAreRead(a, b, o);
    case _ => FullIsRead(sp);
  }

  // What the scan has read ------------------------------------------------------------------------------

  datatype Tail = Nothing | Word(w: seq<byte>) | Octets(o: seq<byte>)

  predicate IsTail(t: Tail) {
    match t
    case Nothing => true
    case Word(w) => IsWord(w)
    case Octets(o) => |o| == 4
  }

  function TailText(t: Tail): seq<byte>
    requires IsTail(t)
  {
    match t
    case Nothing => []
    case Word(w) => w
    case Octets(o) => Dotted(o)
  }

  /** Complete groups, before and behind "::". */
  function Pre(double: bool, a: seq<seq<byte>>, b: seq<seq<byte>>): seq<byte> {
    if double then Colons(a) + ([COLON] + Colons(b)) else Colons(a)
  }

  predicate Groups(s: Scan, a: seq<seq<byte>>, b: seq<seq<byte>>) {
    && AreWords(a) && AreWords(b)
    && match s.colon case None => b == [] case Some(c) => c == 2 * |a|
  }

  /** In the middle: the digits of the current group are `w`, and a colon has something behind it. */
  predicate Reading(s: Scan, a: seq<seq<byte>>, b: seq<seq<byte>>, w: seq<byte>, src: seq<byte>) {
    && ScanOk(s) && Groups(s, a, b) && s.out == BytesOf(a) + BytesOf(b)
    && (if s.saw then IsWord(w) && s.val == WordValue(w) else w == [] && s.val == 0)
    && (!s.saw && (if s.colon.Some? then b else a) != [] ==> src != [])
  }

  /** At the end. */
  predicate HasRead(r: Scan, a: seq<seq<byte>>, b: seq<seq<byte>>, t: Tail) {
    && ScanOk(r) && Groups(r, a, b) && IsTail(t)
    && match t
       case Nothing => !r.saw && r.out == BytesOf(a) + BytesOf(b) && (if r.colon.Some? then b else a) == []
       case Word(w) => r.saw && r.val == WordValue(w) && r.out == BytesOf(a) + BytesOf(b)
       case Octets(o) => !r.saw && r.out == BytesOf(a) + BytesOf(b) + o
  }

  lemma {:induction false} ColonsSnoc(a: seq<seq<byte>>, w: seq<byte>)
    ensures Colons(a + [w]) == Colons(a) + (w + [COLON])
    decreases |a|
  {
    if a == [] {
      assert [w][1..] == [] && a + [w] == [w];
      assert Colons([w]) == w + [COLON] + [];
    } else {
      assert (a + [w])[1..] == a[1..] + [w];
      ColonsSnoc(a[1..], w);
      Assoc(a[0] + [COLON], Colons(a[1..]), w + [COLON]);
    }
  }

  lemma BytesSnoc(a: seq<seq<byte>>, w: seq<byte>)
    requires AreWords(a) && IsWord(w)
    ensures AreWords(a + [w]) && BytesOf(a + [w]) == BytesOf(a) + WordBytes(w)
  {
    assert AreWords([w]) && [w][1..] == [] && BytesOf([w]) == WordBytes(w) + [];
    BytesOfBoth(a, [w]);
  }

  lemma WordSnoc(w: seq<byte>, ch: byte)
    requires (w == [] || IsWord(w)) && IsHex(ch) && WordValue(w) * 16 + HexDigit(ch) <= 0xffff
    ensures IsWord(w + [ch]) && WordValue(w + [ch]) == WordValue(w) * 16 + HexDigit(ch)
  {
    assert (w + [ch])[..|w|] == w;
  }

  /** A digit is read. */
  lemma DigitReads(s: Scan, a: seq<seq<byte>>, b: seq<seq<byte>>, w: seq<byte>, src: seq<byte>)
    requires Reading(s, a, b, w, src) && src != [] && IsHex(Lower(src[0]))
    requires s.val * 16 + HexDigit(Lower(src[0])) <= 0xffff
    ensures var n := s.(val := s.val * 16 + HexDigit(Lower(src[0])), saw := true);
            Reading(n, a, b, w + [src[0]], src[1..])
    ensures (w + [src[0]]) + src[1..] == w + src
  {
    assert IsHex(src[0]) && HexDigit(src[0]) == HexDigit(Lower(src[0]));
    assert WordValue([]) == 0;
    WordSnoc(w, src[0]);
    assert src == [src[0]] + src[1..];
  }

  /** A group is complete. */
  lemma GroupReads(s: Scan, a: seq<seq<byte>>, b: seq<seq<byte>>, w: seq<byte>, rest: seq<byte>)
    returns (x: seq<seq<byte>>, y: seq<seq<byte>>)
    requires Reading(s, a, b, w, [COLON] + rest) && s.saw && rest != [] && |s.out| + 2 <= ADDR_LEN
    ensures Reading(Scan(s.out + Group(s.val), s.colon, false, 0), x, y, [], rest)
    ensures Pre(s.colon.Some?, x, y) == Pre(s.colon.Some?, a, b) + (w + [COLON])
  {
    if s.colon.None? {
      x, y := a + [w], b;
      BytesSnoc(a, w);
      ColonsSnoc(a, w);
      assert BytesOf(x) + BytesOf([]) == BytesOf(x) && BytesOf(a) + BytesOf([]) == BytesOf(a);
    } else {
      x, y := a, b + [w];
      BytesSnoc(b, w);
      ColonsSnoc(b, w);
      Assoc(BytesOf(a), BytesOf(b), WordBytes(w));
      Assoc(Colons(a), [COLON] + Colons(b), w + [COLON]);
      Assoc([COLON], Colons(b), w + [COLON]);
    }
  }

  lemma DoubleReads(s: Scan, a: seq<seq<byte>>, b: seq<seq<byte>>, rest: seq<byte>)
    requires Reading(s, a, b, [], [COLON] + rest) && !s.saw && s.colon.None?
    ensures Reading(s.(colon := Some(|s.out|)), a, [], [], rest)
    ensures Pre(true, a, []) == Pre(false, a, b) + [COLON]
  {
    assert [COLON] + Colons([]) == [COLON];
  }

  /** Whatever is scanned to the end is groups, at most one "::", and a tail. */
  lemma {:induction false} ScanMeans(s: Scan, tok: seq<byte>, src: seq<byte>,
                                     a: seq<seq<byte>>, b: seq<seq<byte>>, w: seq<byte>)
    returns (x: seq<seq<byte>>, y: seq<seq<byte>>, t: Tail)
    requires Reading(s, a, b, w, src) && tok == w + src && Scanned(s, tok, src).Some?
    ensures var r := Scanned(s, tok, src).value;
            && HasRead(r, x, y, t)
            && Pre(s.colon.Some?, a, b) + (w + src) == Pre(r.colon.Some?, x, y) + TailText(t)
    decreases |src|, 0
  {
    if src == [] {
      x, y, t := a, b, if s.saw then Word(w) else Nothing;
      assert w + src == w;
    } else {
      var ch, rest := Lower(src[0]), src[1..];
      assert src == [src[0]] + rest;
      if IsHex(ch) {
        DigitReads(s, a, b, w, src);
        var n := s.(val := s.val * 16 + HexDigit(ch), saw := true);
        x, y, t := ScanMeans(n, tok, rest, a, b, w + [src[0]]);
      } else if ch == COLON {
        x, y, t := ColonMeans(s, rest, a, b, w);
        assert src == [COLON] + rest;
      } else {
        x, y := a, b;
        t := OctetsMean(tok);
      }
    }
  }

  lemma OctetsMean(tok: seq<byte>) returns (t: Tail)
    requires Parse4([], 0, false, tok).Some? && |Parse4([], 0, false, tok).value| == 4
    ensures t == Octets(Parse4([], 0, false, tok).value) && IsTail(t) && TailText(t) == tok
  {
    var o := Parse4([], 0, false, tok).value;
    DottedIff(tok, o);
    t := Octets(o);
  }

  lemma {:induction false} ColonMeans(s: Scan, rest: seq<byte>, a: seq<seq<byte>>, b: seq<seq<byte>>, w: seq<byte>)
    returns (x: seq<seq<byte>>, y: seq<seq<byte>>, t: Tail)
    requires Reading(s, a, b, w, [COLON] + rest) && Scanned(s, w + ([COLON] + rest), [COLON] + rest).Some?
    ensures var r := Scanned(s, w + ([COLON] + rest), [COLON] + rest).value;
            && HasRead(r, x, y, t)
            && Pre(s.colon.Some?, a, b) + (w + ([COLON] + rest)) == Pre(r.colon.Some?, x, y) + TailText(t)
    decreases |rest|, 1
  {
    var src := [COLON] + rest;
    assert src[1..] == rest && Lower(COLON) == COLON && !IsHex(COLON);
    assert [] + rest == rest;
    if !s.saw {
      DoubleReads(s, a, b, rest);
      x, y, t := ScanMeans(s.(colon := Some(|s.out|)), rest, rest, a, [], []);
      Assoc(Pre(false, a, b), [COLON], rest);
      assert w + src == src;
    } else {
      var c, d := GroupReads(s, a, b, w, rest);
      x, y, t := ScanMeans(Scan(s.out + Group(s.val), s.colon, false, 0), rest, rest, c, d, []);
      Assoc(Pre(s.colon.Some?, a, b), w + [COLON], rest);
      Assoc(w, [COLON], rest);
    }
  }

  // Texts that are taken ---------------------------------------------------------------------------------

  lemma {:induction false} LastGroup(x: seq<seq<byte>>, w: seq<byte>)
    ensures Joined(x + [w]) == Colons(x) + w
    decreases |x|
  {
    if x == [] {
      assert x + [w] == [w];
    } else {
      assert (x + [w])[1..] == x[1..] + [w] && |x + [w]| > 1;
      LastGroup(x[1..], w);
      Assoc(x[0] + [COLON], Colons(x[1..]), w);
    }
  }

  /** A colon at the start is skipped if another one follows. */
  predicate IsSource(text: seq<byte>, src: seq<byte>) {
    && src == (if text != [] && text[0] == COLON then text[1..] else text)
    && (src != text ==> src != [] && src[0] == COLON)
  }

  lemma DoubleFirst(text: seq<byte>, src: seq<byte>, tail: seq<byte>)
    requires IsSource(text, src) && src == [COLON] + tail
    ensures text == Shortened([], tail)
  {
    assert src[0] == COLON && text == [COLON] + src;
    assert Shortened([], tail) == [COLON, COLON] + tail;
  }

  lemma WordFirst(text: seq<byte>, src: seq<byte>, x: seq<seq<byte>>, tail: seq<byte>)
    requires IsSource(text, src) && AreWords(x) && x != [] && src == Colons(x) + tail
    ensures text == src
  {
    assert IsWord(x[0]) && src[0] == x[0][0] != COLON;
  }

  /** The text from what has been read of it. */
  lemma SourceOf(text: seq<byte>, src: seq<byte>, x: seq<seq<byte>>, tail: seq<byte>)
    requires IsSource(text, src) && AreWords(x) && src == Colons(x) + ([COLON] + tail)
    ensures text == Shortened(x, tail)
  {
    if x == [] {
      assert src == [COLON] + tail;
      DoubleFirst(text, src, tail);
    } else {
      WordFirst(text, src, x, [COLON] + tail);
      JoinedThenColons(x);
      assert Joined(x) + [COLON, COLON] + tail == (Joined(x) + [COLON]) + ([COLON] + tail);
    }
  }

  /** What has been read determines the spelling. */
  lemma SpellingOf(text: seq<byte>, src: seq<byte>, r: Scan, x: seq<seq<byte>>, y: seq<seq<byte>>, t: Tail)
    returns (sp: Spelling)
    requires IsSource(text, src) && HasRead(r, x, y, t)
    requires src == Pre(r.colon.Some?, x, y) + TailText(t) && Filled(r).Some?
    ensures IsSpelling(sp) && TextOf(sp) == text
  {
    if r.colon.None? {
      assert t != Nothing;
      SourceOfFull(text, src, r, x, t);
      match t
      case Word(w) => sp := Full(x + [w]); LastGroup(x, w); BytesSnoc(x, w);
      case Octets(o) => sp := FullOctets(x, o);
    } else {
      var tail := Colons(y) + TailText(t);
      Assoc(Colons(x), [COLON] + Colons(y), TailText(t));
      Assoc([COLON], Colons(y), TailText(t));
      SourceOf(text, src, x, tail);
      match t
      case Nothing => sp := Short(x, []); assert tail == Joined([]);
      case Word(w) => sp := Short(x, y + [w]); LastGroup(y, w); BytesSnoc(y, w);
      case Octets(o) => sp := ShortOctets(x, y, o);
    }
  }

  lemma SourceOfFull(text: seq<byte>, src: seq<byte>, r: Scan, x: seq<seq<byte>>, t: Tail)
    requires IsSource(text, src) && HasRead(r, x, [], t) && r.colon.None?
    requires src == Colons(x) + TailText(t) && Filled(r).Some?
    ensures text == src && |x| == if t.Word? then 7 else 6
  {
    assert BytesOf(x) + BytesOf([]) == BytesOf(x);
    WordFirst(text, src, x, TailText(t));
  }

  /** A text is taken for an address if and only if it is one of its spellings. */
  lemma AcceptedIff(text: seq<byte>, addr: seq<byte>)
    ensures Parse6(text) == Some(addr) <==> exists sp :: IsSpelling(sp) && TextOf(sp) == text && AddressOf(sp) == addr
  {
    if Parse6(text) == Some(addr) {
      var src := if text != [] && text[0] == COLON then text[1..] else text;
      assert src != text || text == [] || text[0] != COLON;
      assert [] + src == src && BytesOf([]) + BytesOf([]) == [];
      var x, y, t := ScanMeans(START, src, src, [], [], []);
      var sp := SpellingOf(text, src, Scanned(START, src, src).value, x, y, t);
      SpellingIsRead(sp);
    }
    forall sp | IsSpelling(sp) && TextOf(sp) == text && AddressOf(sp) == addr ensures Parse6(text) == Some(addr) {
      SpellingIsRead(sp);
    }
  }

  predicate NoDoubleColon(text: seq<byte>) {
    forall i :: 0 <= i < |text| - 1 ==> text[i] != COLON || text[i + 1] != COLON
  }

  /** Without "::" only a text that stands for all 16 bytes is taken. */
  lemma NothingIsFilledIn(text: seq<byte>)
    requires NoDoubleColon(text) && Parse6(text).Some?
    ensures exists sp :: IsSpelling(sp) && TextOf(sp) == text && (sp.Full? || sp.FullOctets?)
  {
    AcceptedIff(text, Parse6(text).value);
    var sp :| IsSpelling(sp) && TextOf(sp) == text && AddressOf(sp) == Parse6(text).value;
    if sp.Short? || sp.ShortOctets? {
      DoubleIsThere(sp.a, if sp.Short? then Joined(sp.b) else Colons(sp.b) + Dotted(sp.o));
    }
  }

  lemma DoubleIsThere(a: seq<seq<byte>>, tail: seq<byte>)
    ensures !NoDoubleColon(Shortened(a, tail))
  {
    var text, n := Shortened(a, tail), |Joined(a)|;
    assert text[n] == COLON && text[n + 1] == COLON;
  }
}
