/** BSON documents as trees, and their canonical bytes (bsonspec.org, version 1.x grammar). */
module BsonTree {
  import opened Bytes
  import opened Utf8

  const EOO: byte := 0
  const DOUBLE: byte := 1
  const STRING: byte := 2
  const OBJECT: byte := 3
  const ARRAY: byte := 4
  const BINDATA: byte := 5
  const UNDEFINED: byte := 6
  const OID: byte := 7
  const BOOL: byte := 8
  const DATE: byte := 9
  const NULLTYPE: byte := 10
  const REGEX: byte := 11
  const DBREF: byte := 12
  const CODE: byte := 13
  const SYMBOL: byte := 14
  const CODEWSCOPE: byte := 15
  const INT: byte := 16
  const TIMESTAMP: byte := 17
  const LONG: byte := 18

  /** A value without elements carries the bytes that follow its key. */
  datatype Value = Atom(ty: byte, payload: seq<byte>) | Nested(ty: byte, doc: Doc)

  /** The grammar's e_list. */
  datatype Doc = End | Elem(key: seq<byte>, value: Value, rest: Doc)

  // Encoding ---------------------------------------------------------------------

  function Enc(d: Doc): seq<byte>
    decreases d, 0
  {
    match d
    case End => []
    case Elem(k, v, rest) => EncElem(k, v) + Enc(rest)
  }

  function Header(ty: byte, key: seq<byte>): seq<byte> { [ty] + key + [0] }

  function EncElem(key: seq<byte>, v: Value): seq<byte>
    decreases v, 1
  {
    Header(v.ty, key) + EncValue(v)
  }

  function EncValue(v: Value): seq<byte>
    decreases v, 0
  {
    match v
    case Atom(_, payload) => payload
    case Nested(_, doc) => Encode(doc)
  }

  /** The bytes of a whole document. */
  function Encode(d: Doc): seq<byte>
    decreases d, 1
  {
    LE32(|Enc(d)| + 5) + Enc(d) + [0]
  }

  // Well-formedness ----------------------------------------------------------------

  predicate IsText(ty: byte) { ty == STRING || ty == SYMBOL || ty == CODE }

  predicate IsNested(ty: byte) { ty == OBJECT || ty == ARRAY }

  /** Payload length of the types that always take the same space. */
  function FixedSize(ty: byte): int {
    match ty
    case 6 => 0 case 10 => 0
    case 8 => 1
    case 16 => 4
    case 1 => 8 case 9 => 8 case 17 => 8 case 18 => 8
    case 7 => 12
    case _ => -1
  }

  /** The payload is what the grammar asks of its type. */
  predicate AtomOk(ty: byte, p: seq<byte>) {
    if FixedSize(ty) >= 0 then |p| == FixedSize(ty)
    else if IsText(ty) then 5 <= |p| && Int32(p, 0) == |p| - 4 && p[|p| - 1] == 0
    else if ty == BINDATA then 5 <= |p| && Int32(p, 0) == |p| - 5 && (p[4] == 2 ==> 9 <= |p|)
    else if ty == CODEWSCOPE then 4 <= |p| && Int32(p, 0) == |p|
    else if ty == DBREF then 16 <= |p| && Int32(p, 0) == |p| - 16
    else if ty == REGEX then
      var n := StrLen(p, 0);
      n + 2 <= |p| && n + 1 + StrLen(p, n + 1) + 1 == |p|
    else false
  }

  predicate WfDoc(d: Doc) {
    d.Elem? ==> NoNul(d.key) && WfValue(d.value) && WfDoc(d.rest)
  }

  predicate WfValue(v: Value) {
    match v
    case Atom(ty, p) => AtomOk(ty, p)
    case Nested(ty, doc) => IsNested(ty) && |Enc(doc)| + 5 <= INT_MAX && WfDoc(doc)
  }

  /** A document whose bytes fit the length field. */
  predicate WfRoot(d: Doc) { WfDoc(d) && |Enc(d)| + 5 <= INT_MAX }

  function TypeOf(d: Doc): byte { if d.End? then EOO else d.value.ty }

  lemma WfTypeIsKnown(v: Value)
    requires WfValue(v)
    ensures 1 <= v.ty <= 18
    ensures v.Nested? <==> IsNested(v.ty)
  {
  }

  // Operations on trees ------------------------------------------------------------

  function Concat(a: Doc, b: Doc): (c: Doc)
    ensures Enc(c) == Enc(a) + Enc(b)
    ensures WfDoc(a) && WfDoc(b) ==> WfDoc(c)
  {
    match a
    case End => b
    case Elem(k, v, rest) =>
      var c := Elem(k, v, Concat(rest, b));
      assert Enc(c) == Enc(a) + Enc(b);
      c
  }

  function Single(k: seq<byte>, v: Value): Doc { Elem(k, v, End) }

  function Keys(d: Doc): set<seq<byte>> {
    if d.End? then {} else {d.key} + Keys(d.rest)
  }

  predicate UniqueKeys(d: Doc) {
    d.Elem? ==> d.key !in Keys(d.rest) && UniqueKeys(d.rest)
  }

  /** The suffix that starts with the first element of this key. */
  function FindKey(d: Doc, key: seq<byte>): (s: Doc)
    ensures s.Elem? <==> key in Keys(d)
    ensures s.Elem? ==> s.key == key
    ensures WfDoc(d) ==> WfDoc(s)
  {
    if d.End? || d.key == key then d else FindKey(d.rest, key)
  }

  /** Nothing before it has the key. */
  lemma {:induction false} FindKeyIsFirst(d: Doc, key: seq<byte>) returns (before: Doc)
    ensures d == Concat(before, FindKey(d, key)) && key !in Keys(before)
  {
    if d.End? || d.key == key {
      before := End;
    } else {
      var front := FindKeyIsFirst(d.rest, key);
      before := Elem(d.key, d.value, front);
    }
  }

  function Depth(d: Doc): nat {
    match d
    case End => 0
    case Elem(_, v, rest) =>
      var here := match v case Atom(_, _) => 0 case Nested(_, doc) => 1 + Depth(doc);
      var there := Depth(rest);
      if here > there then here else there
  }

  // Reading ------------------------------------------------------------------------

  /** `piece` stands in the buffer at `pos`. */
  predicate Holds(data: seq<byte>, pos: nat, piece: seq<byte>) {
    pos + |piece| <= |data| && data[pos..pos + |piece|] == piece
  }

  lemma HoldsConcat(data: seq<byte>, pos: nat, a: seq<byte>, b: seq<byte>)
    ensures Holds(data, pos, a + b) <==> Holds(data, pos, a) && Holds(data, pos + |a|, b)
  {
    if Holds(data, pos, a + b) {
      assert a == (a + b)[..|a|] && b == (a + b)[|a|..];
      assert data[pos..pos + |a|] == data[pos..pos + |a + b|][..|a|];
      assert data[pos + |a|..pos + |a| + |b|] == data[pos..pos + |a + b|][|a|..];
    }
    if Holds(data, pos, a) && Holds(data, pos + |a|, b) {
      assert data[pos..pos + |a + b|] == data[pos..pos + |a|] + data[pos + |a|..pos + |a| + |b|];
    }
  }

  /** The space a value takes, computed from its type and the bytes at `pos` only. */
  function ValueSize(ty: byte, data: seq<byte>, pos: nat): int {
    if FixedSize(ty) >= 0 then FixedSize(ty)
    else if ty == REGEX then
      var n := StrLen(data, pos);
      n + 1 + StrLen(data, pos + n + 1) + 1
    else if pos + 4 > |data| then -1
    else if IsText(ty) then 4 + Int32(data, pos)
    else if ty == BINDATA then 5 + Int32(data, pos)
    else if ty == DBREF then 16 + Int32(data, pos)
    else if IsNested(ty) || ty == CODEWSCOPE then Int32(data, pos)
    else -1
  }

  lemma Int32Prefix(data: seq<byte>, pos: nat, p: seq<byte>)
    requires 4 <= |p| && Holds(data, pos, p)
    ensures Int32(data, pos) == Int32(p, 0)
  {
    var w := data[pos..pos + |p|];
    assert data[pos] == w[0] && data[pos + 1] == w[1] && data[pos + 2] == w[2] && data[pos + 3] == w[3];
  }

  lemma {:induction false} StrLenHolds(data: seq<byte>, pos: nat, p: seq<byte>, n: nat)
    requires Holds(data, pos, p) && n <= |p| && n + StrLen(p, n) < |p|
    ensures StrLen(data, pos + n) == StrLen(p, n)
    decreases |p| - n
  {
    assert data[pos..pos + |p|][n] == data[pos + n];
    if p[n] != 0 {
      StrLenHolds(data, pos, p, n + 1);
    }
  }

  lemma AtomSizeIsRight(ty: byte, p: seq<byte>, data: seq<byte>, pos: nat)
    requires AtomOk(ty, p) && Holds(data, pos, p)
    ensures ValueSize(ty, data, pos) == |p|
  {
    if ty == REGEX {
      StrLenHolds(data, pos, p, 0);
      StrLenHolds(data, pos, p, StrLen(p, 0) + 1);
    } else if FixedSize(ty) < 0 {
      Int32Prefix(data, pos, p);
    }
  }

  lemma EncodeHeader(doc: Doc, data: seq<byte>, pos: nat)
    requires |Enc(doc)| + 5 <= INT_MAX
    requires Holds(data, pos, Encode(doc))
    ensures Int32(data, pos) == |Encode(doc)|
    ensures Holds(data, pos + 4, Enc(doc) + [0])
  {
    var len := LE32(|Enc(doc)| + 5);
    assert Encode(doc) == len + (Enc(doc) + [0]);
    HoldsConcat(data, pos, len, Enc(doc) + [0]);
    Int32At(data, pos, |Enc(doc)| + 5);
  }

  lemma ValueSizeIsRight(v: Value, data: seq<byte>, pos: nat)
    requires WfValue(v) && Holds(data, pos, EncValue(v))
    ensures ValueSize(v.ty, data, pos) == |EncValue(v)|
  {
    match v
    case Atom(ty, p) => AtomSizeIsRight(ty, p, data, pos);
    case Nested(_, doc) => EncodeHeader(doc, data, pos);
  }

  // Unique decoding ------------------------------------------------------------------

  lemma HeaderSplits(k1: seq<byte>, k2: seq<byte>, x: seq<byte>, y: seq<byte>)
    requires NoNul(k1) && NoNul(k2) && k1 + [0] + x == k2 + [0] + y
    ensures k1 == k2 && x == y
  {
    var s := k1 + [0] + x;
    assert s == k2 + [0] + y;
    StrLenAt(s, 0, k1);
    StrLenAt(s, 0, k2);
    assert k1 == s[..|k1|] && k2 == s[..|k2|];
    assert x == s[|k1| + 1..] && y == s[|k2| + 1..];
  }

  lemma ValueSplits(v: Value, w: Value, x: seq<byte>, y: seq<byte>)
    requires WfValue(v) && WfValue(w) && v.ty == w.ty
    requires EncValue(v) + x == EncValue(w) + y
    ensures EncValue(v) == EncValue(w) && x == y
  {
    var t, n, m := EncValue(v) + x, |EncValue(v)|, |EncValue(w)|;
    assert t[0..n] == EncValue(v) && t[0..m] == (EncValue(w) + y)[0..m] == EncValue(w);
    ValueSizeIsRight(v, t, 0);
    ValueSizeIsRight(w, t, 0);
    assert x == t[n..] && y == (EncValue(w) + y)[m..];
  }

  lemma TypedHeaderSplits(t: byte, k: seq<byte>, a: seq<byte>, u: byte, j: seq<byte>, b: seq<byte>)
    requires NoNul(k) && NoNul(j) && Header(t, k) + a == Header(u, j) + b
    ensures t == u && k == j && a == b
  {
    var l, r := Header(t, k) + a, Header(u, j) + b;
    assert l[0] == t && r[0] == u;
    assert l[1..] == k + [0] + a && r[1..] == j + [0] + b;
    HeaderSplits(k, j, a, b);
  }

  lemma ElemSplits(k: seq<byte>, v: Value, j: seq<byte>, w: Value, x: seq<byte>, y: seq<byte>)
    requires NoNul(k) && NoNul(j) && WfValue(v) && WfValue(w)
    requires EncElem(k, v) + x == EncElem(j, w) + y
    ensures k == j && v.ty == w.ty && EncValue(v) == EncValue(w) && x == y
  {
    var a, b := EncValue(v), EncValue(w);
    AssocConcat(Header(v.ty, k), a, x);
    AssocConcat(Header(w.ty, j), b, y);
    TypedHeaderSplits(v.ty, k, a + x, w.ty, j, b + y);
    ValueSplits(v, w, x, y);
  }

  lemma FirstByte(d: Doc, x: seq<byte>)
    ensures (Enc(d) + [0] + x)[0] == TypeOf(d)
  {
  }

  /** The bytes of a document, whatever follows them, determine the tree. */
  lemma {:induction false} DecodingIsUnique(d: Doc, e: Doc, x: seq<byte>, y: seq<byte>)
    requires WfDoc(d) && WfDoc(e)
    requires Enc(d) + [0] + x == Enc(e) + [0] + y
    ensures d == e && x == y
    decreases d
  {
    FirstByte(d, x);
    FirstByte(e, y);
    if d.End? || e.End? {
      assert d.End? && e.End?;
      assert x == (Enc(d) + [0] + x)[1..] && y == (Enc(e) + [0] + y)[1..];
    } else {
      var sd, se := Enc(d.rest) + [0] + x, Enc(e.rest) + [0] + y;
      assert Enc(d) + [0] + x == EncElem(d.key, d.value) + sd;
      assert Enc(e) + [0] + y == EncElem(e.key, e.value) + se;
      ElemSplits(d.key, d.value, e.key, e.value, sd, se);
      DecodingIsUnique(d.rest, e.rest, x, y);
      ValuesAreEqual(d.value, e.value);
    }
  }

  lemma {:induction false} ValuesAreEqual(v: Value, w: Value)
    requires WfValue(v) && WfValue(w) && v.ty == w.ty && EncValue(v) == EncValue(w)
    ensures v == w
    decreases v
  {
    if v.Nested? {
      var a, b := v.doc, w.doc;
      assert Encode(a) == Encode(b);
      BehindLength(a);
      BehindLength(b);
      DecodingIsUnique(a, b, [], []);
    }
  }

  lemma BehindLength(d: Doc)
    ensures Encode(d)[4..] == Enc(d) + [0] + []
  {
    AssocConcat(LE32(|Enc(d)| + 5), Enc(d), [0]);
  }

  lemma EncodeIsInjective(d: Doc, e: Doc)
    requires WfDoc(d) && WfDoc(e) && Encode(d) == Encode(e)
    ensures d == e
  {
    BehindLength(d);
    BehindLength(e);
    DecodingIsUnique(d, e, [], []);
  }
}
