/** Numbers, dates, timestamps and object ids: what the appenders of deps/bson/bson.c write for them, and what the
    iterator reads (types and sizes as in version 1 of bsonspec.org). */
module BsonValues {
  import opened Bytes
  import opened BsonTree
  import opened BsonBuilder
  import opened BsonIterator

  /** A double is its eight bytes, lowest first. */
  datatype Simple =
    | Int(i: int)
    | Long(i: int)
    | Double(bits: seq<byte>)
    | Date(i: int)
    | Timestamp(increment: int, time: int)
    | Oid(id: seq<byte>)
    | Null
    | Undefined

  predicate Fits32(i: int) { -0x8000_0000 <= i < 0x8000_0000 }

  predicate Fits64(i: int) { -0x8000_0000_0000_0000 <= i < 0x8000_0000_0000_0000 }

  predicate InRange(v: Simple) {
    match v
    case Int(i) => Fits32(i)
    case Long(i) => Fits64(i)
    case Double(bits) => |bits| == 8
    case Date(i) => Fits64(i)
    case Timestamp(i, t) => Fits32(i) && Fits32(t)
    case Oid(id) => |id| == 12
    case _ => true
  }

  /** Two's complement, lowest byte first. */
  function Bytes32(i: int): (s: seq<byte>)
    requires Fits32(i)
    ensures |s| == 4
  {
    LE32(if i < 0 then i + 0x1_0000_0000 else i)
  }

  function Bytes64(i: int): (s: seq<byte>)
    requires Fits64(i)
    ensures |s| == 8
  {
    var u := if i < 0 then i + 0x1_0000_0000_0000_0000 else i;
    LE32(u % 0x1_0000_0000) + LE32(u / 0x1_0000_0000)
  }

  /** The value as it stands in a document. */
  function ValueOf(v: Simple): Value
    requires InRange(v)
  {
    match v
    case Int(i) => Atom(16, Bytes32(i))
    case Long(i) => Atom(18, Bytes64(i))
    case Double(bits) => Atom(1, bits)
    case Date(i) => Atom(9, Bytes64(i))
    case Timestamp(i, t) => Atom(17, Bytes32(i) + Bytes32(t))
    case Oid(id) => Atom(7, id)
    case Null => Atom(10, [])
    case Undefined => Atom(6, [])
  }

  // Reading --------------------------------------------------------------------------------------------

  function Int64(data: seq<byte>, pos: nat): int
    requires pos + 8 <= |data|
  {
    var u := U32(data, pos) + 0x1_0000_0000 * U32(data, pos + 4);
    if u < 0x8000_0000_0000_0000 then u else u - 0x1_0000_0000_0000_0000
  }

  lemma U32OfLE32(n: nat)
    requires n < 0x1_0000_0000
    ensures U32(LE32(n), 0) == n
  {
    LE32OnTheWire(n);
  }

  lemma Reads32(i: int)
    requires Fits32(i)
    ensures Int32(Bytes32(i), 0) == i
  {
    U32OfLE32(if i < 0 then i + 0x1_0000_0000 else i);
  }

  lemma Reads64(i: int)
    requires Fits64(i)
    ensures Int64(Bytes64(i), 0) == i
  {
    var u := if i < 0 then i + 0x1_0000_0000_0000_0000 else i;
    var lo, hi := u % 0x1_0000_0000, u / 0x1_0000_0000;
    U32OfLE32(lo);
    U32OfLE32(hi);
    var s := LE32(lo) + LE32(hi);
    assert s[0..4] == LE32(lo) && s[4..8] == LE32(hi);
    assert U32(s, 0) == U32(LE32(lo), 0) && U32(s, 4) == U32(LE32(hi), 0);
  }

  /** bson_iterator_long: integers of either size and dates as numbers, truth as one or zero. Doubles are not
      converted here. */
  function LongAt(v: Value): int
    requires WfValue(v)
  {
    if v.ty == INT then Int32(v.payload, 0)
    else if v.ty == LONG || v.ty == DATE then Int64(v.payload, 0)
    else if v.ty == BOOL then (if v.payload[0] != 0 then 1 else 0)
    else 0
  }

  method ReadLong(it: Iterator, t: byte, ghost e: Doc) returns (i: int)
    requires it.On(e) && e.Elem? && WfValue(e.value) && t == TypeOf(e) && t != DOUBLE
    ensures i == LongAt(e.value)
  {
    AtType(it.data, it.cur, e);
    var _, p := it.Value(e);
    match t
    case 16 => i := Int32(p, 0);
    case 18 => i := Int64(p, 0);
    case 9 => i := Int64(p, 0);
    case 8 => i := if p[0] != 0 then 1 else 0;
    case _ => i := 0;
  }

  /** bson_iterator_timestamp */
  method ReadTimestamp(it: Iterator, ghost e: Doc) returns (increment: int, time: int)
    requires it.On(e) && e.Elem? && WfValue(e.value) && e.value.ty == TIMESTAMP
    ensures increment == Int32(e.value.payload, 0) && time == Int32(e.value.payload, 4)
  {
    AtType(it.data, it.cur, e);
    var _, p := it.Value(e);
    increment, time := Int32(p, 0), Int32(p, 4);
  }

  /** What is written is a well-formed value, so that the iterator finds what follows it, and reads back as
      the same. */
  lemma SimpleRoundTrip(v: Simple)
    requires InRange(v)
    ensures WfValue(ValueOf(v))
    ensures v.Int? || v.Long? || v.Date? ==> LongAt(ValueOf(v)) == v.i
    ensures v.Timestamp? ==>
              var p := ValueOf(v).payload; Int32(p, 0) == v.increment && Int32(p, 4) == v.time
  {
    match v
    case Int(i) => Reads32(i);
    case Long(i) => Reads64(i);
    case Date(i) => Reads64(i);
    case Timestamp(i, t) => StampReads(i, t);
    case _ =>
  }

  lemma StampReads(i: int, t: int)
    requires Fits32(i) && Fits32(t)
    ensures var p := Bytes32(i) + Bytes32(t); Int32(p, 0) == i && Int32(p, 4) == t
  {
    Reads32(i);
    Reads32(t);
    var p := Bytes32(i) + Bytes32(t);
    assert p[0..4] == Bytes32(i) && p[4..8] == Bytes32(t);
    assert U32(p, 0) == U32(Bytes32(i), 0) && U32(p, 4) == U32(Bytes32(t), 0);
  }

  /** The bytes of one such element on the wire. */
  lemma LongOnTheWire()
    ensures EncElem([97], ValueOf(Long(-2))) == [18, 97, 0, 254, 255, 255, 255, 255, 255, 255, 255]
    ensures EncElem([97], ValueOf(Int(258))) == [16, 97, 0, 2, 1, 0, 0]
    ensures EncElem([97], ValueOf(Timestamp(1, 2))) == [17, 97, 0, 1, 0, 0, 0, 2, 0, 0, 0]
  {
  }

  /** Whole documents on the wire: the empty one, and one with a number under "a". */
  lemma DocumentsOnTheWire()
    ensures Encode(End) == [5, 0, 0, 0, 0]
    ensures Encode(Single([97], ValueOf(Int(258)))) == [12, 0, 0, 0, 16, 97, 0, 2, 1, 0, 0, 0]
  {
    var v := ValueOf(Int(258));
    LongOnTheWire();
    assert Enc(Single([97], v)) == EncElem([97], v) + Enc(End);
    assert Enc(End) == [] && |Enc(Single([97], v))| == 7;
  }

  // Appending -------------------------------------------------------------------------------------------

  twostate predicate Appended(b: Bson, ok: bool, name: seq<byte>, v: Value)
    reads b
  {
    && b.Valid() && b.SameKind()
    && b.data == old(b.data) + (if ok then EncElem(name, v) else [])
    && (ok ==> b.err.notUtf8 == old(b.err).notUtf8)
  }


  method AppendInt(b: Bson, name: seq<byte>, i: int) returns (ok: bool)
    requires b.Valid() && Fits32(i) && |b.data| + 6 + |name| <= MAX_DOC
    modifies b`data, b`dataSize, b`storage, b`memory, b`err
    ensures ok == old(b.CanAppend(name, 4)) && Appended(b, ok, name, ValueOf(Int(i)))
  {
    ok := b.AppendEStart(INT, name, 4);
    if ok {
      b.Append(Bytes32(i));
      AssocConcat(old(b.data), Header(INT, name), Bytes32(i));
    }
  }

  method AppendLong(b: Bson, name: seq<byte>, i: int) returns (ok: bool)
    requires b.Valid() && Fits64(i) && |b.data| + 10 + |name| <= MAX_DOC
    modifies b`data, b`dataSize, b`storage, b`memory, b`err
    ensures ok == old(b.CanAppend(name, 8)) && Appended(b, ok, name, ValueOf(Long(i)))
  {
    ok := b.AppendEStart(LONG, name, 8);
    if ok {
      b.Append(Bytes64(i));
      AssocConcat(old(b.data), Header(LONG, name), Bytes64(i));
    }
  }

  method AppendDouble(b: Bson, name: seq<byte>, bits: seq<byte>) returns (ok: bool)
    requires b.Valid() && |bits| == 8 && |b.data| + 10 + |name| <= MAX_DOC
    modifies b`data, b`dataSize, b`storage, b`memory, b`err
    ensures ok == old(b.CanAppend(name, 8)) && Appended(b, ok, name, ValueOf(Double(bits)))
  {
    ok := b.AppendEStart(DOUBLE, name, 8);
    if ok {
      b.Append(bits);
      AssocConcat(old(b.data), Header(DOUBLE, name), bits);
    }
  }

  method AppendDate(b: Bson, name: seq<byte>, millis: int) returns (ok: bool)
    requires b.Valid() && Fits64(millis) && |b.data| + 10 + |name| <= MAX_DOC
    modifies b`data, b`dataSize, b`storage, b`memory, b`err
    ensures ok == old(b.CanAppend(name, 8)) && Appended(b, ok, name, ValueOf(Date(millis)))
  {
    ok := b.AppendEStart(DATE, name, 8);
    if ok {
      b.Append(Bytes64(millis));
      AssocConcat(old(b.data), Header(DATE, name), Bytes64(millis));
    }
  }

  method AppendTimestamp(b: Bson, name: seq<byte>, increment: int, time: int) returns (ok: bool)
    requires b.Valid() && Fits32(increment) && Fits32(time) && |b.data| + 10 + |name| <= MAX_DOC
    modifies b`data, b`dataSize, b`storage, b`memory, b`err
    ensures ok == old(b.CanAppend(name, 8)) && Appended(b, ok, name, ValueOf(Timestamp(increment, time)))
  {
    ok := b.AppendEStart(TIMESTAMP, name, 8);
    if ok {
      ghost var head := b.data;
      b.Append(Bytes32(increment));
      b.Append(Bytes32(time));
      AssocConcat(head, Bytes32(increment), Bytes32(time));
      AssocConcat(old(b.data), Header(TIMESTAMP, name), Bytes32(increment) + Bytes32(time));
    }
  }

  method AppendOid(b: Bson, name: seq<byte>, id: seq<byte>) returns (ok: bool)
    requires b.Valid() && |id| == 12 && |b.data| + 14 + |name| <= MAX_DOC
    modifies b`data, b`dataSize, b`storage, b`memory, b`err
    ensures ok == old(b.CanAppend(name, 12)) && Appended(b, ok, name, ValueOf(Oid(id)))
  {
    ok := b.AppendEStart(OID, name, 12);
    if ok {
      b.Append(id);
      AssocConcat(old(b.data), Header(OID, name), id);
    }
  }

  method AppendEmpty(b: Bson, name: seq<byte>, v: Simple) returns (ok: bool)
    requires b.Valid() && (v.Null? || v.Undefined?) && |b.data| + 2 + |name| <= MAX_DOC
    modifies b`data, b`dataSize, b`storage, b`memory, b`err
    ensures ok == old(b.CanAppend(name, 0)) && Appended(b, ok, name, ValueOf(v))
  {
    ok := b.AppendEStart(if v.Null? then NULLTYPE else UNDEFINED, name, 0);
    assert ok ==> EncElem(name, ValueOf(v)) == Header(ValueOf(v).ty, name) + [];
  }
}
