/** Single fields of a document: what they look like when they are written, and how they are read. */
module BsonFields {
  import opened Basics
  import opened Bytes
  import opened Utf8
  import opened BsonTree
  import opened BsonIterator
  import opened BsonPath
  import opened BsonBuilder

  /** A string that ends within an array of `size` bytes. */
  predicate FitsText(s: seq<byte>, size: nat) { NoNul(s) && ValidUtf8(s) && |s| < size }

  predicate IsAscii(s: seq<byte>) { forall i :: 0 <= i < |s| ==> 0 < s[i] < 128 }

  function BinaryElem(key: seq<byte>, value: seq<byte>, rest: Doc): Doc {
    Elem(key, Atom(BINDATA, BinaryPayload(value)), rest)
  }

  /** bson_iterator_bin_data and bson_iterator_bin_len: the old subtype has a second length. */
  function BinData(p: seq<byte>): seq<byte>
    requires AtomOk(BINDATA, p)
  {
    if p[4] == 2 then p[9..] else p[5..]
  }

  /** bson_iterator_string, copied with strncpy into an array of `size` bytes. */
  function TextData(p: seq<byte>, size: nat): (s: seq<byte>)
    requires 5 <= |p|
    ensures |s| <= size
  {
    var n := StrLen(p, 4);
    StrLenBound(p, 4);
    p[4..4 + if n < size then n else size]
  }

  function BinaryAt(d: Doc): Option<seq<byte>>
    requires WfDoc(d)
  {
    if TypeOf(d) == BINDATA then
      assert WfValue(d.value) && !IsNested(BINDATA);
      Some(BinData(d.value.payload))
    else None
  }

  function TextAt(d: Doc, size: nat): Option<seq<byte>>
    requires WfDoc(d)
  {
    if TypeOf(d) == STRING then
      assert WfValue(d.value) && !IsNested(STRING);
      Some(TextData(d.value.payload, size))
    else None
  }

  lemma {:induction false} SearchIsWf(d: Doc, prefix: seq<byte>, path: seq<byte>)
    requires WfDoc(d)
    ensures WfDoc(Search(d, prefix, path))
  {
    if d.Elem? {
      if d.value.Nested? {
        SearchIsWf(d.value.doc, Join(prefix, d.key), path);
      }
      SearchIsWf(d.rest, prefix, path);
    }
  }

  function Found(d: Doc, path: seq<byte>): (e: Doc)
    requires WfDoc(d)
    ensures WfDoc(e)
  {
    SearchIsWf(d, [], path);
    Search(d, [], path)
  }

  lemma BinaryIsRead(v: seq<byte>)
    requires |v| <= 0x1_0000
    ensures AtomOk(BINDATA, BinaryPayload(v)) && BinData(BinaryPayload(v)) == v
  {
    LE32RoundTrip(|v|);
    Int32At(BinaryPayload(v), 0, |v|);
  }

  lemma TextIsRead(v: seq<byte>, size: nat)
    requires NoNul(v) && |v| < size <= 0x1_0000
    ensures AtomOk(STRING, TextPayload(v)) && TextData(TextPayload(v), size) == v
  {
    var p := TextPayload(v);
    Int32At(p, 0, |v| + 1);
    assert p[4..4 + |v|] == v;
    StrLenAt(p, 4, v);
  }

  lemma AtomLength(key: seq<byte>, ty: byte, p: seq<byte>, rest: Doc)
    ensures |Enc(Elem(key, Atom(ty, p), rest))| == |key| + 2 + |p| + |Enc(rest)|
  {
    assert EncElem(key, Atom(ty, p)) == Header(ty, key) + p;
  }

  lemma {:induction false} AsciiIsValid(s: seq<byte>)
    requires IsAscii(s)
    ensures NoNul(s) && ValidUtf8(s)
  {
    if s != [] {
      assert s[..1] == [s[0]] && IsLegalUtf8(s[..1]);
      AsciiIsValid(s[1..]);
    }
  }

  lemma TextIsBuildable(v: seq<byte>, ty: byte)
    requires ValidUtf8(v) && BsonTree.IsText(ty)
    ensures Buildable(ty, TextPayload(v))
  {
    var p := TextPayload(v);
    assert p[4..|p| - 1] == v;
  }

  lemma BinaryIsBuildable(v: seq<byte>)
    ensures Buildable(BINDATA, BinaryPayload(v))
  {
    assert BinaryPayload(v)[5..] == v;
  }

  lemma Moved(raw: seq<byte>, e: seq<byte>, rest: seq<byte>, all: seq<byte>)
    requires raw + (e + rest) == all
    ensures (raw + e) + rest == all
  {
    AssocConcat(raw, e, rest);
  }

  /** The binary data under the cursor, if it stands on binary data. */
  method ReadBinary(it: Iterator, t: byte, ghost e: Doc) returns (r: Option<seq<byte>>)
    requires it.On(e) && t == TypeOf(e)
    ensures r == BinaryAt(e)
  {
    if t != BINDATA {
      return None;
    }
    AtType(it.data, it.cur, e);
    assert WfValue(e.value);
    var _, p := it.Value(e);
    r := Some(BinData(p));
  }

  method ReadText(it: Iterator, t: byte, size: nat, ghost e: Doc) returns (r: Option<seq<byte>>)
    requires it.On(e) && t == TypeOf(e)
    ensures r == TextAt(e, size)
  {
    if t != STRING {
      return None;
    }
    AtType(it.data, it.cur, e);
    assert WfValue(e.value);
    var _, p := it.Value(e);
    r := Some(TextData(p, size));
  }

  method FindByPath(buffer: seq<byte>, path: seq<byte>, ghost d: Doc) returns (it: Iterator, t: byte)
    requires DocAt(buffer, 0, d)
    ensures fresh(it) && it.On(Found(d, path)) && t == TypeOf(Found(d, path))
  {
    DocStart(buffer, 0, d);
    it := new Iterator.FromBuffer(buffer, 0);
    t := FindFieldPathValue(path, it, d);
    SearchIsFirstInPreorder(d, [], path);
  }

  lemma WholeIsClosed(head: seq<byte>, d: Doc)
    requires |head| == 4
    ensures Closed(head + Enc(d), 0) == Encode(d)
  {
    assert [] + head + Enc(d) == head + Enc(d);
    ClosedIsEncoded([], head, d);
    assert [] + Encode(d) == Encode(d);
  }

  /** Header, open length, elements, terminator and patched length make up an array element. */
  lemma ArrayIsWritten(raw: seq<byte>, key: seq<byte>, d: Doc)
    ensures var head := raw + Header(ARRAY, key);
            && (raw + (Header(ARRAY, key) + ZERO)) + Enc(d) == head + ZERO + Enc(d)
            && |head| == |raw| + |key| + 2 && |head + ZERO + Enc(d)| == |raw| + |key| + 6 + |Enc(d)|
            && Closed(head + ZERO + Enc(d), |head|) == raw + EncElem(key, Nested(ARRAY, d))
  {
    var head := raw + Header(ARRAY, key);
    AssocConcat(raw, Header(ARRAY, key), ZERO);
    ClosedIsEncoded(head, ZERO, d);
    AssocConcat(raw, Header(ARRAY, key), Encode(d));
  }
}
