/** The cursor of deps/bson/bson.c over the bytes of a document, and the searches by key. */
module BsonIterator {
  import opened Bytes
  import opened BsonTree

  /** The elements of `d` and their terminator stand in the buffer at `cur`. */
  ghost predicate At(data: seq<byte>, cur: nat, d: Doc) {
    Holds(data, cur, Enc(d) + [0]) && WfDoc(d)
  }

  /** A whole document stands in the buffer at `pos`. */
  ghost predicate DocAt(data: seq<byte>, pos: nat, d: Doc) {
    Holds(data, pos, Encode(d)) && WfRoot(d)
  }

  lemma DocStart(data: seq<byte>, pos: nat, d: Doc)
    requires DocAt(data, pos, d)
    ensures At(data, pos + 4, d) && Int32(data, pos) == |Encode(d)|
  {
    EncodeHeader(d, data, pos);
  }

  function ValuePos(cur: nat, d: Doc): nat
    requires d.Elem?
  {
    cur + 2 + |d.key|
  }

  lemma AtType(data: seq<byte>, cur: nat, d: Doc)
    requires At(data, cur, d)
    ensures cur < |data| && data[cur] == TypeOf(d)
    ensures TypeOf(d) == EOO <==> d.End?
    ensures d.Elem? ==> (IsNested(TypeOf(d)) <==> d.value.Nested?)
    ensures d.Elem? ==> WfValue(d.value) && NoNul(d.key) && WfDoc(d.rest)
  {
    var w := data[cur..cur + |Enc(d) + [0]|];
    assert data[cur] == w[0];
    if d.Elem? {
      assert WfValue(d.value);
      WfTypeIsKnown(d.value);
      assert (Enc(d) + [0])[0] == Header(d.value.ty, d.key)[0];
    }
  }

  lemma AtHeader(data: seq<byte>, cur: nat, ty: byte, key: seq<byte>)
    requires NoNul(key) && Holds(data, cur, Header(ty, key))
    ensures StrLen(data, cur + 1) == |key|
    ensures data[cur + 1..cur + 1 + |key|] == key
  {
    var w := data[cur..cur + |key| + 2];
    assert w == Header(ty, key) && w[1..1 + |key|] == key;
    assert forall i :: 0 <= i < |key| + 2 ==> w[i] == data[cur + i];
    assert data[cur + 1..cur + 1 + |key|] == w[1..1 + |key|];
    assert w[1 + |key|] == 0;
    StrLenAt(data, cur + 1, key);
  }

  lemma ElemBytes(d: Doc)
    requires d.Elem?
    ensures Enc(d) + [0] == Header(d.value.ty, d.key) + (EncValue(d.value) + (Enc(d.rest) + [0]))
  {
    var h, v := Header(d.value.ty, d.key), EncValue(d.value);
    assert Enc(d) == (h + v) + Enc(d.rest);
    AssocConcat(h + v, Enc(d.rest), [0]);
    AssocConcat(h, v, Enc(d.rest) + [0]);
  }

  lemma HoldsThree(data: seq<byte>, pos: nat, h: seq<byte>, v: seq<byte>, r: seq<byte>)
    requires Holds(data, pos, h + (v + r))
    ensures Holds(data, pos, h) && Holds(data, pos + |h|, v) && Holds(data, pos + |h| + |v|, r)
  {
    HoldsConcat(data, pos, h, v + r);
    HoldsConcat(data, pos + |h|, v, r);
  }

  lemma AtParts(data: seq<byte>, cur: nat, d: Doc)
    requires At(data, cur, d) && d.Elem?
    ensures Holds(data, cur, Header(d.value.ty, d.key)) && Holds(data, ValuePos(cur, d), EncValue(d.value))
    ensures Holds(data, ValuePos(cur, d) + |EncValue(d.value)|, Enc(d.rest) + [0])
  {
    var h, v, r := Header(d.value.ty, d.key), EncValue(d.value), Enc(d.rest) + [0];
    ElemBytes(d);
    HoldsThree(data, cur, h, v, r);
    assert |h| == 2 + |d.key|;
  }

  /** What stands where, when the cursor is on an element. */
  lemma AtElem(data: seq<byte>, cur: nat, d: Doc)
    requires At(data, cur, d) && d.Elem?
    ensures StrLen(data, cur + 1) == |d.key|
    ensures cur + 1 + |d.key| <= |data| && data[cur + 1..cur + 1 + |d.key|] == d.key
    ensures Holds(data, ValuePos(cur, d), EncValue(d.value))
    ensures ValueSize(d.value.ty, data, ValuePos(cur, d)) == |EncValue(d.value)|
    ensures At(data, ValuePos(cur, d) + |EncValue(d.value)|, d.rest)
  {
    AtParts(data, cur, d);
    AtHeader(data, cur, d.value.ty, d.key);
    ValueSizeIsRight(d.value, data, ValuePos(cur, d));
  }

  lemma AtFirstByte(data: seq<byte>, cur: nat, d: Doc)
    requires At(data, cur, d)
    ensures cur < |data| && data[cur] == TypeOf(d) && (data[cur] == EOO <==> d.End?)
  {
    AtType(data, cur, d);
  }

  /** Where the next element starts, from what the bytes say. */
  function NextCur(data: seq<byte>, cur: nat): int
    requires cur < |data|
  {
    var klen := StrLen(data, cur + 1);
    cur + (1 + klen + 1 + ValueSize(data[cur], data, cur + 1 + klen + 1))
  }

  /** The step from one element to the next, from what the bytes say. */
  lemma AtNext(data: seq<byte>, cur: nat, d: Doc)
    requires At(data, cur, d) && d.Elem?
    ensures cur < |data| && cur < NextCur(data, cur) < |data|
    ensures At(data, NextCur(data, cur), d.rest) && data[NextCur(data, cur)] == TypeOf(d.rest)
  {
    NextCurIs(data, cur, d);
    AtElem(data, cur, d);
    AtFirstByte(data, NextCur(data, cur), d.rest);
  }

  lemma NextCurIs(data: seq<byte>, cur: nat, d: Doc)
    requires At(data, cur, d) && d.Elem?
    ensures cur < |data| && NextCur(data, cur) == ValuePos(cur, d) + |EncValue(d.value)|
  {
    AtFirstByte(data, cur, d);
    AtElem(data, cur, d);
    assert cur + 1 + StrLen(data, cur + 1) + 1 == ValuePos(cur, d);
  }

  /** The position after one call of Next. */
  function Advance(first: bool, d: Doc): Doc {
    if first || d.End? then d else d.rest
  }

  class Iterator {
    const data: seq<byte>
    var cur: nat
    var first: bool

    /** BSON_ITERATOR_FROM_BUFFER, for a document that starts at `pos`. */
    constructor FromBuffer(buffer: seq<byte>, pos: nat)
      ensures data == buffer && cur == pos + 4 && first
    {
      data, cur, first := buffer, pos + 4, true;
    }

    ghost predicate On(d: Doc)
      reads this
    {
      At(data, cur, d)
    }

    /** Types outside the grammar, on which the source stops, do not occur in a well-formed document. */
    method Next(ghost d: Doc) returns (t: byte)
      requires On(d)
      modifies this
      ensures !first && On(Advance(old(first), d)) && t == TypeOf(Advance(old(first), d))
    {
      AtFirstByte(data, cur, d);
      if first {
        first := false;
        return data[cur];
      }
      if data[cur] == EOO {
        return EOO;
      }
      AtNext(data, cur, d);
      var klen := StrLen(data, cur + 1);
      var ds := ValueSize(data[cur], data, cur + 1 + klen + 1);
      cur := cur + (1 + klen + 1 + ds);
      return data[cur];
    }

    /** bson_iterator_type */
    method Type(ghost d: Doc) returns (t: byte)
      requires On(d)
      ensures t == TypeOf(d)
    {
      AtType(data, cur, d);
      return data[cur];
    }

    /** bson_iterator_key */
    method Key(ghost d: Doc) returns (key: seq<byte>)
      requires On(d) && d.Elem?
      ensures key == d.key
    {
      AtElem(data, cur, d);
      return data[cur + 1..cur + 1 + StrLen(data, cur + 1)];
    }

    /** bson_iterator_value, as an offset, and the bytes of the value there. */
    method Value(ghost d: Doc) returns (pos: nat, bytes: seq<byte>)
      requires On(d) && d.Elem?
      ensures pos == ValuePos(cur, d) && bytes == EncValue(d.value)
      ensures Holds(data, pos, bytes)
    {
      AtType(data, cur, d);
      AtElem(data, cur, d);
      pos := cur + 1 + StrLen(data, cur + 1) + 1;
      bytes := data[pos..pos + ValueSize(data[cur], data, pos)];
    }

    /** BSON_ITERATOR_SUBITERATOR */
    method SubIterator(ghost d: Doc) returns (sit: Iterator)
      requires On(d) && d.Elem? && d.value.Nested?
      ensures fresh(sit) && sit.data == data && sit.first && sit.On(d.value.doc)
    {
      var pos, bytes := Value(d);
      AtType(data, cur, d);
      assert WfValue(d.value);
      EncodeHeader(d.value.doc, data, pos);
      sit := new Iterator.FromBuffer(data, pos);
    }
  }

  /** bson_find_from_buffer and bson_find: the first top-level element with this key. */
  method FindFromBuffer(buffer: seq<byte>, pos: nat, name: seq<byte>, ghost d: Doc)
    returns (it: Iterator, t: byte)
    requires DocAt(buffer, pos, d)
    ensures fresh(it) && it.data == buffer && it.On(FindKey(d, name)) && t == TypeOf(FindKey(d, name))
  {
    DocStart(buffer, pos, d);
    it := new Iterator.FromBuffer(buffer, pos);
    ghost var here := d;
    t := it.Next(here);
    while t != EOO
      invariant fresh(it) && !it.first && it.data == buffer && it.On(here) && t == TypeOf(here)
      invariant FindKey(d, name) == FindKey(here, name)
      decreases here
    {
      AtType(buffer, it.cur, here);
      var key := it.Key(here);
      if key == name {
        t := it.Type(here);
        return;
      }
      t := it.Next(here);
      here := here.rest;
    }
    AtType(buffer, it.cur, here);
  }

  /** Walking the bytes of a document with iterators gives back the tree. */
  method ReadDoc(it: Iterator, ghost d: Doc) returns (tree: Doc)
    requires it.On(d) && !it.first
    modifies it
    ensures tree == d
    decreases d
  {
    AtType(it.data, it.cur, d);
    var t := it.Type(d);
    if t == EOO {
      return End;
    }
    var key := it.Key(d);
    var value: Value;
    if IsNested(t) {
      var sit := it.SubIterator(d);
      var _ := sit.Next(d.value.doc);
      var doc := ReadDoc(sit, d.value.doc);
      value := Nested(t, doc);
    } else {
      var _, bytes := it.Value(d);
      value := Atom(t, bytes);
    }
    var _ := it.Next(d);
    var rest := ReadDoc(it, d.rest);
    return Elem(key, value, rest);
  }
}
