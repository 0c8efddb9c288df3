/** Copying elements from an iterator into a builder, as deps/bson/bson.c does it. */
module BsonCopy {
  import opened Bytes
  import opened Utf8
  import opened BsonTree
  import opened BsonBuilder
  import opened BsonIterator

  // What the copier keeps ------------------------------------------------------------

  /** The C string inside a text payload. */
  function TextOf(p: seq<byte>): seq<byte>
    requires 5 <= |p|
  {
    StrLenBound(p, 4);
    p[4..4 + StrLen(p, 4)]
  }

  /** The bytes a copied value has in the new document. Values the copier has no case for vanish. */
  function CopyAtom(ty: byte, p: seq<byte>): (r: seq<seq<byte>>)
    requires AtomOk(ty, p)
    ensures |r| <= 1
    ensures |r| == 0 <==> ty == DBREF || ty == CODEWSCOPE
  {
    if ty == BOOL then [[if p[0] != 0 then 1 else 0]]
    else if FixedSize(ty) >= 0 then [p]
    else if IsText(ty) then [TextPayload(TextOf(p))]
    else if ty == BINDATA then [BinaryPayload(if p[4] == 2 then p[9..] else p[5..])]
    else if ty == REGEX then [RegexPayload(RegexOf(p).0, RegexOf(p).1)]
    else []
  }

  /** What a caller can look at to know that a value survives a copy. */
  predicate CopyableAtom(ty: byte, p: seq<byte>)
    requires AtomOk(ty, p)
  {
    && ty != DBREF && ty != CODEWSCOPE
    && (ty == BOOL ==> p[0] <= 1)
    && (ty == BINDATA ==> p[4] == 0)
    && (IsText(ty) ==> forall i :: 4 <= i < |p| - 1 ==> p[i] != 0)
  }

  lemma LE32Inverse(p: seq<byte>)
    requires 4 <= |p| && 0 <= Int32(p, 0)
    ensures p[..4] == LE32(Int32(p, 0))
  {
    assert U32(p[..4], 0) == U32(p, 0);
    LE32OfU32(p[..4]);
  }

  lemma {:induction false} ShortText(data: seq<byte>, pos: nat, i: nat)
    requires pos <= i < |data| && data[i] == 0
    ensures pos + StrLen(data, pos) <= i
    decreases i - pos
  {
    if pos < i && data[pos] != 0 {
      ShortText(data, pos + 1, i);
    }
  }

  lemma TextIsCopied(ty: byte, p: seq<byte>)
    requires IsText(ty) && AtomOk(ty, p)
    ensures TextPayload(TextOf(p)) == p <==> forall i :: 4 <= i < |p| - 1 ==> p[i] != 0
  {
    LE32Inverse(p);
    StrLenBound(p, 4);
    var s := p[4..|p| - 1];
    if forall i :: 4 <= i < |p| - 1 ==> p[i] != 0 {
      StrLenAt(p, 4, s);
      assert p == p[..4] + s + [0];
    } else {
      var i :| 4 <= i < |p| - 1 && p[i] == 0;
      ShortText(p, 4, i);
    }
  }

  /** Exactly which values the copier reproduces. */
  lemma CopyIsExactIff(ty: byte, p: seq<byte>)
    requires AtomOk(ty, p)
    ensures CopyAtom(ty, p) == [p] <==> CopyableAtom(ty, p)
  {
    if IsText(ty) {
      TextIsCopied(ty, p);
    } else if ty == BINDATA {
      LE32Inverse(p);
      assert p == p[..4] + [p[4]] + p[5..];
    } else if ty == REGEX {
      RegexSplits(p);
    } else if ty == BOOL {
      assert p == [p[0]];
    }
  }

  /** The text of a value ends at its first terminator. */
  lemma TextMeans(p: seq<byte>)
    requires 5 <= |p| && p[|p| - 1] == 0
    ensures var t := TextOf(p); 4 + |t| < |p| && p[4..4 + |t|] == t && NoNul(t) && p[4 + |t|] == 0
  {
    StrLenBound(p, 4);
    ShortText(p, 4, |p| - 1);
  }

  /** A copied value of any kind has the content of the original: text up to its end, data behind either kind of
      header, truth. */
  lemma CopyKeepsContent(ty: byte, p: seq<byte>)
    requires AtomOk(ty, p) && CopyAtom(ty, p) != []
    ensures IsText(ty) ==> CopyAtom(ty, p)[0] == LE32(|TextOf(p)| + 1) + TextOf(p) + [0]
    ensures ty == 5 ==>
              var data := if p[4] == 2 then p[9..] else p[5..]; CopyAtom(ty, p)[0] == LE32(|data|) + [0] + data
    ensures ty == 8 ==> CopyAtom(ty, p)[0] == [if p[0] == 0 then 0 else 1]
    ensures !IsText(ty) && ty != 5 && ty != 8 ==> CopyAtom(ty, p)[0] == p
  {
    if ty == REGEX {
      RegexSplits(p);
    }
  }

  function CopyDoc(d: Doc): Doc
    requires WfDoc(d)
  {
    match d
    case End => End
    case Elem(k, v, rest) =>
      assert WfValue(v);
      match v
      case Atom(ty, p) =>
        if CopyAtom(ty, p) == [] then CopyDoc(rest) else Elem(k, Atom(ty, CopyAtom(ty, p)[0]), CopyDoc(rest))
      case Nested(ty, doc) => Elem(k, Nested(ty, CopyDoc(doc)), CopyDoc(rest))
  }

  predicate CopyableDoc(d: Doc)
    requires WfDoc(d)
  {
    d.Elem? ==>
      && (assert WfValue(d.value);
          match d.value
          case Atom(ty, p) => CopyableAtom(ty, p)
          case Nested(_, doc) => CopyableDoc(doc))
      && CopyableDoc(d.rest)
  }

  /** A document is copied unchanged exactly when all its values survive. */
  lemma {:induction false} CopyDocIsExactIff(d: Doc)
    requires WfDoc(d)
    ensures CopyDoc(d) == d <==> CopyableDoc(d)
    ensures Size(CopyDoc(d)) <= Size(d)
    decreases d
  {
    if d.Elem? {
      assert WfValue(d.value);
      CopyDocIsExactIff(d.rest);
      match d.value {
        case Atom(ty, p) =>
          CopyIsExactIff(ty, p);
        case Nested(_, doc) =>
          CopyDocIsExactIff(doc);
      }
    }
  }

  /** The number of elements, nested ones included. */
  function Size(d: Doc): nat {
    match d
    case End => 0
    case Elem(_, v, rest) => 1 + (if v.Nested? then Size(v.doc) else 0) + Size(rest)
  }

  lemma {:induction false} CopyIsNoLonger(d: Doc)
    requires WfDoc(d)
    ensures |Enc(CopyDoc(d))| <= |Enc(d)| && Depth(CopyDoc(d)) <= Depth(d)
    decreases d
  {
    if d.Elem? {
      assert WfValue(d.value);
      CopyIsNoLonger(d.rest);
      assert |Enc(d)| == |Header(d.value.ty, d.key)| + |EncValue(d.value)| + |Enc(d.rest)|;
      match d.value {
        case Atom(ty, p) =>
          if CopyAtom(ty, p) != [] {
            AtomIsNoLonger(ty, p);
            var c := CopyDoc(d);
            assert |Enc(c)| == |Header(ty, d.key)| + |EncValue(c.value)| + |Enc(CopyDoc(d.rest))|;
          }
        case Nested(ty, doc) =>
          CopyIsNoLonger(doc);
          var c := CopyDoc(d);
          assert |EncValue(d.value)| == |Enc(doc)| + 5 && |EncValue(c.value)| == |Enc(CopyDoc(doc))| + 5;
          assert |Enc(c)| == |Header(ty, d.key)| + |EncValue(c.value)| + |Enc(CopyDoc(d.rest))|;
      }
    }
  }

  lemma AtomIsNoLonger(ty: byte, p: seq<byte>)
    requires AtomOk(ty, p) && CopyAtom(ty, p) != []
    ensures |CopyAtom(ty, p)[0]| <= |p|
  {
    if IsText(ty) {
      ShortText(p, 4, |p| - 1);
    } else if ty == REGEX {
      RegexSplits(p);
    }
  }

  // The copier -----------------------------------------------------------------------------

  /** Keys and texts that the builder's UTF-8 check lets through. */
  predicate Utf8Value(v: Value)
    requires WfValue(v)
    decreases v, 0
  {
    match v
    case Atom(ty, p) => (IsText(ty) ==> ValidUtf8(TextOf(p))) && (ty == REGEX ==> ValidUtf8(RegexOf(p).0))
    case Nested(_, doc) => Utf8Doc(doc)
  }

  predicate Utf8Doc(d: Doc)
    requires WfDoc(d)
    decreases d, 1
  {
    d.Elem? ==> ValidUtf8(d.key) && (assert WfValue(d.value); Utf8Value(d.value)) && Utf8Doc(d.rest)
  }

  /** One element, copied: empty when the copier has no case for its type. */
  function CopyElem(k: seq<byte>, v: Value): Doc
    requires NoNul(k) && WfValue(v)
  {
    CopyDoc(Single(k, v))
  }

  lemma CopyOfElem(d: Doc)
    requires WfDoc(d) && d.Elem? && WfValue(d.value)
    ensures CopyDoc(d) == Concat(CopyElem(d.key, d.value), CopyDoc(d.rest))
    ensures Enc(CopyDoc(d)) == Enc(CopyElem(d.key, d.value)) + Enc(CopyDoc(d.rest))
  {
    var s, c := Single(d.key, d.value), CopyElem(d.key, d.value);
    assert s.rest == End && CopyDoc(s.rest) == End;
    if c.Elem? {
      assert Concat(End, CopyDoc(d.rest)) == CopyDoc(d.rest);
    }
  }

  lemma EncSingle(k: seq<byte>, v: Value)
    ensures Enc(Single(k, v)) == EncElem(k, v)
  {
    assert Enc(End) == [];
  }

  lemma CopyOfAtom(k: seq<byte>, ty: byte, p: seq<byte>)
    requires NoNul(k) && AtomOk(ty, p)
    ensures Enc(CopyElem(k, Atom(ty, p))) ==
            if CopyAtom(ty, p) == [] then [] else EncElem(k, Atom(ty, CopyAtom(ty, p)[0]))
  {
    var d := Single(k, Atom(ty, p));
    assert CopyDoc(d.rest) == End;
    if CopyAtom(ty, p) != [] {
      assert CopyDoc(d) == Single(k, Atom(ty, CopyAtom(ty, p)[0]));
      EncSingle(k, Atom(ty, CopyAtom(ty, p)[0]));
    }
  }

  lemma CopyOfNested(k: seq<byte>, ty: byte, doc: Doc)
    requires NoNul(k) && WfValue(Nested(ty, doc))
    ensures Enc(CopyElem(k, Nested(ty, doc))) == Header(ty, k) + Encode(CopyDoc(doc))
  {
    var d := Single(k, Nested(ty, doc));
    assert CopyDoc(d.rest) == End;
    assert CopyDoc(d) == Single(k, Nested(ty, CopyDoc(doc)));
    EncSingle(k, Nested(ty, CopyDoc(doc)));
  }

  /** A builder that will not refuse: it can grow and has no error from before. */
  ghost predicate Ready(b: Bson)
    reads b
  {
    b.Valid() && !b.finished && b.storage != External && !b.err.notUtf8
  }

  /** A buffer of the library's own stays one. */
  twostate predicate StaysReady(b: Bson)
    reads b
  {
    Ready(b) && (old(b.storage) == Heap ==> b.storage == Heap)
  }

  lemma CopyAtomFits(ty: byte, p: seq<byte>)
    requires AtomOk(ty, p)
    ensures IsText(ty) ==> 5 + |TextOf(p)| <= |p|
    ensures ty == REGEX ==> 2 + |RegexOf(p).0| + |RegexOf(p).1| == |p|
  {
    if IsText(ty) {
      ShortText(p, 4, |p| - 1);
    } else if ty == REGEX {
      RegexSplits(p);
    }
  }

  /** The cases of bson_append_field_from_iterator2 for values without elements. */
  method CopyAtomField(key: seq<byte>, ty: byte, p: seq<byte>, into: Bson)
    requires Ready(into) && AtomOk(ty, p) && NoNul(key) && ValidUtf8(key) && Utf8Value(Atom(ty, p))
    requires |into.data| + 2 + |key| + |p| <= MAX_DOC
    modifies into`data, into`dataSize, into`storage, into`memory, into`err
    ensures StaysReady(into)
    ensures into.data == old(into.data) + Enc(CopyElem(key, Atom(ty, p)))
  {
    CopyOfAtom(key, ty, p);
    CopyAtomFits(ty, p);
    if IsText(ty) {
      var _ := into.AppendStringBase(key, TextOf(p), ty);
    } else if ty == BINDATA {
      var _ := into.AppendBinary(key, if p[4] == 2 then p[9..] else p[5..]);
    } else if ty == BOOL {
      var _ := into.AppendBool(key, p[0]);
    } else if ty == REGEX {
      var _ := into.AppendRegex(key, RegexOf(p).0, RegexOf(p).1);
    } else if ty == DBREF || ty == CODEWSCOPE {
      // no case for these types
    } else {
      var _ := into.AppendFixed(ty, key, p);
    }
  }

  /** bson_append_field_from_iterator. */
  method CopyField(from: Iterator, into: Bson, ghost d: Doc)
    requires from.On(d) && d.Elem? && WfValue(d.value)
    requires ValidUtf8(d.key) && Utf8Value(d.value)
    requires Ready(into) && |into.stack| + Depth(Single(d.key, d.value)) <= STACK_SIZE
    requires |into.data| + |Header(d.value.ty, d.key)| + |EncValue(d.value)| <= MAX_DOC
    modifies into
    ensures StaysReady(into) && into.stack == old(into.stack)
    ensures into.data == old(into.data) + Enc(CopyElem(d.key, d.value))
    decreases d, 0
  {
    AtType(from.data, from.cur, d);
    var t := from.Type(d);
    var key := from.Key(d);
    if IsNested(t) {
      var sit := from.SubIterator(d);
      assert |EncValue(d.value)| == |Enc(d.value.doc)| + 5;
      CopyNested(key, t, sit, into, d.value.doc);
      CopyOfNested(key, t, d.value.doc);
    } else {
      var _, p := from.Value(d);
      CopyAtomField(key, t, p, into);
    }
  }

  /** The cases of bson_append_field_from_iterator2 for objects and arrays. */
  method CopyNested(key: seq<byte>, t: byte, sit: Iterator, into: Bson, ghost doc: Doc)
    requires sit.first && sit.On(doc) && Utf8Doc(doc) && WfValue(Nested(t, doc))
    requires NoNul(key) && ValidUtf8(key)
    requires Ready(into) && |into.stack| + 1 + Depth(doc) <= STACK_SIZE
    requires |into.data| + 7 + |key| + |Enc(doc)| <= MAX_DOC
    modifies into, sit
    ensures StaysReady(into) && into.stack == old(into.stack)
    ensures into.data == old(into.data) + (Header(t, key) + Encode(CopyDoc(doc)))
    decreases doc, 2
  {
    ghost var raw, c := into.data + Header(t, key), CopyDoc(doc);
    CopyIsNoLonger(doc);
    var _ := into.AppendStart(t, key);
    AssocConcat(old(into.data), Header(t, key), ZERO);
    CopyFields(sit, into, doc);
    ghost var before := into.data;
    assert into.stack[|into.stack| - 1] == |raw|;
    var _ := into.AppendFinish();
    assert into.data == Closed(before, |raw|);
    assert before == raw + ZERO + Enc(c);
    ClosedIsEncoded(raw, ZERO, c);
    AssocConcat(old(into.data), Header(t, key), Encode(c));
  }

  lemma NextIsCopied(d: Doc)
    requires WfDoc(d) && d.Elem?
    ensures WfValue(d.value) && Enc(CopyDoc(d)) == Enc(CopyElem(d.key, d.value)) + Enc(CopyDoc(d.rest))
    ensures |Enc(CopyElem(d.key, d.value))| <= |EncElem(d.key, d.value)|
    ensures |Enc(d)| == |EncElem(d.key, d.value)| + |Enc(d.rest)|
  {
    CopyOfElem(d);
    CopyIsNoLonger(Single(d.key, d.value));
    EncSingle(d.key, d.value);
  }

  /** The loop over the elements of a nested document. */
  method CopyFields(sit: Iterator, into: Bson, ghost doc: Doc)
    requires sit.first && sit.On(doc) && Utf8Doc(doc)
    requires Ready(into) && |into.stack| + Depth(doc) <= STACK_SIZE
    requires |into.data| + |Enc(doc)| <= MAX_DOC
    modifies into, sit
    ensures StaysReady(into) && into.stack == old(into.stack)
    ensures into.data == old(into.data) + Enc(CopyDoc(doc))
    decreases doc, 1
  {
    ghost var here := doc;
    var t := sit.Next(here);
    while t != EOO
      invariant !sit.first && sit.On(here) && t == TypeOf(here) && Utf8Doc(here)
      invariant StaysReady(into) && into.stack == old(into.stack)
      invariant |into.stack| + Depth(here) <= STACK_SIZE && |into.data| + |Enc(here)| <= MAX_DOC
      invariant into.data + Enc(CopyDoc(here)) == old(into.data) + Enc(CopyDoc(doc))
      invariant here == doc || here < doc
      decreases here
    {
      AtType(sit.data, sit.cur, here);
      NextIsCopied(here);
      ghost var raw := into.data;
      CopyField(sit, into, here);
      AssocConcat(raw, Enc(CopyElem(here.key, here.value)), Enc(CopyDoc(here.rest)));
      t := sit.Next(here);
      here := here.rest;
    }
    AtType(sit.data, sit.cur, here);
  }
}
