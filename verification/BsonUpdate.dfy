/** Removing, replacing and updating elements of a finished document in place. */
module BsonUpdate {
  import opened Bytes
  import opened Utf8
  import opened BsonTree
  import opened BsonBuilder
  import opened BsonIterator
  import opened BsonPath
  import opened BsonCopy
  import opened BsonVisit
  import opened BsonPatch
  import opened BsonMemory

  /** A finished builder whose bytes are this document. */
  ghost predicate Finished(b: Bson, d: Doc)
    reads b
  {
    b.Valid() && b.finished && b.data == Encode(d) && WfRoot(d)
  }

  function PlaceOf(b: Bson): Place
    reads b
  {
    Place(b.storage, b.memory, b.dataSize)
  }

  /** The takeover of this document does not grow foreign memory without a flag. */
  ghost predicate MayTake(b: Bson, r: Doc)
    reads b
  {
    Takeover(PlaceOf(b), |Encode(r)|) != Undefined
  }

  /** What every operation here ends with: the document is taken over into the own buffer, whose flags are
      overwritten; or the buffer is external and too small, and only the overflow is noted. */
  twostate predicate TakesOver(b: Bson, r: Doc)
    reads b
  {
    && b.Valid() && b.finished
    && match Takeover(old(PlaceOf(b)), |Encode(r)|)
       case Taken(p) => b.data == Encode(r) && PlaceOf(b) == p
       case _ => b.data == old(b.data) && PlaceOf(b) == old(PlaceOf(b)) && b.err.sizeOverflow
  }

  /** bson_copy_with_state: takes over the bytes and the state of `in'`, keeping the own buffer. */
  method CopyWithState(out: Bson, in': Bson, ghost d: Doc) returns (ok: bool)
    requires out != in' && out.Valid() && out.finished
    requires in'.Valid() && in'.finished && in'.data == Encode(d) && in'.storage == Heap
    requires |Encode(d)| <= MAX_DOC && MayTake(out, d)
    modifies out
    ensures TakesOver(out, d)
    ensures ok == (old(out.storage) != External || |Encode(d)| <= old(out.dataSize))
    ensures ok ==> out.err == in'.err
  {
    assert |Encode(d)| == |Enc(d)| + 5;
    EncodeHeaderBytes(d);
    var size := Int32(in'.data, 0);
    if out.dataSize < size {
      if out.storage == External {
        out.err := NO_ERRORS.(sizeOverflow := true);
        return false;
      }
      out.dataSize, out.storage, out.memory := 3 * size / 2, Heap, Heap;
    }
    out.data := in'.data[..size];
    out.finished, out.stack, out.err := in'.finished, in'.stack, in'.err;
    out.storage, out.queryMode := in'.storage, in'.queryMode;
    return true;
  }

  lemma EncodeHeaderBytes(d: Doc)
    requires |Encode(d)| <= INT_MAX
    ensures Int32(Encode(d), 0) == |Encode(d)|
  {
    var s := Encode(d);
    assert |s| == |Enc(d)| + 5;
    assert s[0..0 + |s|] == s && s[0..4] == LE32(|s|);
    Int32At(s, 0, |s|);
  }

  /** Bytes, and whole documents that end there. */
  lemma EncodeIsDocAt(d: Doc)
    requires WfRoot(d)
    ensures DocAt(Encode(d), 0, d)
  {
    assert Encode(d)[0..|Encode(d)|] == Encode(d);
  }

  /** The walk with one visitor over a finished document, into a fresh builder. */
  method RewriteInto(bs: Bson, kind: Kind, path: seq<byte>, srcData: seq<byte>, srcCur: nat,
                     ghost d: Doc, ghost src: Doc, ghost e: Edit) returns (tmp: Bson)
    requires Finished(bs, d) && Utf8Doc(d) && ShortPaths(d, []) && Depth(d) <= STACK_SIZE
    requires match kind
             case RemoveVisitor => e == Remove(path)
             case ReplaceVisitor => At(srcData, srcCur, src) && src.Elem? && e == Replace(path, src.value)
             case AppendVisitor => e == Keep && path == [] && NonEmptyKeys(d)
    requires Room(e, d, []) + 5 <= MAX_DOC
    ensures fresh(tmp) && Ready(tmp) && tmp.stack == [] && tmp.storage == Heap
    ensures |tmp.data| >= 4 && tmp.data[4..] == Enc(Rewritten(e, d, []))
  {
    EncodeIsDocAt(d);
    DocStart(bs.data, 0, d);
    tmp := new Bson.InitSize(512);
    var i := new Iterator.FromBuffer(bs.data, 0);
    var ctx := new Context(kind, path, tmp, srcData, srcCur);
    assert kind.ReplaceVisitor? ==> ctx.SourceIs(src, src.value);
    var pstack := new byte[MAX_FPATH_LEN + 1](_ => 0);
    VisitFields(ctx, pstack, 0, i, d, e, []);
    assert tmp.data[4..] == Enc(Rewritten(e, d, []));
  }

  /** bson_remove_path */
  method RemovePath(bs: Bson, path: seq<byte>, ghost d: Doc)
    requires Finished(bs, d)
    requires Utf8Doc(d) && ShortPaths(d, []) && Depth(d) <= STACK_SIZE
    requires Room(Remove(path), d, []) + 5 <= MAX_DOC && MayTake(bs, Rewritten(Remove(path), d, []))
    modifies bs
    ensures TakesOver(bs, Rewritten(Remove(path), d, []))
  {
    ghost var e := Remove(path);
    RewrittenFits(e, d, []);
    var tmp := RewriteInto(bs, RemoveVisitor, path, [], 0, d, End, e);
    FinishAndCopy(bs, tmp, Rewritten(e, d, []));
  }

  /** bson_replace_element, with the element under the cursor `it` of another document. */
  method ReplaceElement(bs: Bson, path: seq<byte>, it: Iterator, ghost d: Doc, ghost src: Doc)
    requires Finished(bs, d)
    requires Utf8Doc(d) && ShortPaths(d, []) && Depth(d) <= STACK_SIZE
    requires !it.first && it.On(src) && src.Elem?
    requires Room(Replace(path, src.value), d, []) + 5 <= MAX_DOC
    requires MayTake(bs, Rewritten(Replace(path, src.value), d, []))
    modifies bs
    ensures TakesOver(bs, Rewritten(Replace(path, src.value), d, []))
  {
    ghost var e := Replace(path, src.value);
    RewrittenFits(e, d, []);
    var tmp := RewriteInto(bs, ReplaceVisitor, path, it.data, it.cur, d, src, e);
    FinishAndCopy(bs, tmp, Rewritten(e, d, []));
  }

  /** bson_insert_root_element */
  method InsertRootElement(bs: Bson, key: seq<byte>, it: Iterator, ghost d: Doc, ghost src: Doc)
    requires Finished(bs, d)
    requires Utf8Doc(d) && ShortPaths(d, []) && Depth(d) <= STACK_SIZE && NonEmptyKeys(d)
    requires !it.first && it.On(src) && src.Elem? && ValidUtf8(key)
    requires MayTake(bs, Concat(Rewritten(Keep, d, []), Single(key, src.value)))
    requires Room(Keep, d, []) + 2 + |key| + |EncValue(src.value)| + 5 <= MAX_DOC
    modifies bs
    ensures TakesOver(bs, Concat(Rewritten(Keep, d, []), Single(key, src.value)))
  {
    ghost var r := Rewritten(Keep, d, []);
    RewrittenFits(Keep, d, []);
    var tmp := RewriteInto(bs, AppendVisitor, [], it.data, it.cur, d, src, Keep);
    ghost var was := tmp.data;
    AppendElement(tmp, key, it.data, it.cur, src);
    EncSingle(key, src.value);
    BehindHeader(was, EncElem(key, src.value));
    FinishAndCopy(bs, tmp, Concat(r, Single(key, src.value)));
  }

  lemma BehindHeader(data: seq<byte>, more: seq<byte>)
    requires 4 <= |data|
    ensures (data + more)[4..] == data[4..] + more
  {
  }

  /** The end that all rewriting operations share. */
  method FinishAndCopy(bs: Bson, tmp: Bson, ghost r: Doc)
    requires bs != tmp && bs.Valid() && bs.finished && MayTake(bs, r)
    requires Ready(tmp) && tmp.storage == Heap && tmp.data[4..] == Enc(r) && |Encode(r)| <= MAX_DOC
    modifies bs, tmp
    ensures TakesOver(bs, r)
  {
    ghost var head := tmp.data[..4];
    assert tmp.data == [] + head + Enc(r);
    assert |Encode(r)| == |Enc(r)| + 5;
    var _ := tmp.Finish();
    ClosedIsEncoded([], head, r);
    assert [] + Encode(r) == Encode(r);
    var _ := CopyWithState(bs, tmp, r);
  }

  /** The buffer is the library's own, and its flags say so. */
  ghost predicate Owned(b: Bson)
    reads b
  {
    b.storage == b.memory == Heap
  }

  // bson_update ----------------------------------------------------------------------------

  /** bson_copy */
  method Copy(in': Bson, ghost d: Doc) returns (out: Bson)
    requires Finished(in', d)
    ensures fresh(out) && Finished(out, d) && Owned(out) && !out.err.notUtf8
  {
    EncodeHeaderBytes(d);
    assert |Encode(d)| == |Enc(d)| + 5;
    var size := Int32(in'.data, 0);
    out := new Bson.InitSize(size);
    assert in'.data[..size] == in'.data;
    out.data := in'.data[..size];
    out.finished := true;
  }

  /** The inner loop of the second pass: is the key one of the original's? */
  method HasKey(orig: Bson, key: seq<byte>, ghost d: Doc) returns (found: bool)
    requires Finished(orig, d)
    ensures found <==> key in Keys(d)
  {
    EncodeIsDocAt(d);
    DocStart(orig.data, 0, d);
    var i := new Iterator.FromBuffer(orig.data, 0);
    ghost var here := d;
    var t := i.Next(here);
    while t != EOO
      invariant !i.first && i.On(here) && t == TypeOf(here)
      invariant key in Keys(d) <==> key in Keys(here)
      decreases here
    {
      AtType(i.data, i.cur, here);
      var k := i.Key(here);
      if k == key {
        return true;
      }
      t := i.Next(here);
      here := here.rest;
    }
    AtType(i.data, i.cur, here);
    return false;
  }

  ghost predicate Updatable(b: Bson, d: Doc)
    reads b
  {
    Finished(b, d) && Plain(d) && UniqueKeys(d)
  }

  /** The body of the first loop, for the element under `sit`. */
  method EditOne(tmp: Bson, update: Bson, sit: Iterator, ghost cur: Doc, ghost u: Doc, ghost here: Doc)
    returns (ghost cur': Doc)
    requires tmp != update && Updatable(tmp, cur) && Owned(tmp)
    requires Finished(update, u) && !sit.first && sit.On(here) && here.Elem? && here.key in Keys(u)
    requires Plain(Single(here.key, here.value)) && DotFree(here.key)
    requires |Enc(cur)| + |EncElem(here.key, here.value)| + 5 <= MAX_DOC
    modifies tmp
    ensures cur' == if here.key == ALIAS then cur else Edited(UpdateEdit(here.key, here.value), cur, [])
    ensures Updatable(tmp, cur') && Owned(tmp)
    ensures |Enc(cur')| <= |Enc(cur)| + |EncElem(here.key, here.value)|
  {
    var key := sit.Key(here);
    if key == ALIAS {
      return cur;
    }
    EncodeIsDocAt(u);
    EditStep(key, here.value, cur);
    cur' := TopEdit(key, here.value, cur);
    var i, found := FindFromBuffer(update.data, 0, key, u);
    AtType(i.data, i.cur, FindKey(u, key));
    if found != EOO {
      EditPresent(tmp, sit, key, cur, here);
    }
  }

  method EditPresent(tmp: Bson, sit: Iterator, key: seq<byte>, ghost cur: Doc, ghost here: Doc)
    requires Finished(tmp, cur) && Plain(cur) && Owned(tmp)
    requires !sit.first && sit.On(here) && here.Elem? && WfValue(here.value)
    requires Rewritten(UpdateEdit(key, here.value), cur, []) == TopEdit(key, here.value, cur)
    requires Room(UpdateEdit(key, here.value), cur, []) + 5 <= MAX_DOC
    requires WfRoot(TopEdit(key, here.value, cur))
    modifies tmp
    ensures Finished(tmp, TopEdit(key, here.value, cur)) && Owned(tmp)
  {
    AtType(sit.data, sit.cur, here);
    var t := sit.Type(here);
    if t == NULLTYPE {
      RemovePath(tmp, key, cur);
    } else {
      ReplaceElement(tmp, key, sit, cur, here);
    }
  }

  /** The body of the second loop. */
  method AppendOne(tmp: Bson, orig: Bson, sit: Iterator, ghost cur: Doc, ghost d: Doc, ghost here: Doc)
    returns (ghost cur': Doc)
    requires tmp != orig && Finished(tmp, cur) && Plain(cur) && Owned(tmp)
    requires Finished(orig, d) && !sit.first && sit.On(here) && here.Elem?
    requires Plain(Single(here.key, here.value))
    requires |Enc(cur)| + |EncElem(here.key, here.value)| + 5 <= MAX_DOC
    modifies tmp
    ensures cur' == if here.key !in Keys(d) && here.value.ty != NULLTYPE
                    then Concat(cur, Single(here.key, here.value)) else cur
    ensures Finished(tmp, cur') && Plain(cur') && Owned(tmp)
    ensures |Enc(cur')| <= |Enc(cur)| + |EncElem(here.key, here.value)|
  {
    var key := sit.Key(here);
    cur' := cur;
    var found := HasKey(orig, key, d);
    if !found {
      var t := sit.Type(here);
      if t != NULLTYPE {
        AppendStep(key, here.value, cur);
        assert |EncElem(key, here.value)| == 2 + |key| + |EncValue(here.value)|;
        InsertRootElement(tmp, key, sit, cur, here);
        cur' := Concat(cur, Single(key, here.value));
      }
    }
  }

  /** bson_update: the original becomes the updated document and can be updated again, with the buffer that
      the specification of one update gives. */
  method Update(orig: Bson, update: Bson, ghost d: Doc, ghost u: Doc)
    requires orig != update && Updatable(orig, d) && Updatable(update, u) && DotFreeKeys(u)
    requires |Enc(d)| + 2 * |Enc(u)| + 5 <= MAX_DOC && MayTake(orig, Updated(d, u))
    modifies orig
    ensures TakesOver(orig, Updated(d, u))
    ensures var h := Updating(Held(old(PlaceOf(orig)), d), u);
            PlaceOf(orig) == h.place && Updatable(orig, h.doc)
  {
    var tmp := Copy(orig, d);
    ghost var mid := FirstPass(tmp, update, d, u);
    ghost var r := SecondPass(tmp, orig, update, mid, d, u);
    UpdateLoopsObeyLaw(d, u);
    assert |Encode(r)| == |Enc(r)| + 5;
    UpdatedIsPlain(d, u);
    var _ := CopyWithState(orig, tmp, r);
  }

  method FirstPass(tmp: Bson, update: Bson, ghost d: Doc, ghost u: Doc) returns (ghost cur: Doc)
    requires tmp != update && Updatable(tmp, d) && Owned(tmp)
    requires Updatable(update, u) && DotFreeKeys(u)
    requires |Enc(d)| + |Enc(u)| + 5 <= MAX_DOC
    modifies tmp
    ensures cur == EditAll(d, u) && Updatable(tmp, cur) && Owned(tmp)
    ensures |Enc(cur)| <= |Enc(d)| + |Enc(u)|
  {
    EncodeIsDocAt(u);
    DocStart(update.data, 0, u);
    var sit := new Iterator.FromBuffer(update.data, 0);
    ghost var here := u;
    cur := d;
    var t := sit.Next(here);
    while t != EOO
      invariant !sit.first && sit.On(here) && t == TypeOf(here)
      invariant Updatable(tmp, cur) && Owned(tmp)
      invariant Plain(here) && DotFreeKeys(here) && Keys(here) <= Keys(u)
      invariant EditAll(d, u) == EditAll(cur, here)
      invariant |Enc(cur)| + |Enc(here)| <= |Enc(d)| + |Enc(u)|
      decreases here
    {
      AtType(sit.data, sit.cur, here);
      PlainByElement(here);
      assert |Enc(here)| == |EncElem(here.key, here.value)| + |Enc(here.rest)|;
      cur := EditOne(tmp, update, sit, cur, u, here);
      t := sit.Next(here);
      here := here.rest;
    }
    AtType(sit.data, sit.cur, here);
  }

  method SecondPass(tmp: Bson, orig: Bson, update: Bson, ghost mid: Doc, ghost d: Doc, ghost u: Doc)
    returns (ghost cur: Doc)
    requires tmp != update && tmp != orig && Finished(tmp, mid) && Plain(mid) && Owned(tmp)
    requires Finished(orig, d) && Updatable(update, u)
    requires |Enc(mid)| + |Enc(u)| + 5 <= MAX_DOC
    modifies tmp
    ensures cur == AppendNew(mid, Keys(d), u) && Finished(tmp, cur) && Owned(tmp)
    ensures |Enc(cur)| <= |Enc(mid)| + |Enc(u)|
  {
    EncodeIsDocAt(u);
    DocStart(update.data, 0, u);
    var sit := new Iterator.FromBuffer(update.data, 0);
    ghost var here := u;
    cur := mid;
    var t := sit.Next(here);
    while t != EOO
      invariant !sit.first && sit.On(here) && t == TypeOf(here)
      invariant Finished(tmp, cur) && Plain(cur) && Owned(tmp)
      invariant Plain(here)
      invariant AppendNew(mid, Keys(d), u) == AppendNew(cur, Keys(d), here)
      invariant |Enc(cur)| + |Enc(here)| <= |Enc(mid)| + |Enc(u)|
      decreases here
    {
      AtType(sit.data, sit.cur, here);
      PlainByElement(here);
      assert |Enc(here)| == |EncElem(here.key, here.value)| + |Enc(here.rest)|;
      cur := AppendOne(tmp, orig, sit, cur, d, here);
      t := sit.Next(here);
      here := here.rest;
    }
    AtType(sit.data, sit.cur, here);
  }
}
