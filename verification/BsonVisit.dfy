/** The visitors of deps/bson/bson.c that write a changed copy of a document while walking it. */
module BsonVisit {
  import opened Bytes
  import opened Utf8
  import opened BsonTree
  import opened BsonBuilder
  import opened BsonIterator
  import opened BsonPath
  import opened BsonCopy

  /** What a walk does at the elements whose path is the given one. */
  datatype Edit = Remove(path: seq<byte>) | Replace(path: seq<byte>, value: Value) | Keep

  predicate Hits(e: Edit, p: seq<byte>) { !e.Keep? && e.path == p }

  // The intended result ------------------------------------------------------------------

  /** The document with exactly the elements at the path removed or replaced. */
  function Edited(e: Edit, d: Doc, prefix: seq<byte>): Doc {
    match d
    case End => End
    case Elem(k, v, rest) =>
      var p, r := Join(prefix, k), Edited(e, rest, prefix);
      if Hits(e, p) then (if e.Replace? then Elem(k, e.value, r) else r)
      else if v.Nested? then Elem(k, Nested(v.ty, Edited(e, v.doc, p)), r)
      else Elem(k, v, r)
  }

  /** What the visitors write: the same, with every value they pass sent through the copier. */
  function Rewritten(e: Edit, d: Doc, prefix: seq<byte>): Doc
    requires WfDoc(d)
  {
    match d
    case End => End
    case Elem(k, v, rest) =>
      var p, r := Join(prefix, k), Rewritten(e, rest, prefix);
      assert WfValue(v);
      if Hits(e, p) then (if e.Replace? then Elem(k, e.value, r) else r)
      else match v
        case Nested(ty, doc) => Elem(k, Nested(ty, Rewritten(e, doc, p)), r)
        case Atom(ty, a) => if CopyAtom(ty, a) == [] then r else Elem(k, Atom(ty, CopyAtom(ty, a)[0]), r)
  }

  lemma {:induction false} RewrittenIsEdited(e: Edit, d: Doc, prefix: seq<byte>)
    requires WfDoc(d) && CopyableDoc(d)
    ensures Rewritten(e, d, prefix) == Edited(e, d, prefix)
  {
    if d.Elem? {
      assert WfValue(d.value);
      RewrittenIsEdited(e, d.rest, prefix);
      if d.value.Nested? {
        RewrittenIsEdited(e, d.value.doc, Join(prefix, d.key));
      } else {
        CopyIsExactIff(d.value.ty, d.value.payload);
      }
    }
  }

  /** No element is left at a removed path. */
  lemma {:induction false} RemovedIsGone(path: seq<byte>, d: Doc, prefix: seq<byte>)
    ensures Search(Edited(Remove(path), d, prefix), prefix, path) == End
  {
    if d.Elem? {
      RemovedIsGone(path, d.rest, prefix);
      if d.value.Nested? {
        RemovedIsGone(path, d.value.doc, Join(prefix, d.key));
      }
    }
  }

  /** Without an element at the path nothing changes. */
  lemma {:induction false} EditMisses(e: Edit, d: Doc, prefix: seq<byte>)
    requires !e.Keep? ==> Search(d, prefix, e.path) == End
    ensures Edited(e, d, prefix) == d
  {
    if d.Elem? {
      EditMisses(e, d.rest, prefix);
      if d.value.Nested? {
        EditMisses(e, d.value.doc, Join(prefix, d.key));
      }
    }
  }

  /** An edit leaves every element alone that is neither at the edited path nor below it, up to the edit
      inside its own elements. */
  lemma {:induction false} EditKeepsOthers(e: Edit, d: Doc, prefix: seq<byte>, q: seq<byte>)
    requires !e.Keep? && e.path != [] && q != e.path && !(e.path + [DOT] <= q)
    ensures var was, now := Search(d, prefix, q), Search(Edited(e, d, prefix), prefix, q);
            && (was.Elem? <==> now.Elem?)
            && (was.Elem? ==> now.key == was.key)
            && (was.Elem? && was.value.Atom? ==> now.value == was.value)
            && (was.Elem? && was.value.Nested? ==>
                  now.value == Nested(was.value.ty, Edited(e, was.value.doc, q)))
  {
    if d.Elem? {
      var p := Join(prefix, d.key);
      EditKeepsOthers(e, d.rest, prefix, q);
      if Hits(e, p) {
        if d.value.Nested? {
          NothingBelowDot(d.value.doc, p, q);
        }
        if e.Replace? && e.value.Nested? {
          NothingBelowDot(e.value.doc, p, q);
        }
      } else if d.value.Nested? {
        EditKeepsOthers(e, d.value.doc, p, q);
      }
    }
  }

  /** A replaced element has the new value; removing or replacing again changes nothing. */
  lemma {:induction false} ReplacedIsThere(path: seq<byte>, v: Value, d: Doc, prefix: seq<byte>)
    ensures var was, now := Search(d, prefix, path), Search(Edited(Replace(path, v), d, prefix), prefix, path);
            && (was.Elem? <==> now.Elem?) && (was.Elem? ==> now.key == was.key && now.value == v)
  {
    if d.Elem? {
      ReplacedIsThere(path, v, d.rest, prefix);
      if d.value.Nested? {
        ReplacedIsThere(path, v, d.value.doc, Join(prefix, d.key));
      }
    }
  }

  lemma {:induction false} EditIsIdempotent(e: Edit, d: Doc, prefix: seq<byte>)
    ensures Edited(e, Edited(e, d, prefix), prefix) == Edited(e, d, prefix)
  {
    if d.Elem? {
      EditIsIdempotent(e, d.rest, prefix);
      if d.value.Nested? {
        EditIsIdempotent(e, d.value.doc, Join(prefix, d.key));
      }
    }
  }

  // The walk -----------------------------------------------------------------------------

  /** Room in the new document that a walk may need. */
  function Room(e: Edit, d: Doc, prefix: seq<byte>): nat {
    match d
    case End => 0
    case Elem(k, v, rest) =>
      var p, r := Join(prefix, k), Room(e, rest, prefix);
      if Hits(e, p) then (if e.Replace? then 2 + |k| + |EncValue(e.value)| + r else r)
      else if v.Nested? then 7 + |k| + Room(e, v.doc, p) + r
      else 2 + |k| + |v.payload| + r
  }

  /** Paths that fit the visitors' 128-byte scratch buffers. */
  predicate ShortPaths(d: Doc, prefix: seq<byte>) {
    d.Elem? ==>
      && |Join(prefix, d.key)| < 128
      && (d.value.Nested? ==> ShortPaths(d.value.doc, Join(prefix, d.key)))
      && ShortPaths(d.rest, prefix)
  }

  lemma {:induction false} RewrittenFits(e: Edit, d: Doc, prefix: seq<byte>)
    requires WfDoc(d)
    ensures |Enc(Rewritten(e, d, prefix))| <= Room(e, d, prefix)
  {
    if d.Elem? {
      assert WfValue(d.value);
      var p, r := Join(prefix, d.key), Rewritten(e, d, prefix);
      RewrittenFits(e, d.rest, prefix);
      if !Hits(e, p) && d.value.Nested? {
        RewrittenFits(e, d.value.doc, p);
        assert |EncValue(r.value)| == |Enc(r.value.doc)| + 5;
      } else if !Hits(e, p) && CopyAtom(d.value.ty, d.value.payload) != [] {
        AtomIsNoLonger(d.value.ty, d.value.payload);
      }
      if r.Elem? {
        assert |Enc(r)| == 2 + |r.key| + |EncValue(r.value)| + |Enc(r.rest)|;
      }
    }
  }

  lemma RewrittenOfElem(e: Edit, d: Doc, prefix: seq<byte>)
    requires WfDoc(d) && d.Elem? && WfValue(d.value)
    ensures Enc(Rewritten(e, d, prefix)) ==
            Enc(Rewritten(e, Single(d.key, d.value), prefix)) + Enc(Rewritten(e, d.rest, prefix))
  {
    var s := Rewritten(e, Single(d.key, d.value), prefix);
    assert Rewritten(e, End, prefix) == End;
    assert s.Elem? ==> s.rest == End;
    if s.Elem? {
      EncSingle(s.key, s.value);
    }
  }

  datatype Kind = RemoveVisitor | ReplaceVisitor | AppendVisitor

  /** The context a visitor is called with. The append visitor only runs with the empty path. */
  class Context {
    const kind: Kind
    const path: seq<byte>
    const out: Bson
    /** The element to insert: buffer and cursor of its iterator. */
    const srcData: seq<byte>
    const srcCur: nat
    var nstack: nat

    constructor (kind: Kind, path: seq<byte>, out: Bson, srcData: seq<byte>, srcCur: nat)
      ensures this.kind == kind && this.path == path && this.out == out
      ensures this.srcData == srcData && this.srcCur == srcCur && nstack == 0
    {
      this.kind, this.path, this.out, this.srcData, this.srcCur, this.nstack := kind, path, out, srcData, srcCur, 0;
    }

    /** `e` is the edit this context performs. */
    ghost predicate Performs(e: Edit) {
      match kind
      case RemoveVisitor => e == Remove(path)
      case ReplaceVisitor =>
        e.Replace? && e.path == path && exists src :: SourceIs(src, e.value)
      case AppendVisitor => e == Keep && path == []
    }

    ghost predicate SourceIs(src: Doc, v: Value) {
      At(srcData, srcCur, src) && src.Elem? && src.value == v
    }
  }

  /** Whether the walk goes into the element, and whether the visitor wants a second call. */
  datatype Command = Command(skipNested: bool, skipAfter: bool)

  const GO_ON := Command(false, false)
  const SKIP_AFTER := Command(false, true)
  const SKIP_ALL := Command(true, true)

  /** bson_append_element: the value bytes of the element at a cursor, under another key. */
  method AppendElement(b: Bson, name: seq<byte>, data: seq<byte>, cur: nat, ghost e: Doc)
    requires Ready(b) && At(data, cur, e) && e.Elem? && ValidUtf8(name)
    requires |b.data| + 2 + |name| + |EncValue(e.value)| <= MAX_DOC
    modifies b`data, b`dataSize, b`storage, b`memory, b`err
    ensures StaysReady(b) && b.data == old(b.data) + EncElem(name, e.value)
  {
    AtElem(data, cur, e);
    AtType(data, cur, e);
    var klen := StrLen(data, cur + 1);
    var pos := cur + 1 + klen + 1;
    var size := ValueSize(data[cur], data, pos);
    var bytes := data[pos..pos + size];
    var _ := b.AppendEStart(data[cur], name, size);
    b.Append(bytes);
    AssocConcat(old(b.data), Header(e.value.ty, name), EncValue(e.value));
  }

  /** The visitor call before the nested elements. */
  method VisitBefore(ctx: Context, ipath: seq<byte>, it: Iterator, ghost here: Doc, ghost e: Edit)
    returns (cmd: Command)
    requires it.On(here) && here.Elem? && WfValue(here.value) && ValidUtf8(here.key) && Utf8Value(here.value)
    requires ctx.Performs(e) && Ready(ctx.out)
    requires Hits(e, ipath) && e.Replace? ==> |ctx.out.data| + 2 + |here.key| + |EncValue(e.value)| <= MAX_DOC
    requires !Hits(e, ipath) && here.value.Nested? ==>
               |ctx.out.data| + 7 + |here.key| <= MAX_DOC && |ctx.out.stack| < STACK_SIZE
    requires !Hits(e, ipath) && here.value.Atom? ==>
               |ctx.out.data| + 2 + |here.key| + |here.value.payload| <= MAX_DOC && |ctx.out.stack| <= STACK_SIZE
    modifies ctx`nstack, ctx.out
    ensures StaysReady(ctx.out)
    ensures Hits(e, ipath) || here.value.Atom? ==> cmd.skipAfter && (cmd.skipNested || here.value.Atom?)
    ensures Hits(e, ipath) || here.value.Atom? ==>
              ctx.nstack == old(ctx.nstack) && ctx.out.stack == old(ctx.out.stack)
    ensures Hits(e, ipath) ==>
              ctx.out.data == old(ctx.out.data) + (if e.Replace? then EncElem(here.key, e.value) else [])
    ensures !Hits(e, ipath) && here.value.Atom? ==>
              ctx.out.data == old(ctx.out.data) + Enc(CopyElem(here.key, here.value))
    ensures !Hits(e, ipath) && here.value.Nested? ==>
              && cmd == GO_ON && ctx.nstack == old(ctx.nstack) + 1
              && ctx.out.data == old(ctx.out.data) + (Header(here.value.ty, here.key) + ZERO)
              && ctx.out.stack == old(ctx.out.stack) + [|old(ctx.out.data)| + |here.key| + 2]
  {
    var bt := it.Type(here);
    var key := it.Key(here);
    AtType(it.data, it.cur, here);
    if ctx.kind.RemoveVisitor? && ipath == ctx.path {
      return SKIP_ALL;
    }
    if ctx.kind.ReplaceVisitor? && ipath == ctx.path {
      ghost var src :| ctx.SourceIs(src, e.value);
      AppendElement(ctx.out, key, ctx.srcData, ctx.srcCur, src);
      return SKIP_ALL;
    }
    if IsNested(bt) {
      ctx.nstack := ctx.nstack + 1;
      var _ := ctx.out.AppendStart(bt, key);
      return GO_ON;
    }
    CopyField(it, ctx.out, here);
    return SKIP_AFTER;
  }

  /** The visitor call after the nested elements. The append visitor would insert here at its path. */
  method VisitAfter(ctx: Context, ipath: seq<byte>, it: Iterator, ghost here: Doc)
    requires it.On(here) && here.Elem? && here.value.Nested?
    requires ctx.kind.AppendVisitor? ==> ctx.path != ipath
    requires Ready(ctx.out) && ctx.out.stack != [] && |ctx.out.data| + 1 <= MAX_DOC && ctx.nstack > 0
    modifies ctx`nstack, ctx.out
    ensures StaysReady(ctx.out) && ctx.nstack == old(ctx.nstack) - 1
    ensures ctx.out.stack == old(ctx.out.stack)[..|old(ctx.out.stack)| - 1]
    ensures ctx.out.data == Closed(old(ctx.out.data), old(ctx.out.stack)[|old(ctx.out.stack)| - 1])
  {
    assert !(ctx.kind.AppendVisitor? && ipath == ctx.path);
    AtType(it.data, it.cur, here);
    var bt := it.Type(here);
    if IsNested(bt) && ctx.nstack > 0 {
      ctx.nstack := ctx.nstack - 1;
      var _ := ctx.out.AppendFinish();
    }
  }

  predicate NonEmptyKeys(d: Doc) { d.Elem? ==> d.key != [] && NonEmptyKeys(d.rest) }

  /** The loop body of bson_visit_fields_impl for the element `here`. */
  method VisitElem(ctx: Context, pstack: array<byte>, top: nat, it: Iterator,
                   ghost here: Doc, ghost e: Edit, ghost prefix: seq<byte>)
    requires !it.first && it.On(here) && here.Elem? && WfValue(here.value)
    requires ValidUtf8(here.key) && Utf8Value(here.value)
    requires pstack.Length == MAX_FPATH_LEN + 1 && top < 128 && pstack[..top] == prefix
    requires ShortPaths(Single(here.key, here.value), prefix)
    requires e.Keep? ==> Join(prefix, here.key) != []
    requires ctx.Performs(e) && Ready(ctx.out)
    requires |ctx.out.stack| + Depth(Single(here.key, here.value)) <= STACK_SIZE
    requires |ctx.out.data| + Room(e, Single(here.key, here.value), prefix) <= MAX_DOC
    modifies ctx`nstack, ctx.out, pstack
    ensures StaysReady(ctx.out) && ctx.out.stack == old(ctx.out.stack) && ctx.nstack == old(ctx.nstack)
    ensures ctx.out.data == old(ctx.out.data) + Enc(Rewritten(e, Single(here.key, here.value), prefix))
    ensures pstack[..top] == prefix
    decreases here, 1
  {
    var key := it.Key(here);
    ghost var p := Join(prefix, key);
    RewrittenSingle(e, key, here.value, prefix);
    assert top + |key| <= MAX_FPATH_LEN;
    var curr := Push(pstack, top, key);
    VisitAt(ctx, pstack, curr, it, here, e, p);
    StackPrefix(pstack[..], curr, p, prefix);
  }

  lemma StackPrefix(stack: seq<byte>, curr: nat, p: seq<byte>, prefix: seq<byte>)
    requires curr <= |stack| && stack[..curr] == p && prefix <= p
    ensures stack[..|prefix|] == prefix
  {
    assert stack[..|prefix|] == p[..|prefix|];
  }

  /** The visitor calls around one element, whose path is on the stack. */
  method VisitAt(ctx: Context, pstack: array<byte>, curr: nat, it: Iterator,
                 ghost here: Doc, ghost e: Edit, ghost p: seq<byte>)
    requires !it.first && it.On(here) && here.Elem? && WfValue(here.value)
    requires ValidUtf8(here.key) && Utf8Value(here.value)
    requires pstack.Length == MAX_FPATH_LEN + 1 && curr < 128 && pstack[..curr] == p
    requires here.value.Nested? ==> ShortPaths(here.value.doc, p)
    requires e.Keep? ==> p != []
    requires ctx.Performs(e) && Ready(ctx.out)
    requires here.value.Nested? ==> |ctx.out.stack| + 1 + Depth(here.value.doc) <= STACK_SIZE
    requires |ctx.out.data| + RoomAt(e, here.key, here.value, p) <= MAX_DOC
    modifies ctx`nstack, ctx.out, pstack
    ensures StaysReady(ctx.out) && ctx.out.stack == old(ctx.out.stack) && ctx.nstack == old(ctx.nstack)
    ensures ctx.out.data == old(ctx.out.data) + RewrittenAt(e, here.key, here.value, p)
    ensures pstack[..curr] == p
    decreases here, 0
  {
    var ipath := pstack[..curr];
    AtType(it.data, it.cur, here);
    var cmd := VisitBefore(ctx, ipath, it, here, e);
    var t := it.Type(here);
    if !cmd.skipNested && IsNested(t) {
      VisitNested(ctx, pstack, curr, ipath, it, cmd, here, e, old(ctx.out.data), old(ctx.out.stack));
    }
    assert !cmd.skipAfter ==> !Hits(e, p) && here.value.Nested?;
  }

  /** The bytes one element at path `p` becomes, and the room that takes. */
  function RewrittenAt(e: Edit, k: seq<byte>, v: Value, p: seq<byte>): seq<byte>
    requires NoNul(k) && WfValue(v)
  {
    if Hits(e, p) then (if e.Replace? then EncElem(k, e.value) else [])
    else if v.Nested? then Header(v.ty, k) + Encode(Rewritten(e, v.doc, p))
    else Enc(CopyElem(k, v))
  }

  function RoomAt(e: Edit, k: seq<byte>, v: Value, p: seq<byte>): nat {
    if Hits(e, p) then (if e.Replace? then 2 + |k| + |EncValue(e.value)| else 0)
    else if v.Nested? then 7 + |k| + Room(e, v.doc, p)
    else 2 + |k| + |v.payload|
  }

  /** The recursive call of bson_visit_fields_impl, and the second visitor call. */
  method VisitNested(ctx: Context, pstack: array<byte>, curr: nat, ipath: seq<byte>, it: Iterator, cmd: Command,
                     ghost here: Doc, ghost e: Edit, ghost raw: seq<byte>, ghost open: seq<nat>)
    requires !it.first && it.On(here) && here.Elem? && here.value.Nested? && WfValue(here.value)
    requires Utf8Value(here.value) && cmd == GO_ON
    requires pstack.Length == MAX_FPATH_LEN + 1 && curr < 128 && pstack[..curr] == ipath
    requires ShortPaths(here.value.doc, ipath) && (e.Keep? ==> ipath != [])
    requires ctx.Performs(e) && Ready(ctx.out) && ctx.nstack > 0
    requires ctx.out.data == raw + (Header(here.value.ty, here.key) + ZERO)
    requires ctx.out.stack == open + [|raw| + |here.key| + 2]
    requires |open| + 1 + Depth(here.value.doc) <= STACK_SIZE
    requires |raw| + 7 + |here.key| + Room(e, here.value.doc, ipath) <= MAX_DOC
    modifies ctx`nstack, ctx.out, pstack
    ensures StaysReady(ctx.out) && ctx.out.stack == open && ctx.nstack == old(ctx.nstack) - 1
    ensures ctx.out.data ==
            raw + (Header(here.value.ty, here.key) + Encode(Rewritten(e, here.value.doc, ipath)))
    ensures pstack[..curr] == ipath
    decreases here.value, 3
  {
    ghost var r, start := Rewritten(e, here.value.doc, ipath), |raw| + |here.key| + 2;
    RewrittenFits(e, here.value.doc, ipath);
    NestedClosed(raw, here.value.ty, here.key, r);
    var sit := it.SubIterator(here);
    VisitFields(ctx, pstack, curr, sit, here.value.doc, e, ipath);
    ghost var before := ctx.out.data;
    assert before == raw + (Header(here.value.ty, here.key) + ZERO) + Enc(r);
    assert ctx.out.stack == open + [start];
    if !cmd.skipAfter {
      VisitAfter(ctx, ipath, it, here);
      assert ctx.out.data == Closed(before, start);
    }
  }

  /** bson_visit_fields_impl with no traversal flag set. */
  method VisitFields(ctx: Context, pstack: array<byte>, top: nat, it: Iterator,
                     ghost d: Doc, ghost e: Edit, ghost prefix: seq<byte>)
    requires it.first && it.On(d) && Utf8Doc(d)
    requires pstack.Length == MAX_FPATH_LEN + 1 && top < 128 && pstack[..top] == prefix
    requires ShortPaths(d, prefix)
    requires e.Keep? ==> prefix != [] || NonEmptyKeys(d)
    requires ctx.Performs(e) && Ready(ctx.out)
    requires |ctx.out.stack| + Depth(d) <= STACK_SIZE
    requires |ctx.out.data| + Room(e, d, prefix) <= MAX_DOC
    modifies ctx`nstack, ctx.out, pstack, it
    ensures StaysReady(ctx.out) && ctx.out.stack == old(ctx.out.stack) && ctx.nstack == old(ctx.nstack)
    ensures ctx.out.data == old(ctx.out.data) + Enc(Rewritten(e, d, prefix))
    ensures pstack[..top] == prefix
    decreases d, 2
  {
    ghost var here := d;
    var t := it.Next(here);
    while t != EOO
      invariant !it.first && it.On(here) && t == TypeOf(here)
      invariant Utf8Doc(here) && ShortPaths(here, prefix) && (e.Keep? ==> prefix != [] || NonEmptyKeys(here))
      invariant StaysReady(ctx.out) && ctx.out.stack == old(ctx.out.stack) && ctx.nstack == old(ctx.nstack)
      invariant |ctx.out.stack| + Depth(here) <= STACK_SIZE
      invariant |ctx.out.data| + Room(e, here, prefix) <= MAX_DOC
      invariant ctx.out.data + Enc(Rewritten(e, here, prefix)) == old(ctx.out.data) + Enc(Rewritten(e, d, prefix))
      invariant pstack[..top] == prefix
      invariant here == d || here < d
      decreases here
    {
      AtType(it.data, it.cur, here);
      ghost var raw, s := ctx.out.data, Single(here.key, here.value);
      RewrittenOfElem(e, here, prefix);
      RewrittenFits(e, s, prefix);
      RoomOfElem(e, here, prefix);
      VisitElem(ctx, pstack, top, it, here, e, prefix);
      AssocConcat(raw, Enc(Rewritten(e, s, prefix)), Enc(Rewritten(e, here.rest, prefix)));
      t := it.Next(here);
      here := here.rest;
    }
    AtType(it.data, it.cur, here);
  }

  lemma RoomOfElem(e: Edit, d: Doc, prefix: seq<byte>)
    requires d.Elem?
    ensures Room(e, d, prefix) == Room(e, Single(d.key, d.value), prefix) + Room(e, d.rest, prefix)
    ensures ShortPaths(d, prefix) ==> ShortPaths(Single(d.key, d.value), prefix)
    ensures Depth(Single(d.key, d.value)) <= Depth(d)
  {
    assert Room(e, End, prefix) == 0 && Depth(End) == 0 && ShortPaths(End, prefix);
  }

  lemma RewrittenSingle(e: Edit, k: seq<byte>, v: Value, prefix: seq<byte>)
    requires NoNul(k) && WfValue(v)
    ensures Enc(Rewritten(e, Single(k, v), prefix)) == RewrittenAt(e, k, v, Join(prefix, k))
    ensures Room(e, Single(k, v), prefix) == RoomAt(e, k, v, Join(prefix, k))
    ensures v.Nested? ==> Depth(Single(k, v)) == 1 + Depth(v.doc)
    ensures v.Nested? && ShortPaths(Single(k, v), prefix) ==> ShortPaths(v.doc, Join(prefix, k))
    ensures ShortPaths(Single(k, v), prefix) ==> |Join(prefix, k)| < 128
  {
    var s := Single(k, v);
    var r := Rewritten(e, s, prefix);
    assert Rewritten(e, s.rest, prefix) == End && Room(e, s.rest, prefix) == 0;
    if r.Elem? {
      assert r == Single(r.key, r.value);
      EncSingle(r.key, r.value);
    }
    if v.Atom? {
      CopyOfAtom(k, v.ty, v.payload);
    }
  }

  lemma NestedClosed(raw: seq<byte>, ty: byte, key: seq<byte>, d: Doc)
    ensures Closed(raw + (Header(ty, key) + ZERO) + Enc(d), |raw| + |key| + 2)
         == raw + (Header(ty, key) + Encode(d))
  {
    var h := Header(ty, key);
    AssocConcat(raw, h, ZERO);
    ClosedIsEncoded(raw + h, ZERO, d);
    AssocConcat(raw, h, Encode(d));
  }
}
