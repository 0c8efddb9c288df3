/** What bson_update does to the top-level elements of a document, on trees. */
module BsonPatch {
  import opened Bytes
  import opened Utf8
  import opened BsonTree
  import opened BsonPath
  import opened BsonCopy
  import opened BsonVisit

  /** "alias", which the first loop of bson_update passes over. */
  const ALIAS: seq<byte> := [97, 108, 105, 97, 115]

  predicate DotFree(s: seq<byte>) { DOT !in s }

  predicate DotFreeKeys(d: Doc) { d.Elem? ==> DotFree(d.key) && DotFreeKeys(d.rest) }

  // The law ------------------------------------------------------------------------------

  /** Elements with a key in the update get its value in place, or go when that is null. */
  function Patch(d: Doc, u: Doc): Doc {
    match d
    case End => End
    case Elem(k, v, rest) =>
      var f := FindKey(u, k);
      if f.End? || k == ALIAS then Elem(k, v, Patch(rest, u))
      else if f.value.ty == NULLTYPE then Patch(rest, u)
      else Elem(k, f.value, Patch(rest, u))
  }

  /** The elements of the update, in order, whose keys are new and whose values are not null. */
  function NewElements(keys: set<seq<byte>>, u: Doc): Doc {
    match u
    case End => End
    case Elem(k, v, rest) =>
      if k !in keys && v.ty != NULLTYPE then Elem(k, v, NewElements(keys, rest)) else NewElements(keys, rest)
  }

  function Updated(d: Doc, u: Doc): Doc { Concat(Patch(d, u), NewElements(Keys(d), u)) }

  // What the loops do ----------------------------------------------------------------------

  function UpdateEdit(k: seq<byte>, v: Value): Edit {
    if v.ty == NULLTYPE then Remove(k) else Replace(k, v)
  }

  /** The first loop: one edit for each element of the update. */
  function EditAll(d: Doc, u: Doc): Doc
    decreases u
  {
    match u
    case End => d
    case Elem(k, v, rest) =>
      EditAll(if k == ALIAS then d else Edited(UpdateEdit(k, v), d, []), rest)
  }

  /** The second loop: appending what was not in the original. */
  function AppendNew(d: Doc, keys: set<seq<byte>>, u: Doc): Doc
    decreases u
  {
    match u
    case End => d
    case Elem(k, v, rest) =>
      AppendNew(if k !in keys && v.ty != NULLTYPE then Concat(d, Single(k, v)) else d, keys, rest)
  }

  // A dot-free path edits top-level elements only --------------------------------------------

  function TopEdit(k: seq<byte>, v: Value, d: Doc): Doc {
    match d
    case End => End
    case Elem(j, w, rest) =>
      if j != k then Elem(j, w, TopEdit(k, v, rest))
      else if v.ty == NULLTYPE then TopEdit(k, v, rest)
      else Elem(j, v, TopEdit(k, v, rest))
  }

  lemma {:induction false} NoDotFreePathBelow(d: Doc, prefix: seq<byte>, path: seq<byte>)
    requires prefix != [] && DotFree(path)
    ensures Search(d, prefix, path) == End
  {
    if d.Elem? {
      var p := Join(prefix, d.key);
      assert p[|prefix|] == DOT;
      NoDotFreePathBelow(d.rest, prefix, path);
      if d.value.Nested? {
        NoDotFreePathBelow(d.value.doc, p, path);
      }
    }
  }

  lemma {:induction false} EditedIsTopEdit(k: seq<byte>, v: Value, d: Doc)
    requires DotFree(k) && NonEmptyKeys(d)
    ensures Edited(UpdateEdit(k, v), d, []) == TopEdit(k, v, d)
  {
    if d.Elem? {
      EditedIsTopEdit(k, v, d.rest);
      if d.key != k && d.value.Nested? {
        NoDotFreePathBelow(d.value.doc, d.key, k);
        EditMisses(UpdateEdit(k, v), d.value.doc, d.key);
      }
    }
  }

  lemma {:induction false} TopEditKeys(k: seq<byte>, v: Value, d: Doc)
    ensures Keys(TopEdit(k, v, d)) <= Keys(d)
    ensures NonEmptyKeys(d) ==> NonEmptyKeys(TopEdit(k, v, d))
    ensures UniqueKeys(d) ==> UniqueKeys(TopEdit(k, v, d))
  {
    if d.Elem? {
      TopEditKeys(k, v, d.rest);
    }
  }

  // The loops obey the law -------------------------------------------------------------------

  lemma {:induction false} PatchByFirst(d: Doc, u: Doc)
    requires u.Elem? && u.key !in Keys(u.rest)
    ensures Patch(if u.key == ALIAS then d else TopEdit(u.key, u.value, d), u.rest) == Patch(d, u)
  {
    if d.Elem? {
      PatchByFirst(d.rest, u);
    }
  }

  lemma {:induction false} PatchByNothing(d: Doc)
    ensures Patch(d, End) == d
  {
    if d.Elem? {
      PatchByNothing(d.rest);
    }
  }

  lemma {:induction false} EditAllIsPatch(d: Doc, u: Doc)
    requires NonEmptyKeys(d) && UniqueKeys(u) && DotFreeKeys(u)
    ensures EditAll(d, u) == Patch(d, u)
    decreases u
  {
    if u.End? {
      PatchByNothing(d);
    } else {
      EditedIsTopEdit(u.key, u.value, d);
      TopEditKeys(u.key, u.value, d);
      PatchByFirst(d, u);
      EditAllIsPatch(if u.key == ALIAS then d else TopEdit(u.key, u.value, d), u.rest);
    }
  }

  lemma {:induction false} ConcatEnd(a: Doc)
    ensures Concat(a, End) == a
  {
    if a.Elem? {
      ConcatEnd(a.rest);
    }
  }

  lemma {:induction false} ConcatAssoc(a: Doc, b: Doc, c: Doc)
    ensures Concat(Concat(a, b), c) == Concat(a, Concat(b, c))
  {
    if a.Elem? {
      ConcatAssoc(a.rest, b, c);
    }
  }

  lemma {:induction false} AppendNewIsConcat(d: Doc, keys: set<seq<byte>>, u: Doc)
    ensures AppendNew(d, keys, u) == Concat(d, NewElements(keys, u))
    decreases u
  {
    if u.End? {
      ConcatEnd(d);
    } else {
      AppendNewIsConcat(d, keys, u.rest);
      var s := Single(u.key, u.value);
      AppendNewIsConcat(Concat(d, s), keys, u.rest);
      ConcatAssoc(d, s, NewElements(keys, u.rest));
      assert Concat(s, NewElements(keys, u.rest)) == Elem(u.key, u.value, NewElements(keys, u.rest)) by {
        assert Concat(End, NewElements(keys, u.rest)) == NewElements(keys, u.rest);
      }
    }
  }

  /** The two loops of bson_update compute exactly the updated document. */
  lemma UpdateLoopsObeyLaw(d: Doc, u: Doc)
    requires NonEmptyKeys(d) && UniqueKeys(u) && DotFreeKeys(u)
    ensures AppendNew(EditAll(d, u), Keys(d), u) == Updated(d, u)
  {
    EditAllIsPatch(d, u);
    AppendNewIsConcat(Patch(d, u), Keys(d), u);
  }

  // Consequences -------------------------------------------------------------------------------

  /** The value a key has in a document, none if the key is absent. */
  datatype Lookup = Absent | Present(value: Value)

  function Get(d: Doc, k: seq<byte>): Lookup {
    var f := FindKey(d, k);
    if f.End? then Absent else Present(f.value)
  }

  lemma {:induction false} GetConcat(a: Doc, b: Doc, k: seq<byte>)
    ensures Get(Concat(a, b), k) == if Get(a, k).Present? then Get(a, k) else Get(b, k)
    ensures Keys(Concat(a, b)) == Keys(a) + Keys(b)
  {
    if a.Elem? {
      GetConcat(a.rest, b, k);
    }
  }

  lemma {:induction false} GetPatch(d: Doc, u: Doc, k: seq<byte>)
    ensures Get(Patch(d, u), k) ==
            if Get(d, k).Absent? then Absent
            else if Get(u, k).Absent? || k == ALIAS then Get(d, k)
            else if Get(u, k).value.ty == NULLTYPE then Absent
            else Get(u, k)
  {
    if d.Elem? {
      GetPatch(d.rest, u, k);
    }
  }

  lemma {:induction false} GetNewElements(keys: set<seq<byte>>, u: Doc, k: seq<byte>)
    requires UniqueKeys(u)
    ensures Get(NewElements(keys, u), k) ==
            if k in keys || Get(u, k).Absent? || Get(u, k).value.ty == NULLTYPE then Absent else Get(u, k)
    ensures Keys(NewElements(keys, u)) <= Keys(u) && Keys(NewElements(keys, u)) !! keys
    ensures UniqueKeys(NewElements(keys, u))
  {
    if u.Elem? {
      GetNewElements(keys, u.rest, k);
    }
  }

  /** Key by key: a null value deletes, another value is set, a present alias and every key the
      update does not name stay as they were. */
  lemma UpdatedByKey(d: Doc, u: Doc, k: seq<byte>)
    requires UniqueKeys(u)
    ensures Get(Updated(d, u), k) ==
            if Get(u, k).Absent? || (k == [97, 108, 105, 97, 115] && Get(d, k).Present?) then Get(d, k)
            else if Get(u, k).value.ty == 10 then Absent
            else Get(u, k)
  {
    GetConcat(Patch(d, u), NewElements(Keys(d), u), k);
    GetPatch(d, u, k);
    GetNewElements(Keys(d), u, k);
  }

  /** The elements of an update that do not delete, in their order. */
  function Settings(u: Doc): Doc {
    match u
    case End => End
    case Elem(k, v, rest) => if v.ty == 10 then Settings(rest) else Elem(k, v, Settings(rest))
  }

  /** What is new stands behind everything else, in the order of the update. */
  lemma {:induction false} NewComeBehind(d: Doc, u: Doc)
    ensures Updated(d, u) == Concat(Patch(d, u), Without(Settings(u), Keys(d)))
    ensures Keys(Patch(d, u)) <= Keys(d)
  {
    NewAreSettings(Keys(d), u);
    PatchKeys(d, u);
  }

  function KeyList(d: Doc): seq<seq<byte>> { if d.End? then [] else [d.key] + KeyList(d.rest) }

  predicate Deletes(u: Doc, k: seq<byte>) {
    k != [97, 108, 105, 97, 115] && Get(u, k).Present? && Get(u, k).value.ty == 10
  }

  function NotDeleted(u: Doc, keys: seq<seq<byte>>): seq<seq<byte>> {
    if keys == [] then []
    else (if Deletes(u, keys[0]) then [] else [keys[0]]) + NotDeleted(u, keys[1..])
  }

  /** What is there already stays in its place, with its new value or the old one, unless it is deleted. */
  lemma {:induction false} PatchKeepsPlaces(d: Doc, u: Doc)
    ensures KeyList(Patch(d, u)) == NotDeleted(u, KeyList(d))
  {
    if d.Elem? {
      PatchKeepsPlaces(d.rest, u);
      assert KeyList(d)[1..] == KeyList(d.rest);
    }
  }

  lemma {:induction false} NewAreSettings(keys: set<seq<byte>>, u: Doc)
    ensures NewElements(keys, u) == Without(Settings(u), keys)
  {
    if u.Elem? {
      NewAreSettings(keys, u.rest);
    }
  }

  lemma {:induction false} PatchKeys(d: Doc, u: Doc)
    ensures Keys(Patch(d, u)) <= Keys(d)
  {
    if d.Elem? {
      PatchKeys(d.rest, u);
    }
  }

  /** The elements of `d` whose keys are not in the set, in their order. */
  function Without(d: Doc, keys: set<seq<byte>>): Doc {
    match d
    case End => End
    case Elem(k, v, rest) => if k in keys then Without(rest, keys) else Elem(k, v, Without(rest, keys))
  }

  /** Untouched elements keep their order and their values. */
  lemma {:induction false} UntouchedStayInPlace(d: Doc, u: Doc)
    requires UniqueKeys(u)
    ensures Without(Updated(d, u), Keys(u)) == Without(d, Keys(u))
  {
    var f := NewElements(Keys(d), u);
    GetNewElements(Keys(d), u, []);
    WithoutPatch(d, u);
    WithoutAll(Patch(d, u), f, Keys(u));
  }

  lemma {:induction false} WithoutPatch(d: Doc, u: Doc)
    ensures Without(Patch(d, u), Keys(u)) == Without(d, Keys(u))
  {
    if d.Elem? {
      WithoutPatch(d.rest, u);
    }
  }

  lemma {:induction false} WithoutAll(a: Doc, b: Doc, keys: set<seq<byte>>)
    requires Keys(b) <= keys
    ensures Without(Concat(a, b), keys) == Without(a, keys)
  {
    if a.Elem? {
      WithoutAll(a.rest, b, keys);
    } else if b.Elem? {
      WithoutAll(a, b.rest, keys);
    }
  }

  /** Every element already has what the update wants. */
  predicate Agrees(d: Doc, u: Doc) {
    d.Elem? ==>
      && (d.key == ALIAS || Get(u, d.key).Absent? ||
          (Get(u, d.key) == Present(d.value) && d.value.ty != NULLTYPE))
      && Agrees(d.rest, u)
  }

  lemma {:induction false} AgreesIsFixed(d: Doc, u: Doc)
    requires Agrees(d, u)
    ensures Patch(d, u) == d
  {
    if d.Elem? {
      AgreesIsFixed(d.rest, u);
    }
  }

  lemma {:induction false} AgreesConcat(a: Doc, b: Doc, u: Doc)
    requires Agrees(a, u) && Agrees(b, u)
    ensures Agrees(Concat(a, b), u)
  {
    if a.Elem? {
      AgreesConcat(a.rest, b, u);
    }
  }

  lemma {:induction false} PatchAgrees(d: Doc, u: Doc)
    ensures Agrees(Patch(d, u), u)
  {
    if d.Elem? {
      PatchAgrees(d.rest, u);
    }
  }

  lemma {:induction false} NewElementsAgree(keys: set<seq<byte>>, w: Doc, u: Doc)
    requires UniqueKeys(w) && forall k :: k in Keys(w) ==> Get(u, k) == Get(w, k)
    ensures Agrees(NewElements(keys, w), u)
    decreases w
  {
    if w.Elem? {
      assert Get(u, w.key) == Get(w, w.key);
      forall k | k in Keys(w.rest) ensures Get(u, k) == Get(w.rest, k) {
        assert k in Keys(w) && k != w.key;
      }
      NewElementsAgree(keys, w.rest, u);
    }
  }

  lemma {:induction false} NothingNew(keys: set<seq<byte>>, u: Doc)
    requires forall k :: k in Keys(u) && Get(u, k).value.ty != NULLTYPE ==> k in keys
    requires UniqueKeys(u)
    ensures NewElements(keys, u) == End
  {
    if u.Elem? {
      assert Get(u, u.key) == Present(u.value);
      forall k | k in Keys(u.rest) && Get(u.rest, k).value.ty != NULLTYPE ensures k in keys {
        assert k in Keys(u) && k != u.key && Get(u, k) == Get(u.rest, k);
      }
      NothingNew(keys, u.rest);
    }
  }

  /** Applying the same update twice equals applying it once. */
  lemma UpdateIsIdempotent(d: Doc, u: Doc)
    requires UniqueKeys(u)
    ensures Updated(Updated(d, u), u) == Updated(d, u)
  {
    var d' := Updated(d, u);
    PatchAgrees(d, u);
    NewElementsAgree(Keys(d), u, u);
    AgreesConcat(Patch(d, u), NewElements(Keys(d), u), u);
    AgreesIsFixed(d', u);
    forall k | k in Keys(u) && Get(u, k).value.ty != NULLTYPE ensures k in Keys(d') {
      UpdatedByKey(d, u, k);
    }
    NothingNew(Keys(d'), u);
    ConcatEnd(d');
  }

  // Documents the visitors rewrite faithfully ------------------------------------------------

  /** Well-formed, UTF-8, copyable, not nested too deep, with short paths and no empty key on top. */
  predicate Plain(d: Doc) {
    && WfDoc(d) && Utf8Doc(d) && CopyableDoc(d)
    && ShortPaths(d, []) && Depth(d) <= 32 && NonEmptyKeys(d)
  }

  lemma PlainByElement(d: Doc)
    requires d.Elem?
    ensures Plain(d) <==> Plain(Single(d.key, d.value)) && Plain(d.rest)
  {
    assert Plain(End);
  }

  lemma {:induction false} PlainTopEdit(k: seq<byte>, v: Value, d: Doc)
    requires Plain(Single(k, v)) && Plain(d)
    ensures Plain(TopEdit(k, v, d))
  {
    if d.Elem? {
      PlainByElement(d);
      PlainTopEdit(k, v, d.rest);
      var t := TopEdit(k, v, d);
      if t.Elem? {
        PlainByElement(t);
      }
    }
  }

  lemma {:induction false} PlainConcat(a: Doc, b: Doc)
    requires Plain(a) && Plain(b)
    ensures Plain(Concat(a, b))
  {
    if a.Elem? {
      PlainByElement(a);
      PlainConcat(a.rest, b);
      PlainByElement(Concat(a, b));
    }
  }

  lemma {:induction false} PlainFind(u: Doc, k: seq<byte>)
    requires Plain(u) && k in Keys(u)
    ensures Plain(Single(k, FindKey(u, k).value))
  {
    PlainByElement(u);
    if u.key != k {
      PlainFind(u.rest, k);
    }
  }

  lemma {:induction false} PlainPatch(d: Doc, u: Doc)
    requires Plain(d) && Plain(u)
    ensures Plain(Patch(d, u)) && Keys(Patch(d, u)) <= Keys(d)
    ensures UniqueKeys(d) ==> UniqueKeys(Patch(d, u))
  {
    if d.Elem? {
      PlainByElement(d);
      PlainPatch(d.rest, u);
      if d.key in Keys(u) {
        PlainFind(u, d.key);
      }
      var p := Patch(d, u);
      if p.Elem? && p != Patch(d.rest, u) {
        PlainByElement(p);
      }
    }
  }

  lemma {:induction false} PlainNewElements(keys: set<seq<byte>>, u: Doc)
    requires Plain(u)
    ensures Plain(NewElements(keys, u))
  {
    if u.Elem? {
      PlainByElement(u);
      PlainNewElements(keys, u.rest);
      var n := NewElements(keys, u);
      if n.Elem? && n != NewElements(keys, u.rest) {
        PlainByElement(n);
      }
    }
  }

  lemma {:induction false} UniqueConcat(a: Doc, b: Doc)
    requires UniqueKeys(a) && UniqueKeys(b) && Keys(a) !! Keys(b)
    ensures UniqueKeys(Concat(a, b))
  {
    if a.Elem? {
      UniqueConcat(a.rest, b);
      GetConcat(a.rest, b, a.key);
    }
  }

  /** An updated document can be updated again. */
  lemma UpdatedIsPlain(d: Doc, u: Doc)
    requires Plain(d) && UniqueKeys(d) && Plain(u) && UniqueKeys(u)
    ensures Plain(Updated(d, u)) && UniqueKeys(Updated(d, u))
  {
    var p, n := Patch(d, u), NewElements(Keys(d), u);
    PlainPatch(d, u);
    PlainNewElements(Keys(d), u);
    PlainConcat(p, n);
    GetNewElements(Keys(d), u, []);
    UniqueConcat(p, n);
  }

  lemma {:induction false} RoomWithoutHit(e: Edit, d: Doc, prefix: seq<byte>)
    requires !e.Keep? ==> Search(d, prefix, e.path) == End
    ensures Room(e, d, prefix) == |Enc(d)|
  {
    if d.Elem? {
      RoomWithoutHit(e, d.rest, prefix);
      if d.value.Nested? {
        RoomWithoutHit(e, d.value.doc, Join(prefix, d.key));
        assert |EncValue(d.value)| == |Enc(d.value.doc)| + 5;
      }
      assert |Enc(d)| == 2 + |d.key| + |EncValue(d.value)| + |Enc(d.rest)|;
    }
  }

  lemma {:induction false} TopRoom(k: seq<byte>, v: Value, d: Doc)
    requires DotFree(k) && NonEmptyKeys(d) && UniqueKeys(d)
    ensures Room(UpdateEdit(k, v), d, []) <= |Enc(d)| + |EncElem(k, v)|
    ensures k !in Keys(d) ==> Room(UpdateEdit(k, v), d, []) == |Enc(d)|
  {
    if d.Elem? {
      TopRoom(k, v, d.rest);
      assert |Enc(d)| == 2 + |d.key| + |EncValue(d.value)| + |Enc(d.rest)|;
      assert |EncElem(k, v)| == 2 + |k| + |EncValue(v)|;
      if d.key != k && d.value.Nested? {
        NoDotFreePathBelow(d.value.doc, d.key, k);
        RoomWithoutHit(UpdateEdit(k, v), d.value.doc, d.key);
        assert |EncValue(d.value)| == |Enc(d.value.doc)| + 5;
      }
    }
  }

  /** One step of the first loop. */
  lemma EditStep(k: seq<byte>, v: Value, d: Doc)
    requires Plain(d) && Plain(Single(k, v)) && UniqueKeys(d) && DotFree(k)
    requires |Enc(d)| + |EncElem(k, v)| + 5 <= INT_MAX
    ensures var t := TopEdit(k, v, d);
            && Rewritten(UpdateEdit(k, v), d, []) == t && Edited(UpdateEdit(k, v), d, []) == t
            && Room(UpdateEdit(k, v), d, []) <= |Enc(d)| + |EncElem(k, v)|
            && Plain(t) && UniqueKeys(t) && |Enc(t)| <= |Enc(d)| + |EncElem(k, v)|
  {
    RewrittenIsEdited(UpdateEdit(k, v), d, []);
    EditedIsTopEdit(k, v, d);
    TopRoom(k, v, d);
    RewrittenFits(UpdateEdit(k, v), d, []);
    PlainTopEdit(k, v, d);
    TopEditKeys(k, v, d);
  }

  /** One step of the second loop. */
  lemma AppendStep(k: seq<byte>, v: Value, d: Doc)
    requires Plain(d) && Plain(Single(k, v))
    ensures var t := Concat(d, Single(k, v));
            && Rewritten(Keep, d, []) == d && Room(Keep, d, []) == |Enc(d)|
            && Plain(t) && |Enc(t)| == |Enc(d)| + |EncElem(k, v)|
  {
    RewrittenIsEdited(Keep, d, []);
    EditMisses(Keep, d, []);
    RoomWithoutHit(Keep, d, []);
    PlainConcat(d, Single(k, v));
    EncSingle(k, v);
  }
}
