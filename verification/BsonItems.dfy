/** A document as the list of its elements in pre-order, and edits as edits of that list. */
module BsonItems {
  import opened Bytes
  import opened BsonTree
  import opened BsonPath
  import opened BsonVisit

  /** What an element holds apart from the elements in it. */
  datatype Own = Leaf(ty: byte, payload: seq<byte>) | Node(ty: byte)

  datatype Item = Item(path: seq<byte>, depth: nat, key: seq<byte>, own: Own)

  function OwnOf(v: Value): Own {
    match v
    case Atom(ty, p) => Leaf(ty, p)
    case Nested(ty, _) => Node(ty)
  }

  /** Every element, parents before their children, duplicates included. */
  function Items(d: Doc, prefix: seq<byte>, depth: nat): seq<Item>
    decreases d, 0
  {
    match d
    case End => []
    case Elem(k, v, rest) => ItemsOf(k, v, Join(prefix, k), depth) + Items(rest, prefix, depth)
  }

  /** One element and those in it. */
  function ItemsOf(k: seq<byte>, v: Value, p: seq<byte>, depth: nat): seq<Item>
    decreases v, 1
  {
    [Item(p, depth, k, OwnOf(v))] + if v.Nested? then Items(v.doc, p, depth + 1) else []
  }

  /** What follows the items in an item of this depth. */
  function Behind(items: seq<Item>, depth: nat): (r: seq<Item>)
    ensures |r| <= |items|
  {
    if items == [] || items[0].depth <= depth then items else Behind(items[1..], depth)
  }

  /** Items at the path go, with all that is in them; or the new value comes in their place. All others stay
      as they are and where they are. */
  function EditItems(e: Edit, items: seq<Item>): seq<Item>
    decreases |items|
  {
    if items == [] then []
    else
      var x, rest := items[0], items[1..];
      if Hits(e, x.path) then
        (if e.Replace? then ItemsOf(x.key, e.value, x.path, x.depth) else []) + EditItems(e, Behind(rest, x.depth))
      else [x] + EditItems(e, rest)
  }

  predicate Deep(items: seq<Item>, depth: nat) { forall i :: 0 <= i < |items| ==> depth <= items[i].depth }

  predicate Resumes(items: seq<Item>, depth: nat) { items == [] || items[0].depth <= depth }

  lemma {:induction false} ItemsAreDeep(d: Doc, prefix: seq<byte>, depth: nat)
    ensures Deep(Items(d, prefix, depth), depth)
    decreases d
  {
    if d.Elem? {
      ItemsAreDeep(d.rest, prefix, depth);
      if d.value.Nested? {
        ItemsAreDeep(d.value.doc, Join(prefix, d.key), depth + 1);
      }
    }
  }

  lemma ItemsResume(d: Doc, prefix: seq<byte>, depth: nat)
    ensures Resumes(Items(d, prefix, depth), depth)
  {
  }

  lemma {:induction false} BehindSplits(a: seq<Item>, b: seq<Item>, depth: nat)
    requires Resumes(b, depth)
    ensures Behind(a + b, depth) == Behind(a, depth) + b
    decreases |a|
  {
    if a == [] {
      assert a + b == b;
    } else if a[0].depth > depth {
      assert (a + b)[1..] == a[1..] + b;
      BehindSplits(a[1..], b, depth);
    }
  }

  lemma {:induction false} BehindAll(a: seq<Item>, depth: nat)
    requires Deep(a, depth + 1)
    ensures Behind(a, depth) == []
    decreases |a|
  {
    if a != [] {
      BehindAll(a[1..], depth);
    }
  }

  lemma {:induction false} BehindIsDeep(a: seq<Item>, n: nat, depth: nat)
    requires Deep(a, n)
    ensures Deep(Behind(a, depth), n)
    decreases |a|
  {
    if a != [] && a[0].depth > depth {
      BehindIsDeep(a[1..], n, depth);
    }
  }

  lemma ConcatEdits(a: seq<Item>, b: seq<Item>, c: seq<Item>)
    ensures (a + b) + c == a + (b + c)
  {
  }

  /** Edits of two lists are independent when the second resumes where the first began. */
  lemma {:induction false} EditSplits(e: Edit, a: seq<Item>, b: seq<Item>, depth: nat)
    requires Deep(a, depth) && Resumes(b, depth)
    ensures EditItems(e, a + b) == EditItems(e, a) + EditItems(e, b)
    decreases |a|
  {
    if a == [] {
      assert a + b == b;
    } else {
      var x, rest := a[0], a[1..];
      assert (a + b)[0] == x && (a + b)[1..] == rest + b;
      if Hits(e, x.path) {
        BehindSplits(rest, b, x.depth);
        BehindIsDeep(rest, depth, x.depth);
        EditSplits(e, Behind(rest, x.depth), b, depth);
        var put := if e.Replace? then ItemsOf(x.key, e.value, x.path, x.depth) else [];
        ConcatEdits(put, EditItems(e, Behind(rest, x.depth)), EditItems(e, b));
      } else {
        EditSplits(e, rest, b, depth);
        ConcatEdits([x], EditItems(e, rest), EditItems(e, b));
      }
    }
  }

  lemma {:induction false} EditOfElement(e: Edit, k: seq<byte>, v: Value, p: seq<byte>, depth: nat)
    ensures EditItems(e, ItemsOf(k, v, p, depth)) ==
            if Hits(e, p) then (if e.Replace? then ItemsOf(k, e.value, p, depth) else [])
            else if v.Nested? then ItemsOf(k, Nested(v.ty, Edited(e, v.doc, p)), p, depth)
            else ItemsOf(k, v, p, depth)
    decreases v, 0
  {
    var items := ItemsOf(k, v, p, depth);
    var below := if v.Nested? then Items(v.doc, p, depth + 1) else [];
    assert items[1..] == below;
    if Hits(e, p) {
      if v.Nested? {
        ItemsAreDeep(v.doc, p, depth + 1);
      }
      BehindAll(below, depth);
    } else if v.Nested? {
      EditIsOfItems(e, v.doc, p, depth + 1);
    }
  }

  /** An edit of a document is exactly the edit of its list: order, duplicates and all other elements stay. */
  lemma {:induction false} EditIsOfItems(e: Edit, d: Doc, prefix: seq<byte>, depth: nat)
    ensures Items(Edited(e, d, prefix), prefix, depth) == EditItems(e, Items(d, prefix, depth))
    decreases d, 1
  {
    if d.Elem? {
      var p := Join(prefix, d.key);
      var first, rest := ItemsOf(d.key, d.value, p, depth), Items(d.rest, prefix, depth);
      EditIsOfItems(e, d.rest, prefix, depth);
      EditOfElement(e, d.key, d.value, p, depth);
      FirstIsDeep(d.key, d.value, p, depth);
      ItemsResume(d.rest, prefix, depth);
      EditSplits(e, first, rest, depth);
    }
  }

  lemma FirstIsDeep(k: seq<byte>, v: Value, p: seq<byte>, depth: nat)
    ensures Deep(ItemsOf(k, v, p, depth), depth)
  {
    if v.Nested? {
      ItemsAreDeep(v.doc, p, depth + 1);
    }
  }

  // The list determines the document -----------------------------------------------------------------------

  lemma {:induction false} SplitIsUnique(a: seq<Item>, b: seq<Item>, x: seq<Item>, y: seq<Item>, depth: nat)
    requires Deep(a, depth + 1) && Deep(x, depth + 1) && Resumes(b, depth) && Resumes(y, depth)
    requires a + b == x + y
    ensures a == x && b == y
  {
    BehindSplits(a, b, depth);
    BehindSplits(x, y, depth);
    BehindAll(a, depth);
    BehindAll(x, depth);
    assert b == Behind(a + b, depth) == y;
    assert a == (a + b)[..|a|] && x == (x + y)[..|x|];
  }

  lemma BelowIsDeep(v: Value, p: seq<byte>, depth: nat)
    ensures Deep(Within(v, p, depth), depth + 1)
  {
    if v.Nested? {
      ItemsAreDeep(v.doc, p, depth + 1);
    }
  }

  /** The elements in a value, as items. */
  function Within(v: Value, p: seq<byte>, depth: nat): seq<Item> {
    if v.Nested? then Items(v.doc, p, depth + 1) else []
  }

  lemma ItemsParts(d: Doc, prefix: seq<byte>, depth: nat)
    requires d.Elem?
    ensures var p := Join(prefix, d.key);
            var below, rest := Within(d.value, p, depth), Items(d.rest, prefix, depth);
            && Items(d, prefix, depth) == [Item(p, depth, d.key, OwnOf(d.value))] + (below + rest)
            && Deep(below, depth + 1) && Resumes(rest, depth)
  {
    var p := Join(prefix, d.key);
    BelowIsDeep(d.value, p, depth);
    ItemsResume(d.rest, prefix, depth);
    ConcatEdits([Item(p, depth, d.key, OwnOf(d.value))], Within(d.value, p, depth), Items(d.rest, prefix, depth));
  }

  lemma PartsAgree(x: Item, a: seq<Item>, b: seq<Item>, y: Item, c: seq<Item>, e: seq<Item>, depth: nat)
    requires [x] + (a + b) == [y] + (c + e)
    requires Deep(a, depth + 1) && Deep(c, depth + 1) && Resumes(b, depth) && Resumes(e, depth)
    ensures x == y && a == c && b == e
  {
    assert ([x] + (a + b))[0] == x && ([y] + (c + e))[0] == y;
    assert a + b == ([x] + (a + b))[1..] == ([y] + (c + e))[1..] == c + e;
    SplitIsUnique(a, b, c, e, depth);
  }

  lemma FirstAgrees(d: Doc, f: Doc, prefix: seq<byte>, depth: nat)
    requires d.Elem? && f.Elem? && Items(d, prefix, depth) == Items(f, prefix, depth)
    ensures d.key == f.key && OwnOf(d.value) == OwnOf(f.value)
    ensures var p := Join(prefix, d.key); Within(d.value, p, depth) == Within(f.value, p, depth)
    ensures Items(d.rest, prefix, depth) == Items(f.rest, prefix, depth)
  {
    var p, q := Join(prefix, d.key), Join(prefix, f.key);
    ItemsParts(d, prefix, depth);
    ItemsParts(f, prefix, depth);
    PartsAgree(Item(p, depth, d.key, OwnOf(d.value)), Within(d.value, p, depth), Items(d.rest, prefix, depth),
               Item(q, depth, f.key, OwnOf(f.value)), Within(f.value, q, depth), Items(f.rest, prefix, depth), depth);
  }

  /** Nothing of a document is lost in its list. */
  lemma {:induction false} ItemsAreInjective(d: Doc, f: Doc, prefix: seq<byte>, depth: nat)
    requires Items(d, prefix, depth) == Items(f, prefix, depth)
    ensures d == f
    decreases d
  {
    if d.Elem? && f.Elem? {
      FirstAgrees(d, f, prefix, depth);
      ItemsAreInjective(d.rest, f.rest, prefix, depth);
      if d.value.Nested? {
        ItemsAreInjective(d.value.doc, f.value.doc, Join(prefix, d.key), depth + 1);
      }
    }
  }
}
