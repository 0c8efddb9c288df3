/** The dotted-path search of deps/bson/bson.c, which skips what cannot match. */
module BsonPath {
  import opened Bytes
  import opened BsonTree
  import opened BsonIterator

  const MAX_FPATH_LEN: nat := 255

  /** The path of an element. Below an empty path no dot is written. */
  function Join(prefix: seq<byte>, key: seq<byte>): seq<byte> {
    if prefix == [] then key else prefix + [DOT] + key
  }

  // What a search should find --------------------------------------------------------

  datatype Entry = Entry(path: seq<byte>, at: Doc)

  /** Every element of the document with its path, parents before their children. */
  function Preorder(d: Doc, prefix: seq<byte>): seq<Entry> {
    match d
    case End => []
    case Elem(key, v, rest) =>
      var p := Join(prefix, key);
      [Entry(p, d)] + (if v.Nested? then Preorder(v.doc, p) else []) + Preorder(rest, prefix)
  }

  /** The position of the first listed element with this path, or the end. */
  function FirstWith(entries: seq<Entry>, path: seq<byte>): Doc {
    if entries == [] then End
    else if entries[0].path == path then entries[0].at
    else FirstWith(entries[1..], path)
  }

  lemma {:induction false} FirstWithConcat(a: seq<Entry>, b: seq<Entry>, path: seq<byte>)
    requires forall i :: 0 <= i < |a| ==> a[i].at.Elem?
    ensures FirstWith(a + b, path) ==
            if FirstWith(a, path).Elem? then FirstWith(a, path) else FirstWith(b, path)
  {
    if a == [] {
      assert a + b == b;
    } else {
      assert (a + b)[1..] == a[1..] + b;
      FirstWithConcat(a[1..], b, path);
    }
  }

  lemma {:induction false} FirstWithMeaning(entries: seq<Entry>, path: seq<byte>)
    requires forall i :: 0 <= i < |entries| ==> entries[i].at.Elem?
    ensures FirstWith(entries, path).End? <==> forall i :: 0 <= i < |entries| ==> entries[i].path != path
    ensures FirstWith(entries, path).Elem? ==>
              exists i :: 0 <= i < |entries| && entries[i] == Entry(path, FirstWith(entries, path)) &&
                          forall j :: 0 <= j < i ==> entries[j].path != path
  {
    if entries != [] && entries[0].path != path {
      var tail := entries[1..];
      FirstWithMeaning(tail, path);
      if FirstWith(tail, path).Elem? {
        var i :| 0 <= i < |tail| && tail[i] == Entry(path, FirstWith(tail, path)) &&
                 forall j :: 0 <= j < i ==> tail[j].path != path;
        assert entries[i + 1] == Entry(path, FirstWith(entries, path));
        assert forall j :: 0 <= j < i + 1 ==> entries[j].path != path by {
          assert forall j :: 1 <= j < i + 1 ==> entries[j] == tail[j - 1];
        }
      } else {
        assert forall i :: 1 <= i < |entries| ==> entries[i] == tail[i - 1];
      }
    }
  }

  /** The search without any pruning. */
  function Search(d: Doc, prefix: seq<byte>, path: seq<byte>): Doc {
    match d
    case End => End
    case Elem(key, v, rest) =>
      var p := Join(prefix, key);
      if p == path then d
      else
        var below := if v.Nested? then Search(v.doc, p, path) else End;
        if below.Elem? then below else Search(rest, prefix, path)
  }

  lemma {:induction false} PreorderOnElems(d: Doc, prefix: seq<byte>)
    ensures forall i :: 0 <= i < |Preorder(d, prefix)| ==> Preorder(d, prefix)[i].at.Elem?
  {
    if d.Elem? {
      if d.value.Nested? {
        PreorderOnElems(d.value.doc, Join(prefix, d.key));
      }
      PreorderOnElems(d.rest, prefix);
    }
  }

  /** The unpruned search stops at the first element, in pre-order, with the requested path. */
  lemma {:induction false} SearchIsFirstInPreorder(d: Doc, prefix: seq<byte>, path: seq<byte>)
    ensures Search(d, prefix, path) == FirstWith(Preorder(d, prefix), path)
  {
    if d.Elem? {
      var p := Join(prefix, d.key);
      var head := [Entry(p, d)];
      var below := if d.value.Nested? then Preorder(d.value.doc, p) else [];
      if d.value.Nested? {
        SearchIsFirstInPreorder(d.value.doc, p, path);
        PreorderOnElems(d.value.doc, p);
      }
      SearchIsFirstInPreorder(d.rest, prefix, path);
      FirstWithConcat(head + below, Preorder(d.rest, prefix), path);
      FirstWithConcat(head, below, path);
    }
  }

  lemma PrefixTransitive(a: seq<byte>, b: seq<byte>, c: seq<byte>)
    requires a <= b
    ensures b <= c ==> a <= c
  {
  }

  /** Pruning is safe: below a path that the requested one does not extend there is nothing. */
  lemma {:induction false} NothingBelow(d: Doc, prefix: seq<byte>, path: seq<byte>)
    requires !(prefix <= path)
    ensures Search(d, prefix, path) == End
  {
    if d.Elem? {
      var p := Join(prefix, d.key);
      assert prefix <= p;
      PrefixTransitive(prefix, p, path);
      if d.value.Nested? {
        NothingBelow(d.value.doc, p, path);
      }
      NothingBelow(d.rest, prefix, path);
    }
  }

  /** Every path below a path that is not empty goes on with a dot. */
  lemma {:induction false} NothingBelowDot(d: Doc, prefix: seq<byte>, path: seq<byte>)
    requires prefix != [] && !(prefix + [DOT] <= path)
    ensures Search(d, prefix, path) == End
  {
    if d.Elem? {
      var p := Join(prefix, d.key);
      assert prefix + [DOT] <= p;
      PrefixTransitive(prefix + [DOT], p, path);
      if d.value.Nested? {
        NothingBelow(d.value.doc, p, path);
      }
      NothingBelowDot(d.rest, prefix, path);
    }
  }

  // The search itself ------------------------------------------------------------------

  /** Writes the dot and the key behind the path on the shared stack. */
  method Push(pstack: array<byte>, top: nat, key: seq<byte>) returns (curr: nat)
    requires top + |key| + 1 <= pstack.Length
    modifies pstack
    ensures curr <= top + |key| + 1 && curr <= pstack.Length
    ensures pstack[..curr] == Join(old(pstack[..top]), key)
    ensures top <= curr && pstack[..top] == old(pstack[..top])
  {
    curr := top;
    if curr > 0 {
      pstack[curr] := DOT;
      curr := curr + 1;
    }
    forall i | 0 <= i < |key| {
      pstack[curr + i] := key[i];
    }
    curr := curr + |key|;
    assert pstack[..curr] == Join(old(pstack[..top]), key);
  }

  /** How far the path on the stack and the requested path agree. */
  method Agreement(pstack: array<byte>, curr: nat, fpath: seq<byte>) returns (i: nat)
    requires curr <= pstack.Length
    ensures i <= curr && i <= |fpath|
    ensures i == curr <==> pstack[..curr] <= fpath
  {
    i := 0;
    while i < curr && i < |fpath| && pstack[i] == fpath[i]
      invariant i <= curr && i <= |fpath|
      invariant pstack[..i] == fpath[..i]
    {
      i := i + 1;
    }
    if i == curr {
      assert pstack[..curr] == fpath[..curr];
    } else if i < |fpath| {
      assert pstack[..curr][i] != fpath[i];
    }
  }

  /** The loop body of bson_find_fieldpath_value_impl for the element `here`, for a search that
      does not stop at nested arrays. */
  method FindElem(pstack: array<byte>, top: nat, fpath: seq<byte>, it: Iterator, t: byte,
                  ghost here: Doc, ghost prefix: seq<byte>)
    returns (found: bool, st: byte)
    requires !it.first && it.On(here) && here.Elem? && t == here.value.ty
    requires |fpath| < pstack.Length && top <= |fpath|
    requires pstack[..top] == prefix && prefix <= fpath
    modifies pstack, it
    ensures pstack[..top] == prefix
    ensures found ==> st == TypeOf(Search(here, prefix, fpath)) && Search(here, prefix, fpath).Elem?
    ensures found ==> it.On(Search(here, prefix, fpath))
    ensures !found ==> Search(here, prefix, fpath) == Search(here.rest, prefix, fpath)
    ensures !found ==> it.cur == old(it.cur) && !it.first
    decreases here, 0
  {
    AtType(it.data, it.cur, here);
    var key := it.Key(here);
    ghost var p := Join(prefix, key);
    if top + |key| > |fpath| {
      if here.value.Nested? {
        NothingBelow(here.value.doc, p, fpath);
      }
      return false, EOO;
    }
    var curr := Push(pstack, top, key);
    assert pstack[..curr] == p;
    var i := Agreement(pstack, curr, fpath);
    if i == curr && i == |fpath| {
      return true, t;
    }
    if i == curr && i < |fpath| && IsNested(t) {
      var sit := it.SubIterator(here);
      st := FindImpl(pstack, curr, fpath, sit, here.value.doc, p);
      assert pstack[..top] == prefix by { assert pstack[..curr][..top] == p[..top]; }
      if st != EOO {
        it.cur, it.first := sit.cur, sit.first;
        return true, st;
      }
      return false, EOO;
    }
    if here.value.Nested? {
      NothingBelow(here.value.doc, p, fpath);
    }
    return false, EOO;
  }

  method FindImpl(pstack: array<byte>, top: nat, fpath: seq<byte>, it: Iterator, ghost d: Doc, ghost prefix: seq<byte>)
    returns (t: byte)
    requires it.first && it.On(d)
    requires |fpath| < pstack.Length && top <= |fpath|
    requires pstack[..top] == prefix && prefix <= fpath
    modifies pstack, it
    ensures pstack[..top] == prefix
    ensures t == TypeOf(Search(d, prefix, fpath)) && (t == EOO <==> Search(d, prefix, fpath).End?)
    ensures it.On(Search(d, prefix, fpath))
    decreases d, 1
  {
    ghost var here := d;
    t := it.Next(here);
    while t != EOO
      invariant !it.first && it.On(here) && t == TypeOf(here)
      invariant pstack[..top] == prefix
      invariant Search(d, prefix, fpath) == Search(here, prefix, fpath)
      invariant here == d || here < d
      decreases here
    {
      AtType(it.data, it.cur, here);
      var found, st := FindElem(pstack, top, fpath, it, t, here, prefix);
      if found {
        AtType(it.data, it.cur, Search(here, prefix, fpath));
        return st;
      }
      t := it.Next(here);
      here := here.rest;
    }
    AtType(it.data, it.cur, here);
  }

  /** bson_find_fieldpath_value: the pruned search equals the full one. */
  method FindFieldPathValue(fpath: seq<byte>, it: Iterator, ghost d: Doc) returns (t: byte)
    requires it.first && it.On(d)
    modifies it
    ensures t == TypeOf(FirstWith(Preorder(d, []), fpath))
    ensures it.On(FirstWith(Preorder(d, []), fpath))
    ensures t == EOO <==> forall i :: 0 <= i < |Preorder(d, [])| ==> Preorder(d, [])[i].path != fpath
  {
    var size := if |fpath| <= MAX_FPATH_LEN then MAX_FPATH_LEN + 1 else |fpath| + 1;
    var pstack := new byte[size](_ => 0);
    t := FindImpl(pstack, 0, fpath, it, d, []);
    SearchIsFirstInPreorder(d, [], fpath);
    PreorderOnElems(d, []);
    FirstWithMeaning(Preorder(d, []), fpath);
  }
}
