/** One record of the identity database of src/wish_identity.c: an identity as a BSON document. */
module IdentityRecord {
  import opened Basics
  import opened Bytes
  import opened Utf8
  import opened BsonTree
  import opened BsonIterator
  import opened BsonPath
  import opened BsonBuilder
  import opened BsonFields

  const PUBKEY_LEN: nat := 32
  const PRIVKEY_LEN: nat := 64
  const ALIAS_LEN: nat := 48
  const MAX_TRANSPORTS: nat := 4
  const MAX_TRANSPORT_LEN: nat := 64
  /** sizeof(wish_identity_t) + 100, on a machine with 64-bit pointers. */
  const PEEK: nat := 556

  const ALIAS: seq<byte> := [97, 108, 105, 97, 115]
  const UID: seq<byte> := [117, 105, 100]
  const PUBKEY: seq<byte> := [112, 117, 98, 107, 101, 121]
  const PRIVKEY: seq<byte> := [112, 114, 105, 118, 107, 101, 121]
  const META: seq<byte> := [109, 101, 116, 97]
  const PERMISSIONS: seq<byte> := [112, 101, 114, 109, 105, 115, 115, 105, 111, 110, 115]
  const TRANSPORTS: seq<byte> := [116, 114, 97, 110, 115, 112, 111, 114, 116, 115]

  /** wish_identity_t; an empty transport is an unused slot. */
  datatype Identity = Identity(
    uid: seq<byte>,
    pubkey: seq<byte>,
    privkey: Option<seq<byte>>,
    alias: seq<byte>,
    transports: seq<seq<byte>>,
    meta: Option<seq<byte>>,
    permissions: Option<seq<byte>>
  )

  /** The bytes of a BSON document begin with their own length. */
  predicate IsDocument(b: seq<byte>) { 5 <= |b| <= 0x1_0000 && Int32(b, 0) == |b| }

  /** What the structure can hold: keys of full length, and C strings that end within their arrays. */
  predicate IsIdentity(x: Identity) {
    && |x.uid| == ID_LEN && |x.pubkey| == PUBKEY_LEN && (x.privkey.Some? ==> |x.privkey.value| == PRIVKEY_LEN)
    && FitsText(x.alias, ALIAS_LEN)
    && |x.transports| == MAX_TRANSPORTS
    && (forall i :: 0 <= i < MAX_TRANSPORTS ==> FitsText(x.transports[i], MAX_TRANSPORT_LEN))
    && (x.meta.Some? ==> IsDocument(x.meta.value)) && (x.permissions.Some? ==> IsDocument(x.permissions.value))
  }

  // The document of an identity -----------------------------------------------------------------

  function Digit(i: nat): seq<byte>
    requires i < 10
  {
    [48 + i]
  }

  function OptionalElem(key: seq<byte>, value: Option<seq<byte>>, rest: Doc): Doc {
    if value.Some? then BinaryElem(key, value.value, rest) else rest
  }

  /** The used transports from slot i on, under the numbers of their slots. */
  function TransportsFrom(ts: seq<seq<byte>>, i: nat): Doc
    requires |ts| == MAX_TRANSPORTS && i <= MAX_TRANSPORTS
    decreases MAX_TRANSPORTS - i
  {
    if i == MAX_TRANSPORTS then End
    else if ts[i] == [] then TransportsFrom(ts, i + 1)
    else Elem(Digit(i), Atom(STRING, TextPayload(ts[i])), TransportsFrom(ts, i + 1))
  }

  function RecordOf(x: Identity): Doc
    requires |x.transports| == MAX_TRANSPORTS
  {
    Elem(ALIAS, Atom(STRING, TextPayload(x.alias)),
      BinaryElem(UID, x.uid,
        BinaryElem(PUBKEY, x.pubkey,
          OptionalElem(PRIVKEY, x.privkey,
            OptionalElem(META, x.meta,
              OptionalElem(PERMISSIONS, x.permissions,
                Elem(TRANSPORTS, Nested(ARRAY, TransportsFrom(x.transports, 0)), End)))))))
  }

  // Reading a record ------------------------------------------------------------------------------

  /** Nested documents are kept only if they agree with their own length. */
  function DocumentAt(d: Doc): Option<seq<byte>>
    requires WfDoc(d)
  {
    match BinaryAt(d)
    case None => None
    case Some(b) => if |b| >= 4 && Int32(b, 0) == |b| then Some(b) else None
  }

  function TransportPath(i: nat): seq<byte>
    requires i < 10
  {
    TRANSPORTS + [DOT] + Digit(i)
  }

  function TransportAt(d: Doc, i: nat): seq<byte>
    requires WfDoc(d) && i < 10
  {
    match TextAt(Found(d, TransportPath(i)), MAX_TRANSPORT_LEN) case Some(s) => s case None => []
  }

  function TransportsUpTo(d: Doc, n: nat): (ts: seq<seq<byte>>)
    requires WfDoc(d) && n <= 10
    ensures |ts| == n && forall i :: 0 <= i < n ==> ts[i] == TransportAt(d, i)
  {
    if n == 0 then [] else TransportsUpTo(d, n - 1) + [TransportAt(d, n - 1)]
  }

  /** An identity from the fields that were found; three of them, and the lengths of keys, are needed. */
  function Assembled(uid: Option<seq<byte>>, pubkey: Option<seq<byte>>, privkey: Option<seq<byte>>,
                     alias: Option<seq<byte>>, transports: seq<seq<byte>>, meta: Option<seq<byte>>,
                     permissions: Option<seq<byte>>): Option<Identity>
  {
    if uid.None? || |uid.value| != ID_LEN || pubkey.None? || |pubkey.value| < PUBKEY_LEN then None
    else if privkey.Some? && |privkey.value| != PRIVKEY_LEN then None
    else if alias.None? then None
    else Some(Identity(uid.value, pubkey.value[..PUBKEY_LEN], privkey, alias.value, transports, meta, permissions))
  }

  /** What wish_identity_load makes of the record it has found. */
  function Loaded(d: Doc): Option<Identity>
    requires WfDoc(d)
  {
    Assembled(BinaryAt(FindKey(d, UID)), BinaryAt(FindKey(d, PUBKEY)), BinaryAt(FindKey(d, PRIVKEY)),
              TextAt(FindKey(d, ALIAS), ALIAS_LEN), TransportsUpTo(d, MAX_TRANSPORTS),
              DocumentAt(Found(d, META)), DocumentAt(Found(d, PERMISSIONS)))
  }

  /** Which records load: uid, public key and alias are there, in the right kind, and keys have their lengths;
      a private key is optional. Meta data and permissions that disagree with their length count as absent. */
  lemma LoadedIff(d: Doc)
    requires WfDoc(d)
    ensures Loaded(d).Some? <==>
            && BinaryAt(FindKey(d, UID)).Some? && |BinaryAt(FindKey(d, UID)).value| == 32
            && BinaryAt(FindKey(d, PUBKEY)).Some? && |BinaryAt(FindKey(d, PUBKEY)).value| >= 32
            && (BinaryAt(FindKey(d, PRIVKEY)).Some? ==> |BinaryAt(FindKey(d, PRIVKEY)).value| == 64)
            && TypeOf(FindKey(d, ALIAS)) == STRING
    ensures Loaded(d).Some? ==>
              var x := Loaded(d).value;
              && Some(x.uid) == BinaryAt(FindKey(d, UID)) && x.pubkey == BinaryAt(FindKey(d, PUBKEY)).value[..32]
              && x.privkey == BinaryAt(FindKey(d, PRIVKEY))
              && (x.meta.Some? ==> x.meta == BinaryAt(Found(d, META)) && Int32(x.meta.value, 0) == |x.meta.value|)
              && (x.permissions.Some? ==> x.permissions == BinaryAt(Found(d, PERMISSIONS)))
  {
  }

  // The round trip ---------------------------------------------------------------------------------

  /** An element is as it should be for the grammar, for the builder, in depth and in length. */
  ghost predicate Sane(d: Doc, depth: nat, size: nat) {
    WfDoc(d) && BuildableDoc(d) && Depth(d) <= depth && |Enc(d)| <= size
  }

  lemma TextIsSane(key: seq<byte>, v: seq<byte>, rest: Doc, depth: nat, size: nat)
    requires IsAscii(key) && FitsText(v, MAX_TRANSPORT_LEN) && Sane(rest, depth, size)
    ensures Sane(Elem(key, Atom(STRING, TextPayload(v)), rest), depth, size + |key| + 71)
  {
    AsciiIsValid(key);
    TextIsRead(v, MAX_TRANSPORT_LEN);
    TextIsBuildable(v, STRING);
    AtomLength(key, STRING, TextPayload(v), rest);
  }

  lemma {:induction false} TransportsAreSane(ts: seq<seq<byte>>, i: nat)
    requires |ts| == MAX_TRANSPORTS && i <= MAX_TRANSPORTS
    requires forall k :: 0 <= k < MAX_TRANSPORTS ==> FitsText(ts[k], MAX_TRANSPORT_LEN)
    ensures Sane(TransportsFrom(ts, i), 0, 72 * (MAX_TRANSPORTS - i))
    decreases MAX_TRANSPORTS - i
  {
    if i < MAX_TRANSPORTS {
      TransportsAreSane(ts, i + 1);
      TextIsSane(Digit(i), ts[i], TransportsFrom(ts, i + 1), 0, 72 * (MAX_TRANSPORTS - i - 1));
    }
  }

  lemma BinaryIsSane(key: seq<byte>, v: Option<seq<byte>>, rest: Doc, depth: nat, size: nat)
    requires IsAscii(key) && Sane(rest, depth, size) && (v.Some? ==> |v.value| <= 0x1_0000)
    ensures Sane(OptionalElem(key, v, rest), depth, size + |key| + 0x1_0007)
  {
    if v.Some? {
      AsciiIsValid(key);
      BinaryIsRead(v.value);
      BinaryIsBuildable(v.value);
      AtomLength(key, BINDATA, BinaryPayload(v.value), rest);
    }
  }

  function Tail(x: Identity): Doc
    requires |x.transports| == MAX_TRANSPORTS
  {
    Elem(TRANSPORTS, Nested(ARRAY, TransportsFrom(x.transports, 0)), End)
  }

  function Body(x: Identity): Doc
    requires |x.transports| == MAX_TRANSPORTS
  {
    OptionalElem(PRIVKEY, x.privkey, OptionalElem(META, x.meta, OptionalElem(PERMISSIONS, x.permissions, Tail(x))))
  }

  lemma TailIsSane(x: Identity)
    requires IsIdentity(x)
    ensures Sane(Tail(x), 1, 400)
  {
    TransportsAreSane(x.transports, 0);
    NestedIsSane(TRANSPORTS, TransportsFrom(x.transports, 0), 72 * MAX_TRANSPORTS);
  }

  lemma NestedIsSane(key: seq<byte>, doc: Doc, size: nat)
    requires IsAscii(key) && Sane(doc, 0, size) && size <= 0x1_0000
    ensures Sane(Elem(key, Nested(ARRAY, doc), End), 1, size + |key| + 7)
  {
    AsciiIsValid(key);
    var v := Nested(ARRAY, doc);
    assert EncElem(key, v) == Header(ARRAY, key) + Encode(doc);
    assert Enc(Elem(key, v, End)) == EncElem(key, v) + Enc(End) && Enc(End) == [];
  }

  lemma BodyIsSane(x: Identity)
    requires IsIdentity(x)
    ensures Sane(Body(x), 1, 0x4_0000)
  {
    TailIsSane(x);
    BinaryIsSane(PERMISSIONS, x.permissions, Tail(x), 1, 400);
    var rest := OptionalElem(PERMISSIONS, x.permissions, Tail(x));
    BinaryIsSane(META, x.meta, rest, 1, 0x1_1000);
    BinaryIsSane(PRIVKEY, x.privkey, OptionalElem(META, x.meta, rest), 1, 0x2_2000);
  }

  /** The document of an identity is well-formed and can be built. */
  lemma RecordIsSane(x: Identity)
    requires IsIdentity(x)
    ensures Sane(RecordOf(x), 1, 0x8_0000)
  {
    BodyIsSane(x);
    BinaryIsSane(PUBKEY, Some(x.pubkey), Body(x), 1, 0x4_0000);
    var keys := BinaryElem(PUBKEY, x.pubkey, Body(x));
    BinaryIsSane(UID, Some(x.uid), keys, 1, 0x5_1000);
    TextIsSane(ALIAS, x.alias, BinaryElem(UID, x.uid, keys), 1, 0x6_2000);
  }

  lemma FindsOptional(key: seq<byte>, v: Option<seq<byte>>, rest: Doc)
    requires WfDoc(OptionalElem(key, v, rest)) && FindKey(rest, key).End? && (v.Some? ==> |v.value| <= 0x1_0000)
    ensures BinaryAt(FindKey(OptionalElem(key, v, rest), key)) == v
  {
    if v.Some? {
      BinaryIsRead(v.value);
    }
  }

  lemma KeysDiffer()
    ensures |ALIAS| == 5 && |UID| == 3 && |PUBKEY| == 6 && |PRIVKEY| == 7 && |META| == 4 && |PERMISSIONS| == 11 &&
            |TRANSPORTS| == 10
  {
  }

  lemma FindPast(key: seq<byte>, v: Option<seq<byte>>, rest: Doc, name: seq<byte>)
    requires key != name
    ensures FindKey(OptionalElem(key, v, rest), name) == FindKey(rest, name)
  {
  }

  lemma PrivkeyIsFound(x: Identity)
    requires IsIdentity(x) && WfDoc(Body(x))
    ensures BinaryAt(FindKey(Body(x), PRIVKEY)) == x.privkey
  {
    KeysDiffer();
    var rest := OptionalElem(PERMISSIONS, x.permissions, Tail(x));
    FindPast(META, x.meta, rest, PRIVKEY);
    FindPast(PERMISSIONS, x.permissions, Tail(x), PRIVKEY);
    assert FindKey(Tail(x), PRIVKEY).End?;
    FindsOptional(PRIVKEY, x.privkey, OptionalElem(META, x.meta, rest));
  }

  lemma RecordFinds(x: Identity)
    requires |x.transports| == MAX_TRANSPORTS
    ensures FindKey(RecordOf(x), ALIAS) == RecordOf(x)
    ensures FindKey(RecordOf(x), UID) == BinaryElem(UID, x.uid, BinaryElem(PUBKEY, x.pubkey, Body(x)))
    ensures FindKey(RecordOf(x), PUBKEY) == BinaryElem(PUBKEY, x.pubkey, Body(x))
    ensures FindKey(RecordOf(x), PRIVKEY) == FindKey(Body(x), PRIVKEY)
  {
    KeysDiffer();
    var keys := BinaryElem(PUBKEY, x.pubkey, Body(x));
    var ids := BinaryElem(UID, x.uid, keys);
    assert FindKey(ids, UID) == ids && FindKey(ids, PUBKEY) == FindKey(keys, PUBKEY);
    assert FindKey(ids, PRIVKEY) == FindKey(keys, PRIVKEY);
    assert FindKey(keys, PUBKEY) == keys && FindKey(keys, PRIVKEY) == FindKey(Body(x), PRIVKEY);
  }

  /** The first search by key finds each field where it was written. */
  lemma KeysAreFound(x: Identity)
    requires IsIdentity(x) && WfDoc(RecordOf(x))
    ensures BinaryAt(FindKey(RecordOf(x), UID)) == Some(x.uid)
    ensures BinaryAt(FindKey(RecordOf(x), PUBKEY)) == Some(x.pubkey)
    ensures BinaryAt(FindKey(RecordOf(x), PRIVKEY)) == x.privkey
    ensures TextAt(FindKey(RecordOf(x), ALIAS), ALIAS_LEN) == Some(x.alias)
  {
    RecordFinds(x);
    TextIsRead(x.alias, ALIAS_LEN);
    BinaryIsRead(x.uid);
    BinaryIsRead(x.pubkey);
    BodyIsSane(x);
    PrivkeyIsFound(x);
  }

  // The search by path ----------------------------------------------------------------------------

  lemma SearchPast(key: seq<byte>, v: Option<seq<byte>>, rest: Doc, path: seq<byte>)
    requires key != path
    ensures Search(OptionalElem(key, v, rest), [], path) == Search(rest, [], path)
  {
  }

  lemma BodySearch(x: Identity, path: seq<byte>)
    requires |x.transports| == MAX_TRANSPORTS && path != PRIVKEY && path != ALIAS && path != UID && path != PUBKEY
    ensures Search(RecordOf(x), [], path) ==
            Search(OptionalElem(META, x.meta, OptionalElem(PERMISSIONS, x.permissions, Tail(x))), [], path)
  {
    var keys := BinaryElem(PUBKEY, x.pubkey, Body(x));
    SearchPast(UID, Some(x.uid), keys, path);
    SearchPast(PUBKEY, Some(x.pubkey), Body(x), path);
    SearchPast(PRIVKEY, x.privkey, OptionalElem(META, x.meta, OptionalElem(PERMISSIONS, x.permissions, Tail(x))), path);
  }

  /** A transport is found under the number of its own slot. */
  lemma {:induction false} SlotIsFound(ts: seq<seq<byte>>, i: nat, j: nat)
    requires |ts| == MAX_TRANSPORTS && i <= MAX_TRANSPORTS && j < MAX_TRANSPORTS
    ensures var e := Search(TransportsFrom(ts, i), TRANSPORTS, TransportPath(j));
            if i <= j && ts[j] != [] then e.Elem? && e.value == Atom(STRING, TextPayload(ts[j])) else e.End?
    decreases MAX_TRANSPORTS - i
  {
    if i < MAX_TRANSPORTS {
      SlotIsFound(ts, i + 1, j);
      assert Join(TRANSPORTS, Digit(i)) == TransportPath(i);
      assert TransportPath(i)[11] == 48 + i && TransportPath(j)[11] == 48 + j;
    }
  }

  lemma TransportIsFound(x: Identity, j: nat)
    requires IsIdentity(x) && WfDoc(RecordOf(x)) && j < MAX_TRANSPORTS
    ensures TransportAt(RecordOf(x), j) == x.transports[j]
  {
    KeysDiffer();
    var path := TransportPath(j);
    assert |path| == 12;
    BodySearch(x, path);
    SearchPast(META, x.meta, OptionalElem(PERMISSIONS, x.permissions, Tail(x)), path);
    SearchPast(PERMISSIONS, x.permissions, Tail(x), path);
    SlotIsFound(x.transports, 0, j);
    assert Search(Tail(x), [], path) == Search(TransportsFrom(x.transports, 0), TRANSPORTS, path);
    TextIsRead(x.transports[j], MAX_TRANSPORT_LEN);
  }

  lemma {:induction false} NoShortPath(ts: seq<seq<byte>>, i: nat, path: seq<byte>)
    requires |ts| == MAX_TRANSPORTS && i <= MAX_TRANSPORTS && |path| != 12
    ensures Search(TransportsFrom(ts, i), TRANSPORTS, path).End?
    decreases MAX_TRANSPORTS - i
  {
    if i < MAX_TRANSPORTS {
      NoShortPath(ts, i + 1, path);
      assert |Join(TRANSPORTS, Digit(i))| == 12;
    }
  }

  lemma DocumentsAreFound(x: Identity)
    requires IsIdentity(x) && WfDoc(RecordOf(x))
    ensures DocumentAt(Found(RecordOf(x), META)) == x.meta
    ensures DocumentAt(Found(RecordOf(x), PERMISSIONS)) == x.permissions
  {
    KeysDiffer();
    BodySearch(x, META);
    BodySearch(x, PERMISSIONS);
    NoShortPath(x.transports, 0, META);
    NoShortPath(x.transports, 0, PERMISSIONS);
    var rest := OptionalElem(PERMISSIONS, x.permissions, Tail(x));
    SearchPast(META, x.meta, rest, PERMISSIONS);
    SearchPast(PERMISSIONS, x.permissions, Tail(x), META);
    if x.meta.Some? {
      BinaryIsRead(x.meta.value);
    }
    if x.permissions.Some? {
      BinaryIsRead(x.permissions.value);
    }
  }

  lemma TransportsAreFound(x: Identity)
    requires IsIdentity(x) && WfDoc(RecordOf(x))
    ensures TransportsUpTo(RecordOf(x), MAX_TRANSPORTS) == x.transports
  {
    forall j | 0 <= j < MAX_TRANSPORTS ensures TransportAt(RecordOf(x), j) == x.transports[j] {
      TransportIsFound(x, j);
    }
  }

  lemma FieldsMakeIdentity(x: Identity)
    requires IsIdentity(x)
    ensures Assembled(Some(x.uid), Some(x.pubkey), x.privkey, Some(x.alias), x.transports, x.meta, x.permissions) ==
            Some(x)
  {
    assert x.pubkey[..PUBKEY_LEN] == x.pubkey;
  }

  /** Loading the record of an identity gives the identity back: keys, presence of the private key,
      alias, every transport in its own slot, meta and permissions. */
  lemma RecordRoundTrip(x: Identity)
    requires IsIdentity(x)
    ensures WfDoc(RecordOf(x)) && Loaded(RecordOf(x)) == Some(x)
  {
    assert WfDoc(RecordOf(x)) by {
      RecordIsSane(x);
    }
    KeysAreFound(x);
    DocumentsAreFound(x);
    TransportsAreFound(x);
    FieldsMakeIdentity(x);
  }

  // Writing a record -------------------------------------------------------------------------------

  /** What is written and what is still to come make up the record. */
  ghost predicate Writing(b: Bson, head: seq<byte>, rest: Doc, x: Identity)
    reads b
    requires |x.transports| == MAX_TRANSPORTS
  {
    && b.Valid() && !b.finished && b.storage != External && !b.err.notUtf8 && b.stack == []
    && |head| == 4 && b.data + Enc(rest) == head + Enc(RecordOf(x))
  }

  lemma WritingFits(b: Bson, head: seq<byte>, rest: Doc, x: Identity)
    requires IsIdentity(x) && Writing(b, head, rest, x)
    ensures |b.data| + |Enc(rest)| <= 0x9_0000
  {
    RecordIsSane(x);
    assert |b.data + Enc(rest)| == |b.data| + |Enc(rest)|;
  }

  method WriteText(b: Bson, key: seq<byte>, v: seq<byte>, ghost head: seq<byte>, ghost rest: Doc, ghost x: Identity)
    requires IsIdentity(x) && Writing(b, head, Elem(key, Atom(STRING, TextPayload(v)), rest), x)
    requires IsAscii(key) && ValidUtf8(v)
    modifies b`data, b`dataSize, b`storage, b`memory, b`err
    ensures Writing(b, head, rest, x)
  {
    AsciiIsValid(key);
    WritingFits(b, head, Elem(key, Atom(STRING, TextPayload(v)), rest), x);
    AtomLength(key, STRING, TextPayload(v), rest);
    Moved(b.data, EncElem(key, Atom(STRING, TextPayload(v))), Enc(rest), head + Enc(RecordOf(x)));
    var _ := b.AppendStringBase(key, v, STRING);
  }

  method WriteBinary(b: Bson, key: seq<byte>, v: seq<byte>, ghost head: seq<byte>, ghost rest: Doc, ghost x: Identity)
    requires IsIdentity(x) && Writing(b, head, BinaryElem(key, v, rest), x)
    requires IsAscii(key)
    modifies b`data, b`dataSize, b`storage, b`memory, b`err
    ensures Writing(b, head, rest, x)
  {
    AsciiIsValid(key);
    WritingFits(b, head, BinaryElem(key, v, rest), x);
    AtomLength(key, BINDATA, BinaryPayload(v), rest);
    Moved(b.data, EncElem(key, Atom(BINDATA, BinaryPayload(v))), Enc(rest), head + Enc(RecordOf(x)));
    var _ := b.AppendBinary(key, v);
  }

  method WriteSlots(b: Bson, ts: seq<seq<byte>>)
    requires |ts| == MAX_TRANSPORTS && forall k :: 0 <= k < MAX_TRANSPORTS ==> FitsText(ts[k], MAX_TRANSPORT_LEN)
    requires b.Valid() && !b.finished && b.storage != External && !b.err.notUtf8 && |b.data| <= 0xA_0000
    modifies b`data, b`dataSize, b`storage, b`memory, b`err
    ensures b.Valid() && b.storage != External && !b.err.notUtf8
    ensures b.data == old(b.data) + Enc(TransportsFrom(ts, 0)) && |b.data| <= 0xB_0000
  {
    ghost var all := b.data + Enc(TransportsFrom(ts, 0));
    for i := 0 to MAX_TRANSPORTS
      invariant b.Valid() && b.storage != External && !b.err.notUtf8
      invariant b.data + Enc(TransportsFrom(ts, i)) == all && |b.data| <= 0xA_0000 + 72 * i
    {
      if ts[i] != [] {
        AsciiIsValid(Digit(i));
        AtomLength(Digit(i), STRING, TextPayload(ts[i]), TransportsFrom(ts, i + 1));
        Moved(b.data, EncElem(Digit(i), Atom(STRING, TextPayload(ts[i]))), Enc(TransportsFrom(ts, i + 1)), all);
        var _ := b.AppendStringBase(Digit(i), ts[i], STRING);
      }
    }
    assert b.data + [] == b.data;
  }

  /** The array of transports, in a document that goes on behind it. */
  method WriteTransports(b: Bson, ts: seq<seq<byte>>)
    requires |ts| == MAX_TRANSPORTS && forall k :: 0 <= k < MAX_TRANSPORTS ==> FitsText(ts[k], MAX_TRANSPORT_LEN)
    requires b.Valid() && !b.finished && b.storage != External && !b.err.notUtf8 && b.stack == [] &&
             |b.data| <= 0x9_0000
    modifies b`data, b`dataSize, b`storage, b`memory, b`err, b`stack
    ensures b.Valid() && b.storage != External && !b.err.notUtf8 && b.stack == []
    ensures b.data == old(b.data) + EncElem(TRANSPORTS, Nested(ARRAY, TransportsFrom(ts, 0)))
  {
    ghost var raw := b.data;
    OpenArray(b);
    WriteSlots(b, ts);
    CloseArray(b, raw, TransportsFrom(ts, 0));
  }

  method OpenArray(b: Bson)
    requires b.Valid() && !b.finished && b.storage != External && !b.err.notUtf8 && b.stack == [] &&
             |b.data| <= 0x9_0000
    modifies b`data, b`dataSize, b`storage, b`memory, b`err, b`stack
    ensures b.Valid() && b.storage != External && !b.err.notUtf8 && b.stack == [|old(b.data)| + 12]
    ensures b.data == old(b.data) + (Header(ARRAY, TRANSPORTS) + ZERO)
  {
    AsciiIsValid(TRANSPORTS);
    var _ := b.AppendStart(ARRAY, TRANSPORTS);
  }

  method CloseArray(b: Bson, ghost raw: seq<byte>, ghost d: Doc)
    requires b.Valid() && !b.finished && b.storage != External && !b.err.notUtf8
    requires b.stack == [|raw| + 12] && |b.data| <= 0xB_0000
    requires b.data == (raw + (Header(ARRAY, TRANSPORTS) + ZERO)) + Enc(d)
    modifies b`data, b`dataSize, b`storage, b`memory, b`err, b`stack
    ensures b.Valid() && b.storage != External && !b.err.notUtf8 && b.stack == []
    ensures b.data == raw + EncElem(TRANSPORTS, Nested(ARRAY, d))
  {
    ArrayIsWritten(raw, TRANSPORTS, d);
    var _ := b.AppendFinish();
  }

  /** The fields before the transports. */
  method WriteFields(b: Bson, x: Identity, ghost head: seq<byte>)
    requires IsIdentity(x) && Writing(b, head, RecordOf(x), x)
    modifies b`data, b`dataSize, b`storage, b`memory, b`err
    ensures Writing(b, head, Tail(x), x)
  {
    ghost var perms := OptionalElem(PERMISSIONS, x.permissions, Tail(x));
    ghost var keys := BinaryElem(PUBKEY, x.pubkey, Body(x));
    WriteText(b, ALIAS, x.alias, head, BinaryElem(UID, x.uid, keys), x);
    WriteBinary(b, UID, x.uid, head, keys, x);
    WriteBinary(b, PUBKEY, x.pubkey, head, Body(x), x);
    if x.privkey.Some? {
      WriteBinary(b, PRIVKEY, x.privkey.value, head, OptionalElem(META, x.meta, perms), x);
    }
    if x.meta.Some? {
      WriteBinary(b, META, x.meta.value, head, perms, x);
    }
    if x.permissions.Some? {
      WriteBinary(b, PERMISSIONS, x.permissions.value, head, Tail(x), x);
    }
  }

  lemma TailIsWritten(raw: seq<byte>, x: Identity, all: seq<byte>)
    requires |x.transports| == MAX_TRANSPORTS && raw + Enc(Tail(x)) == all
    ensures raw + EncElem(TRANSPORTS, Nested(ARRAY, TransportsFrom(x.transports, 0))) == all
  {
    assert Enc(Tail(x)) == EncElem(TRANSPORTS, Nested(ARRAY, TransportsFrom(x.transports, 0))) + [];
  }

  /** wish_identity_to_bson */
  method ToBson(x: Identity) returns (b: Bson)
    requires IsIdentity(x)
    ensures fresh(b) && b.Valid() && b.finished && b.data == Encode(RecordOf(x))
  {
    b := new Bson.InitSize(PEEK + MAX_TRANSPORTS * MAX_TRANSPORT_LEN);
    ghost var head := b.data;
    WriteFields(b, x, head);
    WritingFits(b, head, Tail(x), x);
    TailIsWritten(b.data, x, head + Enc(RecordOf(x)));
    WriteTransports(b, x.transports);
    SaneRecord(x);
    WholeIsClosed(head, RecordOf(x));
    var _ := b.Finish();
  }

  lemma SaneRecord(x: Identity)
    requires IsIdentity(x)
    ensures WfRoot(RecordOf(x)) && |Enc(RecordOf(x))| + 5 <= MAX_DOC
  {
    RecordIsSane(x);
  }

  // Loading a record ---------------------------------------------------------------------------------

  method ReadDocument(buffer: seq<byte>, path: seq<byte>, ghost d: Doc) returns (r: Option<seq<byte>>)
    requires DocAt(buffer, 0, d)
    ensures r == DocumentAt(Found(d, path))
  {
    var it, t := FindByPath(buffer, path, d);
    r := ReadBinary(it, t, Found(d, path));
    if r.Some? && !(|r.value| >= 4 && Int32(r.value, 0) == |r.value|) {
      r := None;
    }
  }

  method ReadTransports(buffer: seq<byte>, ghost d: Doc) returns (ts: seq<seq<byte>>)
    requires DocAt(buffer, 0, d)
    ensures ts == TransportsUpTo(d, MAX_TRANSPORTS)
  {
    ts := [];
    for i := 0 to MAX_TRANSPORTS
      invariant ts == TransportsUpTo(d, i)
    {
      var it, t := FindByPath(buffer, TransportPath(i), d);
      var s := ReadText(it, t, MAX_TRANSPORT_LEN, Found(d, TransportPath(i)));
      ts := ts + [if s.Some? then s.value else []];
    }
  }

  /** The part of wish_identity_load that reads the record it has found. The source copies 32 bytes of
      the public key without looking at its length. */
  method LoadRecord(buffer: seq<byte>, ghost d: Doc) returns (r: Option<Identity>)
    requires DocAt(buffer, 0, d)
    requires var pubkey := BinaryAt(FindKey(d, PUBKEY)); pubkey.Some? ==> |pubkey.value| >= PUBKEY_LEN
    ensures r == Loaded(d)
  {
    var it, t := FindFromBuffer(buffer, 0, UID, d);
    var uid := ReadBinary(it, t, FindKey(d, UID));
    if uid.None? || |uid.value| != ID_LEN {
      return None;
    }
    it, t := FindFromBuffer(buffer, 0, PUBKEY, d);
    var pubkey := ReadBinary(it, t, FindKey(d, PUBKEY));
    if pubkey.None? {
      return None;
    }
    it, t := FindFromBuffer(buffer, 0, PRIVKEY, d);
    var privkey := ReadBinary(it, t, FindKey(d, PRIVKEY));
    if privkey.Some? && |privkey.value| != PRIVKEY_LEN {
      return None;
    }
    it, t := FindFromBuffer(buffer, 0, ALIAS, d);
    var alias := ReadText(it, t, ALIAS_LEN, FindKey(d, ALIAS));
    if alias.None? {
      return None;
    }
    var ts := ReadTransports(buffer, d);
    var meta := ReadDocument(buffer, META, d);
    var permissions := ReadDocument(buffer, PERMISSIONS, d);
    r := Some(Identity(uid.value, pubkey.value[..PUBKEY_LEN], privkey, alias.value, ts, meta, permissions));
  }
}
