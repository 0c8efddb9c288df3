/** The configuration file of src/wish_config.c: the list of relay servers goes through it unchanged. */
module Config {
  import opened Basics
  import opened Bytes
  import opened Utf8
  import opened BsonTree
  import opened BsonIterator
  import opened BsonPath
  import opened BsonBuilder
  import opened BsonFields
  import R = Relay

  const BUFFER_LEN: nat := 4 * 1024

  const VERSION: seq<byte> := [118, 101, 114, 115, 105, 111, 110]
  const ID: seq<byte> := [105, 100]
  const WLD_CLASS: seq<byte> := [119, 108, 100, 67, 108, 97, 115, 115]
  const RELAY: seq<byte> := [114, 101, 108, 97, 121]

  datatype Settings = Settings(version: seq<byte>, id: seq<byte>, wldClass: seq<byte>, relays: seq<R.Server>)

  /** The relays can be printed, within the buffers that hold their texts. */
  predicate IsSettings(x: Settings) {
    && FitsText(x.version, R.HOST_MAX) && |x.id| == ID_LEN && FitsText(x.wldClass, R.HOST_MAX)
    && forall i :: 0 <= i < |x.relays| ==> R.IsServer(x.relays[i]) && FitsText(R.Print(x.relays[i]), R.HOST_MAX)
  }

  // The document ---------------------------------------------------------------------------------

  function TextElem(key: seq<byte>, v: seq<byte>, rest: Doc): Doc { Elem(key, Atom(STRING, TextPayload(v)), rest) }

  /** The relays from number i on, under their numbers. */
  function RelaysFrom(rs: seq<R.Server>, i: nat): Doc
    requires i <= |rs|
    decreases |rs| - i
  {
    if i == |rs| then End else TextElem(R.Decimal(i), R.Print(rs[i]), RelaysFrom(rs, i + 1))
  }

  function Tail(x: Settings): Doc {
    if x.relays == [] then End else Elem(RELAY, Nested(ARRAY, RelaysFrom(x.relays, 0)), End)
  }

  function Middle(x: Settings): Doc { if x.wldClass == [] then Tail(x) else TextElem(WLD_CLASS, x.wldClass, Tail(x)) }

  function ConfigDoc(x: Settings): Doc { TextElem(VERSION, x.version, BinaryElem(ID, x.id, Middle(x))) }

  lemma {:induction false} RelaysAreWf(rs: seq<R.Server>, i: nat)
    requires i <= |rs| && forall k :: 0 <= k < |rs| ==> FitsText(R.Print(rs[k]), R.HOST_MAX)
    ensures WfDoc(RelaysFrom(rs, i))
    decreases |rs| - i
  {
    if i < |rs| {
      RelaysAreWf(rs, i + 1);
      TextIsRead(R.Print(rs[i]), R.HOST_MAX);
      R.DigitsAreNeither(i);
    }
  }

  lemma RelaysLength(x: Settings)
    requires x.relays != []
    ensures |Enc(Tail(x))| == |Enc(RelaysFrom(x.relays, 0))| + 12
    ensures Enc(Tail(x)) == EncElem(RELAY, Nested(ARRAY, RelaysFrom(x.relays, 0)))
  {
    var v := Nested(ARRAY, RelaysFrom(x.relays, 0));
    assert Enc(Tail(x)) == EncElem(RELAY, v) + [];
    assert EncElem(RELAY, v) == Header(ARRAY, RELAY) + Encode(v.doc);
  }

  lemma KeysAreAscii()
    ensures NoNul(VERSION) && ValidUtf8(VERSION) && NoNul(ID) && ValidUtf8(ID)
    ensures NoNul(WLD_CLASS) && ValidUtf8(WLD_CLASS) && NoNul(RELAY) && ValidUtf8(RELAY)
  {
    AsciiIsValid(VERSION);
    AsciiIsValid(ID);
    AsciiIsValid(WLD_CLASS);
    AsciiIsValid(RELAY);
  }

  lemma TailIsWf(x: Settings)
    requires IsSettings(x) && |Enc(Tail(x))| <= BUFFER_LEN
    ensures WfDoc(Tail(x))
  {
    KeysAreAscii();
    if x.relays != [] {
      RelaysAreWf(x.relays, 0);
      RelaysLength(x);
    }
  }

  lemma ConfigIsWf(x: Settings)
    requires IsSettings(x) && |Encode(ConfigDoc(x))| <= BUFFER_LEN
    ensures WfRoot(ConfigDoc(x))
  {
    KeysAreAscii();
    ConfigLength(x);
    TailIsWf(x);
    TextIsRead(x.wldClass, R.HOST_MAX);
    assert WfDoc(Middle(x));
    BinaryIsRead(x.id);
    assert WfDoc(BinaryElem(ID, x.id, Middle(x)));
    TextIsRead(x.version, R.HOST_MAX);
  }

  lemma ConfigLength(x: Settings)
    ensures |Enc(ConfigDoc(x))| + 5 == |Encode(ConfigDoc(x))|
    ensures |Enc(Tail(x))| <= |Enc(Middle(x))| <= |Enc(ConfigDoc(x))|
    ensures x.relays != [] ==> |Enc(RelaysFrom(x.relays, 0))| <= |Enc(ConfigDoc(x))|
  {
    AtomLength(VERSION, STRING, TextPayload(x.version), BinaryElem(ID, x.id, Middle(x)));
    AtomLength(ID, BINDATA, BinaryPayload(x.id), Middle(x));
    AtomLength(WLD_CLASS, STRING, TextPayload(x.wldClass), Tail(x));
    if x.relays != [] {
      RelaysLength(x);
    }
  }

  // Saving -----------------------------------------------------------------------------------------

  /** What is written and what is still to come make up the document, which fits the buffer. */
  ghost predicate Writing(b: Bson, head: seq<byte>, rest: Doc, all: seq<byte>)
    reads b
  {
    && b.Valid() && !b.finished && b.storage == External && !b.err.notUtf8 && b.stack == []
    && b.dataSize == BUFFER_LEN && |all| + 1 <= BUFFER_LEN && |head| == 4
    && b.data + Enc(rest) == all
  }

  method WriteText(b: Bson, key: seq<byte>, v: seq<byte>, ghost head: seq<byte>, ghost rest: Doc, ghost all: seq<byte>)
    requires Writing(b, head, TextElem(key, v, rest), all) && ValidUtf8(key) && ValidUtf8(v)
    modifies b`data, b`dataSize, b`storage, b`memory, b`err
    ensures Writing(b, head, rest, all)
  {
    AtomLength(key, STRING, TextPayload(v), rest);
    assert |b.data + Enc(TextElem(key, v, rest))| == |b.data| + |Enc(TextElem(key, v, rest))|;
    Moved(b.data, EncElem(key, Atom(STRING, TextPayload(v))), Enc(rest), all);
    var _ := b.AppendStringBase(key, v, STRING);
  }

  method WriteBinary(b: Bson, key: seq<byte>, v: seq<byte>, ghost head: seq<byte>, ghost rest: Doc,
                     ghost all: seq<byte>)
    requires Writing(b, head, BinaryElem(key, v, rest), all) && ValidUtf8(key)
    modifies b`data, b`dataSize, b`storage, b`memory, b`err
    ensures Writing(b, head, rest, all)
  {
    AtomLength(key, BINDATA, BinaryPayload(v), rest);
    assert |b.data + Enc(BinaryElem(key, v, rest))| == |b.data| + |Enc(BinaryElem(key, v, rest))|;
    Moved(b.data, EncElem(key, Atom(BINDATA, BinaryPayload(v))), Enc(rest), all);
    var _ := b.AppendBinary(key, v);
  }

  /** The loop over the list, inside the open array. */
  method WriteRelays(b: Bson, rs: seq<R.Server>)
    requires forall k :: 0 <= k < |rs| ==> FitsText(R.Print(rs[k]), R.HOST_MAX)
    requires b.Valid() && !b.finished && b.storage == External && !b.err.notUtf8
    requires b.dataSize == BUFFER_LEN && |b.data| + |Enc(RelaysFrom(rs, 0))| + 1 <= BUFFER_LEN
    modifies b`data, b`dataSize, b`storage, b`memory, b`err
    ensures b.Valid() && b.storage == External && !b.err.notUtf8 && b.dataSize == BUFFER_LEN
    ensures b.data == old(b.data) + Enc(RelaysFrom(rs, 0))
  {
    ghost var all := b.data + Enc(RelaysFrom(rs, 0));
    for i := 0 to |rs|
      invariant b.Valid() && b.storage == External && !b.err.notUtf8 && b.dataSize == BUFFER_LEN
      invariant b.data + Enc(RelaysFrom(rs, i)) == all
    {
      var host := R.Print(rs[i]);
      R.DigitsAreNeither(i);
      R.DecimalIsDigits(i);
      AsciiIsValid(R.Decimal(i));
      ghost var rest := RelaysFrom(rs, i + 1);
      AtomLength(R.Decimal(i), STRING, TextPayload(host), rest);
      assert |all| == |b.data| + |Enc(TextElem(R.Decimal(i), host, rest))|;
      Moved(b.data, EncElem(R.Decimal(i), Atom(STRING, TextPayload(host))), Enc(rest), all);
      var _ := b.AppendStringBase(R.Decimal(i), host, STRING);
    }
    assert b.data + [] == b.data;
  }

  method WriteArray(b: Bson, x: Settings, ghost head: seq<byte>, ghost all: seq<byte>)
    requires IsSettings(x) && x.relays != [] && Writing(b, head, Tail(x), all)
    modifies b`data, b`dataSize, b`storage, b`memory, b`err, b`stack
    ensures Writing(b, head, End, all)
  {
    KeysAreAscii();
    RelaysLength(x);
    ghost var raw, d := b.data, RelaysFrom(x.relays, 0);
    assert |all| == |raw| + |Enc(d)| + 12;
    OpenArray(b);
    WriteRelays(b, x.relays);
    ArrayIsWritten(raw, RELAY, d);
    CloseArray(b, |raw| + 7);
    assert b.data + [] == b.data;
  }

  method OpenArray(b: Bson)
    requires b.Valid() && !b.finished && b.storage == External && !b.err.notUtf8 && b.stack == []
    requires |b.data| + 12 <= b.dataSize == BUFFER_LEN
    modifies b`data, b`dataSize, b`storage, b`memory, b`err, b`stack
    ensures b.Valid() && b.storage == External && !b.err.notUtf8 && b.dataSize == BUFFER_LEN
    ensures b.stack == [|old(b.data)| + 7] && b.data == old(b.data) + (Header(ARRAY, RELAY) + ZERO)
  {
    KeysAreAscii();
    var _ := b.AppendStart(ARRAY, RELAY);
  }

  method CloseArray(b: Bson, ghost start: nat)
    requires b.Valid() && b.storage == External && !b.err.notUtf8 && !b.finished && b.stack == [start]
    requires start + 4 <= |b.data| && |b.data| + 1 <= b.dataSize == BUFFER_LEN
    modifies b`data, b`dataSize, b`storage, b`memory, b`err, b`stack
    ensures b.Valid() && b.storage == External && !b.err.notUtf8 && b.stack == [] && b.dataSize == BUFFER_LEN
    ensures b.data == Closed(old(b.data), start)
  {
    var _ := b.AppendFinish();
  }

  /** wish_core_config_save: the bytes of the file. */
  method Save(x: Settings) returns (file: seq<byte>)
    requires IsSettings(x) && |Encode(ConfigDoc(x))| <= BUFFER_LEN
    ensures file == Encode(ConfigDoc(x))
  {
    KeysAreAscii();
    ConfigLength(x);
    var b := new Bson.InitBuffer(BUFFER_LEN);
    ghost var head := b.data;
    ghost var all := head + Enc(ConfigDoc(x));
    WriteText(b, VERSION, x.version, head, BinaryElem(ID, x.id, Middle(x)), all);
    WriteBinary(b, ID, x.id, head, Middle(x), all);
    if x.wldClass != [] {
      WriteText(b, WLD_CLASS, x.wldClass, head, Tail(x), all);
    }
    if x.relays != [] {
      WriteArray(b, x, head, all);
    }
    assert b.data + [] == b.data;
    WholeIsClosed(head, ConfigDoc(x));
    var _ := b.Finish();
    file := b.data;
  }

  // Loading ----------------------------------------------------------------------------------------

  lemma RelayIsFound(x: Settings)
    ensures FindKey(ConfigDoc(x), RELAY) == Tail(x)
  {
    assert |VERSION| == 7 && |ID| == 2 && |WLD_CLASS| == 8 && |RELAY| == 5;
    assert FindKey(Middle(x), RELAY) == Tail(x);
    assert FindKey(BinaryElem(ID, x.id, Middle(x)), RELAY) == FindKey(Middle(x), RELAY);
  }

  /** What the file holds under its keys; an empty discovery class and an empty list are not there. */
  lemma ConfigHolds(x: Settings)
    requires IsSettings(x) && |Encode(ConfigDoc(x))| <= BUFFER_LEN
    ensures var d := ConfigDoc(x);
            && WfDoc(d)
            && TextAt(FindKey(d, VERSION), R.HOST_MAX) == Some(x.version)
            && BinaryAt(FindKey(d, ID)) == Some(x.id)
            && TextAt(FindKey(d, WLD_CLASS), R.HOST_MAX) == (if x.wldClass == [] then None else Some(x.wldClass))
            && (FindKey(d, RELAY).Elem? <==> x.relays != [])
  {
    var d := ConfigDoc(x);
    ConfigIsWf(x);
    assert |VERSION| == 7 && |ID| == 2 && |WLD_CLASS| == 8 && |RELAY| == 5;
    RelayIsFound(x);
    TextIsRead(x.version, R.HOST_MAX);
    BinaryIsRead(x.id);
    assert FindKey(d, ID) == BinaryElem(ID, x.id, Middle(x));
    assert FindKey(Tail(x), WLD_CLASS) == End;
    assert FindKey(d, WLD_CLASS) == FindKey(Middle(x), WLD_CLASS);
    if x.wldClass != [] {
      TextIsRead(x.wldClass, R.HOST_MAX);
    }
  }

  /** The search for a number finds the relay of that number. */
  lemma {:induction false} NumberIsFound(rs: seq<R.Server>, i: nat, j: nat)
    requires i <= |rs| && i <= j
    ensures Search(RelaysFrom(rs, i), [], R.Decimal(j)) == if j < |rs| then RelaysFrom(rs, j) else End
    decreases |rs| - i
  {
    if i < |rs| {
      if R.Decimal(i) == R.Decimal(j) {
        R.DecimalIsInjective(i, j);
      } else {
        NumberIsFound(rs, i + 1, j);
      }
    }
  }

  /** Adding the printed text of a server that is not in the list appends it. */
  lemma AddingPrinted(rs: seq<R.Server>, i: nat)
    requires i < |rs| && R.NoDuplicates(rs) && R.IsServer(rs[i])
    ensures R.IsTransport(R.Print(rs[i])) && R.Added(rs[..i], R.Print(rs[i])) == rs[..i + 1]
  {
    R.ServerRoundTrip(rs[i]);
    assert rs[..i + 1] == rs[..i] + [rs[i]];
  }

  /** The relay part of wish_core_config_load, on a file that was saved. */
  method Load(file: seq<byte>, db: R.RelayDb, ghost x: Settings) returns (r: int)
    requires IsSettings(x) && |Encode(ConfigDoc(x))| <= BUFFER_LEN && file == Encode(ConfigDoc(x))
    requires R.NoDuplicates(x.relays) && db.relays == []
    modifies db
    ensures r == 0 && db.relays == x.relays
  {
    ghost var d := ConfigDoc(x);
    ConfigIsWf(x);
    assert file[..|file|] == file;
    DocStart(file, 0, d);
    if |file| < 4 {
      return -2;
    }
    var size := Int32(file, 0);
    if size > BUFFER_LEN {
      return -3;
    }
    RelayIsFound(x);
    var it, t := FindFromBuffer(file, 0, RELAY, d);
    if t == ARRAY {
      LoadRelays(it, db, x);
    }
    r := 0;
  }

  method LoadRelays(it: Iterator, db: R.RelayDb, ghost x: Settings)
    requires IsSettings(x) && R.NoDuplicates(x.relays) && db.relays == []
    requires x.relays != [] && it.On(Tail(x))
    modifies db
    ensures db.relays == x.relays
  {
    var si := 0;
    ghost var rs := x.relays;
    while true
      invariant si <= |rs| && db.relays == rs[..si]
      decreases |rs| - si
    {
      var sindex := R.Decimal(si);
      ghost var n := si;
      si := si + 1;
      var sit := it.SubIterator(Tail(x));
      var t := FindFieldPathValue(sindex, sit, RelaysFrom(rs, 0));
      SearchIsFirstInPreorder(RelaysFrom(rs, 0), [], sindex);
      NumberIsFound(rs, 0, n);
      if t == EOO {
        break;
      }
      if t != STRING {
        continue;
      }
      ghost var e := RelaysFrom(rs, n);
      RelaysAreWf(rs, n);
      var host := ReadText(sit, t, R.HOST_MAX, e);
      TextIsRead(R.Print(rs[n]), R.HOST_MAX);
      AddingPrinted(rs, n);
      db.Add(host.value);
    }
  }
}
