/** The identity database of src/wish_identity.c as a list of records: where they stand in the file,
    and what saving, removing and updating mean. */
module IdentityFile {
  import opened Basics
  import opened Bytes
  import opened BsonTree
  import opened BsonIterator
  import opened BsonBuilder
  import opened BsonFields
  import opened IdentityRecord

  // Lists of records ---------------------------------------------------------------------------

  /** A record as the scans see it: its uid, its bytes, and the document they encode. */
  datatype Entry = Entry(uid: seq<byte>, bytes: seq<byte>, doc: Doc)

  /** A record as the core writes it, with a full uid. */
  ghost predicate IsRecord(e: Entry) {
    && WfRoot(e.doc) && e.bytes == Encode(e.doc)
    && BinaryAt(FindKey(e.doc, UID)) == Some(e.uid) && |e.uid| == ID_LEN
    && (BinaryAt(FindKey(e.doc, PUBKEY)).Some? ==> |BinaryAt(FindKey(e.doc, PUBKEY)).value| >= PUBKEY_LEN)
  }

  /** Scans read a record with one read of this length. The code does not enforce it when it saves. */
  predicate Short(e: Entry) { |e.bytes| <= PEEK }

  function EntryOf(x: Identity): Entry
    requires |x.transports| == MAX_TRANSPORTS
  {
    Entry(x.uid, Encode(RecordOf(x)), RecordOf(x))
  }

  lemma EntryIsRecord(x: Identity)
    requires IsIdentity(x)
    ensures IsRecord(EntryOf(x))
  {
    SaneRecord(x);
    KeysAreFound(x);
  }

  lemma BinaryIsWithin(key: seq<byte>, v: seq<byte>, rest: Doc)
    ensures |Enc(BinaryElem(key, v, rest))| >= |Enc(rest)| + |v|
  {
    AtomLength(key, BINDATA, BinaryPayload(v), rest);
  }

  lemma OptionalIsWithin(key: seq<byte>, v: Option<seq<byte>>, rest: Doc)
    ensures |Enc(OptionalElem(key, v, rest))| >= |Enc(rest)| + if v.Some? then |v.value| else 0
  {
    if v.Some? {
      BinaryIsWithin(key, v.value, rest);
    }
  }

  lemma MetaIsWithin(x: Identity)
    requires IsIdentity(x) && x.meta.Some?
    ensures |x.meta.value| <= |Encode(RecordOf(x))|
  {
    var perms := OptionalElem(PERMISSIONS, x.permissions, Tail(x));
    var meta := OptionalElem(META, x.meta, perms);
    var keys := BinaryElem(PUBKEY, x.pubkey, Body(x));
    OptionalIsWithin(META, x.meta, perms);
    OptionalIsWithin(PRIVKEY, x.privkey, meta);
    BinaryIsWithin(PUBKEY, x.pubkey, Body(x));
    BinaryIsWithin(UID, x.uid, keys);
    AtomLength(ALIAS, STRING, TextPayload(x.alias), BinaryElem(UID, x.uid, keys));
    assert RecordOf(x) == Elem(ALIAS, Atom(STRING, TextPayload(x.alias)), BinaryElem(UID, x.uid, keys));
  }

  /** An identity with large meta data has a record that is too long. */
  lemma LargeMetaIsLong(x: Identity)
    requires IsIdentity(x) && x.meta.Some? && |x.meta.value| > PEEK
    ensures !Short(EntryOf(x))
  {
    MetaIsWithin(x);
  }

  ghost predicate AreRecords(rs: seq<Entry>) {
    forall i {:trigger IsRecord(rs[i])} :: 0 <= i < |rs| ==> IsRecord(rs[i])
  }

  /** The bytes of the first k records. */
  function FileTo(rs: seq<Entry>, k: nat): seq<byte>
    requires k <= |rs|
  {
    if k == 0 then [] else FileTo(rs, k - 1) + rs[k - 1].bytes
  }

  function FileOf(rs: seq<Entry>): seq<byte> { FileTo(rs, |rs|) }

  predicate HasTo(rs: seq<Entry>, uid: seq<byte>, k: nat)
    requires k <= |rs|
  {
    k > 0 && (HasTo(rs, uid, k - 1) || rs[k - 1].uid == uid)
  }

  /** How many records come before the first that is too long. */
  function SeenFrom(rs: seq<Entry>, i: nat): (n: nat)
    requires i <= |rs|
    ensures i <= n <= |rs|
    ensures forall j :: i <= j < n ==> Short(rs[j])
    ensures n < |rs| ==> !Short(rs[n])
    decreases |rs| - i
  {
    if i == |rs| || !Short(rs[i]) then i else SeenFrom(rs, i + 1)
  }

  function Seen(rs: seq<Entry>): (n: nat)
    ensures n <= |rs|
  {
    SeenFrom(rs, 0)
  }

  predicate AllShort(rs: seq<Entry>) { Seen(rs) == |rs| }

  /** Scans see the records in front of the first that is too long. */
  predicate Has(rs: seq<Entry>, uid: seq<byte>) { HasTo(rs, uid, Seen(rs)) }

  /** The records of other uids. */
  function WithoutTo(rs: seq<Entry>, uid: seq<byte>, k: nat): (r: seq<Entry>)
    requires k <= |rs|
  {
    if k == 0 then []
    else if rs[k - 1].uid == uid then WithoutTo(rs, uid, k - 1)
    else WithoutTo(rs, uid, k - 1) + [rs[k - 1]]
  }

  function Without(rs: seq<Entry>, uid: seq<byte>): (r: seq<Entry>) { WithoutTo(rs, uid, Seen(rs)) }

  function Renewed(r: Entry, uid: seq<byte>, d: Entry): Entry {
    if r.uid == uid then d else r
  }

  /** The records of the uid replaced, in place. */
  function ReplacedTo(rs: seq<Entry>, uid: seq<byte>, d: Entry, k: nat): (r: seq<Entry>)
    requires k <= |rs|
    ensures |r| == k
  {
    if k == 0 then [] else ReplacedTo(rs, uid, d, k - 1) + [Renewed(rs[k - 1], uid, d)]
  }

  function Replaced(rs: seq<Entry>, uid: seq<byte>, d: Entry): (r: seq<Entry>)
    ensures |r| == Seen(rs)
  {
    ReplacedTo(rs, uid, d, Seen(rs))
  }

  /** The first record of the uid. */
  function FirstTo(rs: seq<Entry>, uid: seq<byte>, k: nat): (r: Option<Entry>)
    requires k <= |rs|
    ensures r.Some? <==> HasTo(rs, uid, k)
    ensures r.Some? ==> r.value in rs && r.value.uid == uid
  {
    if k == 0 then None
    else
      var r := FirstTo(rs, uid, k - 1);
      if r.Some? then r else if rs[k - 1].uid == uid then Some(rs[k - 1]) else None
  }

  function FirstOf(rs: seq<Entry>, uid: seq<byte>): (r: Option<Entry>)
    ensures r.Some? <==> Has(rs, uid)
    ensures r.Some? ==> r.value in rs && r.value.uid == uid
  {
    FirstTo(rs, uid, Seen(rs))
  }

  // Where records stand in the file ----------------------------------------------------------------

  lemma {:induction false} FileHolds(rs: seq<Entry>, k: nat, n: nat)
    requires k < n <= |rs|
    ensures Holds(FileTo(rs, n), |FileTo(rs, k)|, rs[k].bytes)
    decreases n
  {
    if k + 1 < n {
      FileHolds(rs, k, n - 1);
      HoldsMore(FileTo(rs, n - 1), rs[n - 1].bytes, |FileTo(rs, k)|, rs[k].bytes);
    } else {
      assert FileTo(rs, n) == FileTo(rs, k) + rs[k].bytes;
    }
  }

  lemma HoldsMore(a: seq<byte>, b: seq<byte>, pos: nat, piece: seq<byte>)
    requires Holds(a, pos, piece)
    ensures Holds(a + b, pos, piece)
  {
    assert (a + b)[pos..pos + |piece|] == a[pos..pos + |piece|];
  }

  lemma PeekHolds(file: seq<byte>, pos: nat, piece: seq<byte>, peek: seq<byte>)
    requires Holds(file, pos, piece) && |piece| <= PEEK
    requires peek == file[pos..if pos + PEEK <= |file| then pos + PEEK else |file|]
    ensures Holds(peek, 0, piece)
  {
    assert peek[..|piece|] == file[pos..pos + |piece|];
  }

  predicate IsPeek(file: seq<byte>, o: nat, peek: seq<byte>) {
    if o < |file| then peek == file[o..if o + PEEK <= |file| then o + PEEK else |file|] else peek == []
  }

  lemma ShortPeek(file: seq<byte>, o: nat, d: Doc, peek: seq<byte>)
    requires WfRoot(d) && Holds(file, o, Encode(d)) && IsPeek(file, o, peek) && |Encode(d)| <= PEEK
    ensures 4 <= |peek| && Int32(peek, 0) == |Encode(d)| && DocAt(peek, 0, d)
  {
    assert |Encode(d)| == |Enc(d)| + 5;
    PeekHolds(file, o, Encode(d), peek);
    DocStart(peek, 0, d);
  }

  lemma LongPeek(file: seq<byte>, o: nat, d: Doc, peek: seq<byte>)
    requires WfRoot(d) && Holds(file, o, Encode(d)) && IsPeek(file, o, peek) && |Encode(d)| > PEEK
    ensures 4 <= |peek| && Int32(peek, 0) == |Encode(d)|
  {
    assert |Encode(d)| == |Enc(d)| + 5;
    EncodeHeader(d, file, o);
    assert |peek| == PEEK && forall i :: 0 <= i < 4 ==> peek[i] == file[o + i];
  }

  /** What one read at the start of a record gives: the record, or a length that is too large. */
  lemma PeekAt(rs: seq<Entry>, k: nat, peek: seq<byte>)
    requires AreRecords(rs) && k < |rs| && k <= Seen(rs) && IsPeek(FileOf(rs), |FileTo(rs, k)|, peek)
    ensures IsRecord(rs[k]) && 4 <= |peek| && Int32(peek, 0) == |rs[k].bytes|
    ensures if k < Seen(rs) then Short(rs[k]) && DocAt(peek, 0, rs[k].doc) else !Short(rs[k])
  {
    assert IsRecord(rs[k]);
    FileHolds(rs, k, |rs|);
    if Short(rs[k]) {
      ShortPeek(FileOf(rs), |FileTo(rs, k)|, rs[k].doc, peek);
    } else {
      LongPeek(FileOf(rs), |FileTo(rs, k)|, rs[k].doc, peek);
    }
  }

  lemma {:induction false} FileOfFront(rs: seq<Entry>, d: Entry, k: nat)
    requires k <= |rs|
    ensures FileTo(rs + [d], k) == FileTo(rs, k)
  {
    if k > 0 {
      FileOfFront(rs, d, k - 1);
    }
  }

  lemma FileGrows(rs: seq<Entry>, d: Entry)
    ensures FileOf(rs + [d]) == FileOf(rs) + d.bytes
  {
    FileOfFront(rs, d, |rs|);
  }

  lemma BothAreRecords(rs: seq<Entry>, d: Entry)
    requires AreRecords(rs) && IsRecord(d)
    ensures AreRecords(rs + [d])
  {
    forall i | 0 <= i < |rs| + 1 ensures IsRecord((rs + [d])[i]) {
      assert i < |rs| ==> IsRecord(rs[i]);
    }
  }

  lemma {:induction false} WithoutAreRecords(rs: seq<Entry>, uid: seq<byte>, k: nat)
    requires AreRecords(rs) && k <= |rs|
    ensures AreRecords(WithoutTo(rs, uid, k))
  {
    if k > 0 {
      WithoutAreRecords(rs, uid, k - 1);
      assert IsRecord(rs[k - 1]);
      BothAreRecords(WithoutTo(rs, uid, k - 1), rs[k - 1]);
    }
  }

  lemma {:induction false} ReplacedAreRecords(rs: seq<Entry>, uid: seq<byte>, d: Entry, k: nat)
    requires AreRecords(rs) && IsRecord(d) && k <= |rs|
    ensures AreRecords(ReplacedTo(rs, uid, d, k))
  {
    if k > 0 {
      ReplacedAreRecords(rs, uid, d, k - 1);
      assert IsRecord(rs[k - 1]);
      BothAreRecords(ReplacedTo(rs, uid, d, k - 1), Renewed(rs[k - 1], uid, d));
    }
  }

  lemma {:induction false} HasStays(rs: seq<Entry>, uid: seq<byte>, k: nat, n: nat)
    requires k <= n <= |rs| && HasTo(rs, uid, k)
    ensures HasTo(rs, uid, n)
    decreases n
  {
    if k < n {
      HasStays(rs, uid, k, n - 1);
    }
  }

  lemma {:induction false} FirstStays(rs: seq<Entry>, uid: seq<byte>, k: nat, n: nat)
    requires k <= n <= |rs| && FirstTo(rs, uid, k).Some?
    ensures FirstTo(rs, uid, n) == FirstTo(rs, uid, k)
    decreases n
  {
    if k < n {
      FirstStays(rs, uid, k, n - 1);
    }
  }

  // Writing over a file that is not empty ----------------------------------------------------------

  /** A file after writing from its start. */
  function Over(bytes: seq<byte>, was: seq<byte>): seq<byte> {
    bytes + if |bytes| <= |was| then was[|bytes|..] else []
  }

  lemma NothingOver(was: seq<byte>)
    ensures Over(FileTo([], 0), was) == was
  {
  }

  lemma OverGrows(a: seq<byte>, b: seq<byte>, was: seq<byte>)
    ensures var f, n := Over(a, was), |a| + |b|;
            |a| <= |f| && Over(a + b, was) == f[..|a|] + b + (if n <= |f| then f[n..] else [])
  {
    var f, n := Over(a, was), |a| + |b|;
    assert f[..|a|] == a;
    if n <= |was| {
      assert f[n..] == was[n..];
    } else {
      assert n <= |f| ==> f[n..] == [];
    }
  }

  /** Only the new bytes are in the file exactly if there were no more before. */
  lemma OverIsExactIff(bytes: seq<byte>, was: seq<byte>)
    ensures Over(bytes, was) == bytes <==> |was| <= |bytes|
  {
    assert |Over(bytes, was)| == if |bytes| <= |was| then |was| else |bytes|;
    if |was| == |bytes| {
      assert was[|bytes|..] == [];
    }
  }

  // What the operations mean on the list ------------------------------------------------------------

  lemma SeenIs(rs: seq<Entry>, k: nat)
    requires k <= |rs| && (forall j :: 0 <= j < k ==> Short(rs[j])) && (k < |rs| ==> !Short(rs[k]))
    ensures Seen(rs) == k
  {
  }

  lemma SeenOfConcat(rs: seq<Entry>, more: seq<Entry>)
    ensures Seen(rs + more) == if AllShort(rs) then |rs| + Seen(more) else Seen(rs)
  {
    var all, n := rs + more, Seen(more);
    assert forall j :: 0 <= j < |rs| ==> all[j] == rs[j];
    if AllShort(rs) {
      assert n < |more| ==> all[|rs| + n] == more[n];
      assert forall j :: |rs| <= j < |rs| + n ==> all[j] == more[j - |rs|];
      SeenIs(all, |rs| + n);
    } else {
      SeenIs(all, Seen(rs));
    }
  }

  lemma SeenOfOne(d: Entry)
    ensures Seen([d]) == if Short(d) then 1 else 0
  {
    SeenIs([d], if Short(d) then 1 else 0);
  }

  lemma {:induction false} FirstOfFront(rs: seq<Entry>, more: seq<Entry>, uid: seq<byte>, k: nat)
    requires k <= |rs|
    ensures FirstTo(rs + more, uid, k) == FirstTo(rs, uid, k)
  {
    if k > 0 {
      FirstOfFront(rs, more, uid, k - 1);
      assert (rs + more)[k - 1] == rs[k - 1];
    }
  }

  lemma FirstOfSnoc(rs: seq<Entry>, d: Entry, uid: seq<byte>)
    ensures FirstOf(rs + [d], uid) ==
            if FirstOf(rs, uid).Some? then FirstOf(rs, uid)
            else if AllShort(rs) && Short(d) && d.uid == uid then Some(d) else None
  {
    SeenOfConcat(rs, [d]);
    SeenOfOne(d);
    FirstOfFront(rs, [d], uid, Seen(rs));
    assert (rs + [d])[|rs|] == d;
  }

  lemma {:induction false} WithoutIsShort(rs: seq<Entry>, uid: seq<byte>, k: nat)
    requires k <= Seen(rs)
    ensures AllShort(WithoutTo(rs, uid, k)) && |WithoutTo(rs, uid, k)| <= k
  {
    if k > 0 {
      WithoutIsShort(rs, uid, k - 1);
      SeenOfConcat(WithoutTo(rs, uid, k - 1), [rs[k - 1]]);
      SeenOfOne(rs[k - 1]);
    }
  }

  lemma {:induction false} OthersStay(rs: seq<Entry>, uid: seq<byte>, other: seq<byte>, k: nat)
    requires k <= Seen(rs)
    ensures FirstOf(WithoutTo(rs, uid, k), other) == if other == uid then None else FirstTo(rs, other, k)
  {
    if k > 0 {
      OthersStay(rs, uid, other, k - 1);
      WithoutIsShort(rs, uid, k - 1);
      FirstOfSnoc(WithoutTo(rs, uid, k - 1), rs[k - 1], other);
    }
  }

  /** Where the records of other uids stand, in rising order. */
  function Places(rs: seq<Entry>, uid: seq<byte>, k: nat): (at: seq<nat>)
    requires k <= |rs|
    ensures forall i :: 0 <= i < |at| ==> at[i] < k
    ensures forall i, j :: 0 <= i < j < |at| ==> at[i] < at[j]
  {
    if k == 0 then []
    else if rs[k - 1].uid == uid then Places(rs, uid, k - 1)
    else Places(rs, uid, k - 1) + [k - 1]
  }

  lemma {:induction false} PlacesMean(rs: seq<Entry>, uid: seq<byte>, k: nat, j: nat)
    requires j < k <= |rs|
    ensures j in Places(rs, uid, k) <==> rs[j].uid != uid
    decreases k
  {
    var front := Places(rs, uid, k - 1);
    if j < k - 1 {
      PlacesMean(rs, uid, k - 1, j);
      assert j in front + [k - 1] <==> j in front;
    } else {
      assert j !in front;
      assert j in front + [k - 1];
    }
  }

  /** What is left are exactly the other records that scans see, in their order. */
  lemma {:induction false} OthersInOrder(rs: seq<Entry>, uid: seq<byte>, k: nat, i: nat)
    requires k <= |rs|
    ensures |WithoutTo(rs, uid, k)| == |Places(rs, uid, k)|
    ensures i < |Places(rs, uid, k)| ==> WithoutTo(rs, uid, k)[i] == rs[Places(rs, uid, k)[i]]
    decreases k
  {
    if k > 0 {
      OthersInOrder(rs, uid, k - 1, i);
    }
  }

  lemma {:induction false} NothingToRemove(rs: seq<Entry>, uid: seq<byte>, k: nat)
    requires k <= |rs| && !HasTo(rs, uid, k)
    ensures WithoutTo(rs, uid, k) == rs[..k]
  {
    if k > 0 {
      NothingToRemove(rs, uid, k - 1);
    }
  }

  /** Removing leaves no record of the uid; every other uid loads as before. */
  lemma WithoutMeans(rs: seq<Entry>, uid: seq<byte>, other: seq<byte>)
    ensures AllShort(Without(rs, uid)) && !Has(Without(rs, uid), uid)
    ensures !Has(rs, uid) ==> Without(rs, uid) == rs[..Seen(rs)]
    ensures other != uid ==> FirstOf(Without(rs, uid), other) == FirstOf(rs, other)
  {
    WithoutIsShort(rs, uid, Seen(rs));
    OthersStay(rs, uid, uid, Seen(rs));
    OthersStay(rs, uid, other, Seen(rs));
    if !Has(rs, uid) {
      NothingToRemove(rs, uid, Seen(rs));
    }
  }

  lemma {:induction false} ReplacedAt(rs: seq<Entry>, uid: seq<byte>, d: Entry, k: nat, i: nat)
    requires i < k <= |rs|
    ensures ReplacedTo(rs, uid, d, k)[i] == Renewed(rs[i], uid, d)
    decreases k
  {
    if i < k - 1 {
      ReplacedAt(rs, uid, d, k - 1, i);
    }
  }

  /** Updating keeps number, order and uids of the records that scans see, and renews exactly those of the
      uid. */
  lemma ReplacedMeans(rs: seq<Entry>, uid: seq<byte>, d: Entry, i: nat)
    requires d.uid == uid && i < Seen(rs)
    ensures |Replaced(rs, uid, d)| == Seen(rs)
    ensures Replaced(rs, uid, d)[i] == if rs[i].uid == uid then d else rs[i]
    ensures Replaced(rs, uid, d)[i].uid == rs[i].uid
  {
    ReplacedAt(rs, uid, d, Seen(rs), i);
  }

  /** A saved new identity loads exactly if its record and all before it are short enough; removing it undoes
      the saving. */
  lemma SavedIsLoadedIff(rs: seq<Entry>, x: Identity)
    requires IsIdentity(x) && !Has(rs, x.uid)
    ensures WfDoc(RecordOf(x)) && Loaded(RecordOf(x)) == Some(x)
    ensures FirstOf(rs + [EntryOf(x)], x.uid) ==
            if AllShort(rs) && Short(EntryOf(x)) then Some(EntryOf(x)) else None
    ensures Without(rs + [EntryOf(x)], x.uid) == rs[..Seen(rs)]
  {
    var d := EntryOf(x);
    RecordRoundTrip(x);
    FirstOfSnoc(rs, d, x.uid);
    SeenOfConcat(rs, [d]);
    SeenOfOne(d);
    WithoutOfFront(rs, [d], x.uid, Seen(rs));
    NothingToRemove(rs, x.uid, Seen(rs));
    assert (rs + [d])[|rs|] == d;
  }

  lemma {:induction false} WithoutOfFront(rs: seq<Entry>, more: seq<Entry>, uid: seq<byte>, k: nat)
    requires k <= |rs|
    ensures WithoutTo(rs + more, uid, k) == WithoutTo(rs, uid, k)
  {
    if k > 0 {
      WithoutOfFront(rs, more, uid, k - 1);
      assert (rs + more)[k - 1] == rs[k - 1];
    }
  }

  lemma {:induction false} ReplacedOfFront(rs: seq<Entry>, more: seq<Entry>, uid: seq<byte>, d: Entry, k: nat)
    requires k <= |rs|
    ensures ReplacedTo(rs + more, uid, d, k) == ReplacedTo(rs, uid, d, k)
  {
    if k > 0 {
      ReplacedOfFront(rs, more, uid, d, k - 1);
      assert (rs + more)[k - 1] == rs[k - 1];
    }
  }

  /** From a record that is too long on, nothing is found, and removing or updating any identity loses it all:
      the file is rewritten as if these records had never been saved. */
  lemma TooLongIsLost(rs: seq<Entry>, long: Entry, more: seq<Entry>, uid: seq<byte>, d: Entry)
    requires !Short(long)
    ensures var all := rs + ([long] + more);
            && FirstOf(all, uid) == FirstOf(rs, uid)
            && Without(all, uid) == Without(rs, uid)
            && Replaced(all, uid, d) == Replaced(rs, uid, d)
  {
    var tail := [long] + more;
    SeenIs(tail, 0);
    SeenOfConcat(rs, tail);
    FirstOfFront(rs, tail, uid, Seen(rs));
    WithoutOfFront(rs, tail, uid, Seen(rs));
    ReplacedOfFront(rs, tail, uid, d, Seen(rs));
  }

  lemma {:induction false} ReplacedIsShort(rs: seq<Entry>, uid: seq<byte>, d: Entry, k: nat)
    requires k <= Seen(rs) && (Short(d) || !HasTo(rs, uid, k))
    ensures AllShort(ReplacedTo(rs, uid, d, k))
  {
    if k > 0 {
      ReplacedIsShort(rs, uid, d, k - 1);
      SeenOfConcat(ReplacedTo(rs, uid, d, k - 1), [Renewed(rs[k - 1], uid, d)]);
      SeenOfOne(Renewed(rs[k - 1], uid, d));
    }
  }

  lemma {:induction false} FirstOfReplaced(rs: seq<Entry>, uid: seq<byte>, d: Entry, other: seq<byte>, k: nat)
    requires d.uid == uid && k <= Seen(rs) && Short(d)
    ensures FirstOf(ReplacedTo(rs, uid, d, k), other) ==
            if other == uid && HasTo(rs, uid, k) then Some(d) else FirstTo(rs, other, k)
  {
    if k > 0 {
      FirstOfReplaced(rs, uid, d, other, k - 1);
      ReplacedIsShort(rs, uid, d, k - 1);
      FirstOfSnoc(ReplacedTo(rs, uid, d, k - 1), Renewed(rs[k - 1], uid, d), other);
    }
  }

  /** A renewed record that is too long is not found. */
  lemma {:induction false} LongIsNotFound(rs: seq<Entry>, uid: seq<byte>, d: Entry, k: nat)
    requires d.uid == uid && k <= Seen(rs) && !Short(d)
    ensures FirstOf(ReplacedTo(rs, uid, d, k), uid).None?
  {
    if k > 0 {
      LongIsNotFound(rs, uid, d, k - 1);
      FirstOfSnoc(ReplacedTo(rs, uid, d, k - 1), Renewed(rs[k - 1], uid, d), uid);
    }
  }

  /** An updated identity that is there loads exactly if its new record is short enough, and then every other
      uid loads as before. */
  lemma UpdatedIsLoadedIff(rs: seq<Entry>, x: Identity, other: seq<byte>)
    requires IsIdentity(x) && Has(rs, x.uid)
    ensures WfDoc(RecordOf(x)) && Loaded(RecordOf(x)) == Some(x)
    ensures FirstOf(Replaced(rs, x.uid, EntryOf(x)), x.uid) == if Short(EntryOf(x)) then Some(EntryOf(x)) else None
    ensures Short(EntryOf(x)) && other != x.uid ==>
              FirstOf(Replaced(rs, x.uid, EntryOf(x)), other) == FirstOf(rs, other)
  {
    RecordRoundTrip(x);
    if Short(EntryOf(x)) {
      FirstOfReplaced(rs, x.uid, EntryOf(x), x.uid, Seen(rs));
      FirstOfReplaced(rs, x.uid, EntryOf(x), other, Seen(rs));
    } else {
      LongIsNotFound(rs, x.uid, EntryOf(x), Seen(rs));
    }
  }
}
