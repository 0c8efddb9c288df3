/** The identity database of src/wish_identity.c: a file that is a concatenation of BSON records,
    scanned from the start and rewritten through a temporary file. It behaves as a list of records. */
module IdentityStore {
  import opened Basics
  import opened Bytes
  import opened BsonTree
  import opened BsonIterator
  import opened BsonBuilder
  import opened BsonFields
  import opened IdentityRecord
  import opened IdentityFile

  const MAX_UIDS: nat := 512

  datatype FileName = Database | Temporary

  /** What a step of a scan has found: the record's bytes, its uid, and all that was read. */
  datatype Next = EndOfFile | Corrupt | Record(bytes: seq<byte>, uid: seq<byte>, peek: seq<byte>)

  class Store {
    var files: map<FileName, seq<byte>>
    /** The records that the database file stands for. */
    ghost var records: seq<Entry>

    /** An absent database is an empty one. A temporary file may be left over from an operation cut short. */
    ghost predicate Valid()
      reads this
    {
      AreRecords(records) && if Database in files then files[Database] == FileOf(records) else records == []
    }

    ghost function Leftover(): seq<byte>
      reads this
    {
      if Temporary in files then files[Temporary] else []
    }

    ghost predicate Scanning()
      reads this
    {
      AreRecords(records) && Database in files && files[Database] == FileOf(records)
    }

    constructor ()
      ensures Valid() && records == [] && Leftover() == []
    {
      files, records := map[], [];
    }

    /** Opening creates a file that is absent, and does not truncate one that is there. */
    method Open(name: FileName)
      modifies this`files
      ensures files == if name in old(files) then old(files) else old(files)[name := []]
    {
      if name !in files {
        files := files[name := []];
      }
    }

    method Read(name: FileName, offset: nat, count: nat) returns (bytes: seq<byte>)
      requires name in files
      ensures offset >= |files[name]| ==> bytes == []
      ensures offset < |files[name]| ==>
                bytes == files[name][offset..if offset + count <= |files[name]| then offset + count else |files[name]|]
    {
      var f := files[name];
      if offset >= |f| {
        return [];
      }
      bytes := f[offset..if offset + count <= |f| then offset + count else |f|];
    }

    /** Writing at a position covers what was there. */
    method Write(name: FileName, pos: nat, bytes: seq<byte>) returns (pos': nat)
      requires name in files && pos <= |files[name]|
      modifies this`files
      ensures pos' == pos + |bytes|
      ensures files == old(files)[name := old(files)[name][..pos] + bytes +
                                          (if pos' <= |old(files)[name]| then old(files)[name][pos'..] else [])]
    {
      var f := files[name];
      pos' := pos + |bytes|;
      files := files[name := f[..pos] + bytes + (if pos' <= |f| then f[pos'..] else [])];
    }

    /** The step that every scan repeats: seek, read, length, uid. */
    method NextRecord(offset: nat, ghost k: nat) returns (n: Next)
      requires Scanning() && k <= Seen(records) && offset == |FileTo(records, k)|
      ensures k == |records| ==> n == EndOfFile
      ensures k == Seen(records) < |records| ==> n == Corrupt
      ensures k < Seen(records) ==>
                && n.Record? && n.bytes == records[k].bytes && n.uid == records[k].uid
                && IsRecord(records[k]) && |n.uid| == ID_LEN && DocAt(n.peek, 0, records[k].doc)
                && offset + |n.bytes| == |FileTo(records, k + 1)|
    {
      var peek := Read(Database, offset, PEEK);
      ghost var d := if k < |records| then records[k].doc else End;
      if k < |records| {
        PeekAt(records, k, peek);
      }
      if peek == [] {
        return EndOfFile;
      }
      if |peek| < 4 {
        return Corrupt;
      }
      var len := Int32(peek, 0);
      if len < 4 || len > PEEK {
        return Corrupt;
      }
      DocStart(peek, 0, d);
      var it, t := FindFromBuffer(peek, 0, UID, d);
      var uid := ReadBinary(it, t, FindKey(d, UID));
      if uid.None? {
        return Corrupt;
      }
      n := Record(peek[..len], uid.value, peek);
    }

    /** wish_get_num_uid_entries */
    method Count() returns (n: int)
      requires Valid()
      modifies this`files
      ensures Valid() && Leftover() == old(Leftover())
      ensures n == if Seen(records) > MAX_UIDS then MAX_UIDS else if AllShort(records) then |records| else -1
    {
      Open(Database);
      var num, offset := 0, 0;
      n := 0;
      while num <= MAX_UIDS
        invariant Valid() && Scanning() && Leftover() == old(Leftover())
        invariant num <= Seen(records) && num <= MAX_UIDS + 1 && offset == |FileTo(records, num)|
        decreases MAX_UIDS + 1 - num
      {
        var r := NextRecord(offset, num);
        if r.EndOfFile? {
          n := num;
          break;
        }
        if r.Corrupt? {
          n := -1;
          break;
        }
        offset := offset + |r.bytes|;
        num := num + 1;
      }
      if num > MAX_UIDS {
        n := MAX_UIDS;
      }
    }

    /** wish_load_uid_list */
    method LoadUidList(listLen: nat) returns (n: int, list: seq<seq<byte>>)
      requires Valid()
      modifies this`files
      ensures Valid() && Leftover() == old(Leftover())
      ensures n == if listLen == 0 then -1
                   else if Seen(records) >= listLen then listLen
                   else if AllShort(records) then |records| else -1
      ensures n >= 0 ==> |list| == n && forall j :: 0 <= j < n ==> list[j] == records[j].uid
    {
      list := [];
      if listLen == 0 {
        return -1, [];
      }
      Open(Database);
      var i, offset := 0, 0;
      while i < listLen
        invariant Valid() && Scanning() && Leftover() == old(Leftover())
        invariant i <= Seen(records) && i <= listLen && offset == |FileTo(records, i)|
        invariant |list| == i && forall j :: 0 <= j < i ==> list[j] == records[j].uid
      {
        var r := NextRecord(offset, i);
        if r.EndOfFile? {
          break;
        }
        if r.Corrupt? || |r.uid| != ID_LEN {
          return -1, [];
        }
        offset := offset + |r.bytes|;
        list := list + [r.uid];
        i := i + 1;
      }
      n := i;
    }

    /** wish_identity_exists */
    method Exists(uid: seq<byte>) returns (n: int)
      requires Valid()
      modifies this`files
      ensures Valid() && Leftover() == old(Leftover())
      ensures n == if Has(records, uid) then 1 else 0
    {
      Open(Database);
      var offset := 0;
      ghost var k := 0;
      n := 0;
      while true
        invariant Valid() && Scanning() && Leftover() == old(Leftover())
        invariant k <= Seen(records) && offset == |FileTo(records, k)|
        invariant !HasTo(records, uid, k)
        decreases Seen(records) - k
      {
        var r := NextRecord(offset, k);
        if !r.Record? {
          return 0;
        }
        offset := offset + |r.bytes|;
        if r.uid == uid {
          HasStays(records, uid, k + 1, Seen(records));
          return 1;
        }
        k := k + 1;
      }
    }

    /** wish_save_identity_entry_bson: the record goes to the end of the file. */
    method SaveBson(doc: seq<byte>, ghost d: Entry) returns (n: nat)
      requires Valid() && IsRecord(d) && doc == d.bytes
      modifies this
      ensures Valid() && n == |doc| && records == old(records) + [d] && Leftover() == old(Leftover())
    {
      Open(Database);
      var end := |files[Database]|;
      FileGrows(records, d);
      assert files[Database][..end] + doc + [] == FileOf(records + [d]);
      var pos := Write(Database, end, doc);
      n := pos - end;
      BothAreRecords(records, d);
      records := records + [d];
    }

    /** wish_save_identity_entry: an array as long as the number of entries is set up first, so that number must
        not be the error of a scan. Whether the new record is short enough is not tested. */
    method Save(x: Identity) returns (r: int)
      requires Valid() && IsIdentity(x) && (AllShort(records) || Seen(records) > MAX_UIDS)
      modifies this
      ensures Valid() && Leftover() == old(Leftover())
      ensures if Seen(old(records)) >= MAX_UIDS then r == -1 && records == old(records)
              else r == 0 && records == old(records) + [EntryOf(x)]
    {
      var num := Count();
      var numUids, _ := LoadUidList(num);
      if numUids >= MAX_UIDS {
        return -1;
      }
      var bs := ToBson(x);
      EntryIsRecord(x);
      var n := SaveBson(bs.data, EntryOf(x));
      r := if n == 0 then -2 else 0;
    }

    /** wish_identity_load: the first record of the uid, if it has all that is needed. */
    method Load(uid: seq<byte>) returns (x: Option<Identity>)
      requires Valid()
      modifies this`files
      ensures Valid() && Leftover() == old(Leftover())
      ensures match FirstOf(records, uid) case None => x.None? case Some(e) => IsRecord(e) && x == Loaded(e.doc)
    {
      Open(Database);
      var offset := 0;
      ghost var k := 0;
      x := None;
      while true
        invariant Valid() && Scanning() && Leftover() == old(Leftover())
        invariant k <= Seen(records) && offset == |FileTo(records, k)|
        invariant FirstTo(records, uid, k).None?
        decreases Seen(records) - k
      {
        var r := NextRecord(offset, k);
        if !r.Record? || |r.uid| != ID_LEN {
          return None;
        }
        offset := offset + |r.bytes|;
        if r.uid == uid {
          FirstStays(records, uid, k + 1, Seen(records));
          x := LoadFound(r.peek, records[k]);
          return;
        }
        k := k + 1;
      }
    }

    /** The record under the scan is read. */
    method LoadFound(peek: seq<byte>, ghost e: Entry) returns (x: Option<Identity>)
      requires IsRecord(e) && DocAt(peek, 0, e.doc)
      ensures x == Loaded(e.doc)
    {
      x := LoadRecord(peek, e.doc);
    }

    /** The temporary file takes the place of the database. */
    method Replace(ghost rs: seq<Entry>)
      requires AreRecords(rs) && Database in files && Temporary in files
      modifies this
      ensures records == rs && AreRecords(records) && Leftover() == []
      ensures Database in files && files[Database] == old(files[Temporary])
    {
      files := files - {Database};
      files := files[Database := files[Temporary]] - {Temporary};
      records := rs;
    }

    /** Writing a record into the temporary file, over what was left there. */
    method Put(pos: nat, doc: seq<byte>, ghost was: seq<byte>, ghost rs: seq<Entry>, ghost d: Entry)
      returns (pos': nat)
      requires Scanning() && Temporary in files && files[Temporary] == Over(FileOf(rs), was) && pos == |FileOf(rs)|
      requires doc == d.bytes
      modifies this`files
      ensures Scanning() && Temporary in files && files[Temporary] == Over(FileOf(rs + [d]), was)
      ensures pos' == |FileOf(rs + [d])|
    {
      FileGrows(rs, d);
      OverGrows(FileOf(rs), doc, was);
      pos' := Write(Temporary, pos, doc);
    }

    /** Both files are opened; the write of nothing that is meant to truncate changes nothing. */
    method StartCopy()
      requires Valid()
      modifies this`files
      ensures Scanning() && Temporary in files && files[Temporary] == old(Leftover())
    {
      Open(Database);
      Open(Temporary);
      ghost var was := files[Temporary];
      var _ := Write(Temporary, 0, []);
      assert [] + [] + was == was;
    }

    method CopyWithout(uid: seq<byte>, ghost was: seq<byte>) returns (n: int)
      requires Scanning() && Temporary in files && files[Temporary] == was
      modifies this`files
      ensures Scanning() && Temporary in files && files[Temporary] == Over(FileOf(Without(records, uid)), was)
      ensures n == if Has(records, uid) then 1 else 0
    {
      var pos, offset := 0, 0;
      ghost var k := 0;
      n := 0;
      NothingOver(was);
      while true
        invariant Scanning() && k <= Seen(records) && offset == |FileTo(records, k)|
        invariant Temporary in files && files[Temporary] == Over(FileOf(WithoutTo(records, uid, k)), was)
        invariant pos == |FileOf(WithoutTo(records, uid, k))|
        invariant n == if HasTo(records, uid, k) then 1 else 0
        decreases Seen(records) - k
      {
        var r := NextRecord(offset, k);
        if !r.Record? {
          return;
        }
        if r.uid == uid {
          n := 1;
        } else {
          pos := Put(pos, r.bytes, was, WithoutTo(records, uid, k), records[k]);
        }
        offset := offset + |r.bytes|;
        k := k + 1;
      }
    }

    /** wish_identity_remove, on the file. The end of a longer leftover temporary file shows behind the
        records; without one the file is exactly the list. */
    method RemoveUid(uid: seq<byte>) returns (n: int)
      requires Valid()
      modifies this
      ensures records == Without(old(records), uid) && AreRecords(records) && Leftover() == []
      ensures Database in files && files[Database] == Over(FileOf(records), old(Leftover()))
      ensures Valid() <==> |old(Leftover())| <= |FileOf(records)|
      ensures n == if Has(old(records), uid) then 1 else 0
    {
      StartCopy();
      n := CopyWithout(uid, old(Leftover()));
      WithoutAreRecords(records, uid, Seen(records));
      OverIsExactIff(FileOf(Without(records, uid)), old(Leftover()));
      Replace(Without(records, uid));
    }

    /** The next record, or the new one in its place. */
    method PutRenewed(pos: nat, bytes: seq<byte>, uid: seq<byte>, x: Identity, ghost was: seq<byte>, ghost k: nat)
      returns (pos': nat)
      requires IsIdentity(x) && Scanning() && k < |records|
      requires bytes == records[k].bytes && uid == records[k].uid
      requires Temporary in files && files[Temporary] == Over(FileOf(ReplacedTo(records, x.uid, EntryOf(x), k)), was)
      requires pos == |FileOf(ReplacedTo(records, x.uid, EntryOf(x), k))|
      modifies this`files
      ensures Scanning() && Temporary in files
      ensures files[Temporary] == Over(FileOf(ReplacedTo(records, x.uid, EntryOf(x), k + 1)), was)
      ensures pos' == |FileOf(ReplacedTo(records, x.uid, EntryOf(x), k + 1))|
    {
      ghost var d := EntryOf(x);
      var doc := bytes;
      if uid == x.uid {
        var bs := ToBson(x);
        doc := bs.data;
      }
      pos' := Put(pos, doc, was, ReplacedTo(records, x.uid, d, k), Renewed(records[k], x.uid, d));
    }

    method CopyReplaced(x: Identity, ghost was: seq<byte>) returns (n: int)
      requires IsIdentity(x)
      requires Scanning() && Temporary in files && files[Temporary] == was
      modifies this`files
      ensures Scanning() && Temporary in files
      ensures files[Temporary] == Over(FileOf(Replaced(records, x.uid, EntryOf(x))), was)
      ensures n == if Has(records, x.uid) then 1 else 0
    {
      var pos, offset := 0, 0;
      ghost var k, d := 0, EntryOf(x);
      n := 0;
      NothingOver(was);
      while true
        invariant Scanning() && k <= Seen(records) && offset == |FileTo(records, k)|
        invariant Temporary in files && files[Temporary] == Over(FileOf(ReplacedTo(records, x.uid, d, k)), was)
        invariant pos == |FileOf(ReplacedTo(records, x.uid, d, k))|
        invariant n == if HasTo(records, x.uid, k) then 1 else 0
        decreases Seen(records) - k
      {
        var r := NextRecord(offset, k);
        if !r.Record? {
          return;
        }
        n := if r.uid == x.uid then 1 else n;
        pos := PutRenewed(pos, r.bytes, r.uid, x, was, k);
        offset := offset + |r.bytes|;
        k := k + 1;
      }
    }

    /** wish_identity_update */
    method Update(x: Identity) returns (n: int)
      requires Valid() && IsIdentity(x)
      modifies this
      ensures records == Replaced(old(records), x.uid, EntryOf(x)) && AreRecords(records) && Leftover() == []
      ensures Database in files && files[Database] == Over(FileOf(records), old(Leftover()))
      ensures Valid() <==> |old(Leftover())| <= |FileOf(records)|
      ensures n == if Has(old(records), x.uid) then 1 else 0
    {
      StartCopy();
      n := CopyReplaced(x, old(Leftover()));
      EntryIsRecord(x);
      ReplacedAreRecords(records, x.uid, EntryOf(x), Seen(records));
      OverIsExactIff(FileOf(Replaced(records, x.uid, EntryOf(x))), old(Leftover()));
      Replace(Replaced(records, x.uid, EntryOf(x)));
    }
  }
}
