/** The BSON builder of deps/bson/bson.c: a growing buffer, a cursor and a stack of the offsets
    whose length fields are still open. */
module BsonBuilder {
  import opened Bytes
  import opened Utf8
  import opened BsonTree

  const STACK_SIZE: nat := 32
  /** The largest document for which growing the buffer stays within a C int. */
  const MAX_DOC: nat := INT_MAX / 3

  /** Where the buffer lives decides how it can grow. */
  datatype Storage = Heap | OnStack | External

  class Bson {
    /** The bytes written so far; the first four are the length field of the document. */
    var data: seq<byte>
    var dataSize: nat
    var finished: bool
    /** Offsets of the length fields that are still open, innermost last. */
    var stack: seq<nat>
    var err: Errors
    /** What the flags say of the buffer, and where it lies. */
    var storage: Storage
    var memory: Storage
    var queryMode: bool

    ghost predicate Valid()
      reads this
    {
      && 4 <= |data| <= dataSize <= INT_MAX
      && |stack| <= STACK_SIZE
      && (forall i :: 0 <= i < |stack| ==> 4 <= stack[i] <= |data| - 4)
      && (!finished ==> storage == memory)
    }

    /** A buffer that the flags call the library's own is moved with realloc, so it has to be. */
    ghost predicate Movable()
      reads this
    {
      storage == Heap ==> memory == Heap
    }

    /** The size of an external buffer stays, and no other buffer becomes external. */
    twostate predicate SameKind()
      reads this
    {
      && (storage == External) == (old(storage) == External)
      && (storage == External ==> dataSize == old(dataSize))
      && (old(storage) == Heap ==> storage == Heap)
      && (old(storage == memory) ==> storage == memory)
    }

    ghost predicate Fits(needed: nat)
      reads this
    {
      |data| + needed <= dataSize || storage != External
    }

    ghost predicate CanAppend(name: seq<byte>, size: nat)
      reads this
    {
      !finished && Fits(2 + |name| + size) && ValidUtf8(name)
    }

    constructor InitSize(size: nat)
      requires 4 <= size <= INT_MAX
      ensures Valid() && |data| == 4 && stack == [] && dataSize == size
      ensures !finished && !queryMode && err == NO_ERRORS && storage == memory == Heap
    {
      data, dataSize, stack := [0, 0, 0, 0], size, [];
      finished, queryMode, err, storage, memory := false, false, NO_ERRORS, Heap, Heap;
    }

    constructor InitBuffer(max: nat)
      requires 4 <= max <= INT_MAX
      ensures Valid() && |data| == 4 && stack == [] && dataSize == max
      ensures !finished && !queryMode && err == NO_ERRORS && storage == memory == External
    {
      data, dataSize, stack := [0, 0, 0, 0], max, [];
      finished, queryMode, err, storage, memory := false, false, NO_ERRORS, External, External;
    }

    /** bson_init_on_stack: the array of `onStack` bytes is used if it is larger than the wanted capacity. */
    constructor InitOnStack(capacity: nat, onStack: nat)
      requires 4 <= capacity <= INT_MAX && onStack <= INT_MAX
      ensures Valid() && |data| == 4 && stack == []
      ensures !finished && !queryMode && err == NO_ERRORS
      ensures storage == memory == if capacity < onStack then OnStack else Heap
      ensures dataSize == if capacity < onStack then onStack else capacity
    {
      data, stack := [0, 0, 0, 0], [];
      dataSize := if capacity < onStack then onStack else capacity;
      storage := if capacity < onStack then OnStack else Heap;
      memory := if capacity < onStack then OnStack else Heap;
      finished, queryMode, err := false, false, NO_ERRORS;
    }

    /** bson_init_with_data: a finished document where it lies. No flag says where that is. */
    constructor InitWithData(bytes: seq<byte>, place: Storage)
      requires 4 <= |bytes| <= INT_MAX && Int32(bytes, 0) == |bytes|
      ensures Valid() && finished && data == bytes && stack == [] && dataSize == |bytes|
      ensures !queryMode && err == NO_ERRORS && storage == Heap && memory == place
    {
      data, dataSize, stack := bytes, Int32(bytes, 0), [];
      finished, queryMode, err, storage, memory := true, false, NO_ERRORS, Heap, place;
    }

    method EnsureSpace(bytesNeeded: nat) returns (ok: bool)
      requires Valid() && |data| + bytesNeeded <= MAX_DOC && Movable()
      modifies this`dataSize, this`storage, this`memory, this`err
      ensures Valid()
      ensures ok == old(Fits(bytesNeeded))
      ensures ok ==> |data| + bytesNeeded <= dataSize && err == old(err)
      ensures !ok ==> err == NO_ERRORS.(sizeOverflow := true)
      ensures SameKind()
      ensures old(|data| + bytesNeeded <= dataSize) ==>
                dataSize == old(dataSize) && storage == old(storage) && memory == old(memory)
      ensures ok && !old(|data| + bytesNeeded <= dataSize) ==>
                dataSize == 3 * (old(dataSize) + bytesNeeded) / 2 && storage == memory == Heap
    {
      if |data| + bytesNeeded <= dataSize {
        return true;
      }
      var newSize := 3 * (dataSize + bytesNeeded) / 2;
      if storage == External {
        err := NO_ERRORS.(sizeOverflow := true);
        return false;
      }
      storage, memory := Heap, Heap;
      dataSize := newSize;
      return true;
    }

    method Append(s: seq<byte>)
      requires Valid() && |data| + |s| <= dataSize
      modifies this`data
      ensures Valid() && data == old(data) + s
    {
      data := data + s;
    }

    /** Type byte, key and terminator, with room left for `size` more bytes. */
    method AppendEStart(ty: byte, name: seq<byte>, size: nat) returns (ok: bool)
      requires Valid() && |data| + 2 + |name| + size <= MAX_DOC
      modifies this`data, this`dataSize, this`storage, this`memory, this`err
      ensures Valid()
      ensures ok == old(CanAppend(name, size))
      ensures data == old(data) + (if ok then Header(ty, name) else [])
      ensures ok ==> |data| + size <= dataSize && err.notUtf8 == old(err).notUtf8
      ensures !ok ==> err != NO_ERRORS
      ensures SameKind()
    {
      if finished {
        err := err.(alreadyFinished := true);
        return false;
      }
      ok := EnsureSpace(1 + |name| + 1 + size);
      if !ok {
        return false;
      }
      ok, err := ValidateString(name, !queryMode, !queryMode, err);
      if !ok {
        return false;
      }
      AppendHeader(ty, name);
      return true;
    }

    method AppendHeader(ty: byte, name: seq<byte>)
      requires Valid() && |data| + 2 + |name| <= dataSize
      modifies this`data
      ensures Valid() && data == old(data) + Header(ty, name)
    {
      Append([ty]);
      Append(name);
      Append([0]);
      assert data == old(data) + Header(ty, name);
    }

    /** The appenders whose argument is stored as it lies in memory: int, long, double, date,
        timestamp, oid, null and undefined. */
    method AppendFixed(ty: byte, name: seq<byte>, payload: seq<byte>) returns (ok: bool)
      requires Valid() && |data| + 2 + |name| + |payload| <= MAX_DOC
      modifies this`data, this`dataSize, this`storage, this`memory, this`err
      ensures Valid()
      ensures ok == old(CanAppend(name, |payload|))
      ensures data == old(data) + (if ok then EncElem(name, Atom(ty, payload)) else [])
      ensures ok ==> err.notUtf8 == old(err).notUtf8
      ensures SameKind()
    {
      ok := AppendEStart(ty, name, |payload|);
      if ok {
        Append(payload);
        AssocConcat(old(data), Header(ty, name), payload);
      }
    }

    method AppendBool(name: seq<byte>, i: int) returns (ok: bool)
      requires Valid() && |data| + 3 + |name| <= MAX_DOC
      modifies this`data, this`dataSize, this`storage, this`memory, this`err
      ensures Valid()
      ensures ok == old(CanAppend(name, 1))
      ensures data == old(data) + (if ok then EncElem(name, Atom(BOOL, [if i != 0 then 1 else 0])) else [])
      ensures ok ==> err.notUtf8 == old(err).notUtf8
      ensures SameKind()
    {
      ok := AppendEStart(BOOL, name, 1);
      if ok {
        var payload: seq<byte> := [if i != 0 then 1 else 0];
        Append(payload);
        AssocConcat(old(data), Header(BOOL, name), payload);
      }
    }

    method AppendStringBase(name: seq<byte>, value: seq<byte>, ty: byte) returns (ok: bool)
      requires Valid() && |data| + 7 + |name| + |value| <= MAX_DOC
      modifies this`data, this`dataSize, this`storage, this`memory, this`err
      ensures Valid()
      ensures ok == (ValidUtf8(value) && old(CanAppend(name, 5 + |value|)))
      ensures data == old(data) + (if ok then EncElem(name, Atom(ty, TextPayload(value))) else [])
      ensures ok ==> err.notUtf8 == old(err).notUtf8
      ensures SameKind()
    {
      var sl := |value| + 1;
      ok, err := ValidateString(value, false, false, err);
      if !ok {
        return false;
      }
      ok := AppendEStart(ty, name, 4 + sl);
      if !ok {
        return false;
      }
      Append(LE32(sl));
      Append(value);
      Append([0]);
      AssocConcat(old(data) + Header(ty, name), LE32(sl), value);
      AssocConcat(old(data) + Header(ty, name), LE32(sl) + value, [0]);
      AssocConcat(old(data), Header(ty, name), TextPayload(value));
      return true;
    }

    method AppendBinary(name: seq<byte>, str: seq<byte>) returns (ok: bool)
      requires Valid() && |data| + 7 + |name| + |str| <= MAX_DOC
      modifies this`data, this`dataSize, this`storage, this`memory, this`err
      ensures Valid()
      ensures ok == old(CanAppend(name, 5 + |str|))
      ensures data == old(data) + (if ok then EncElem(name, Atom(BINDATA, BinaryPayload(str))) else [])
      ensures ok ==> err.notUtf8 == old(err).notUtf8
      ensures SameKind()
    {
      ok := AppendEStart(BINDATA, name, 4 + 1 + |str|);
      if ok {
        Append(LE32(|str|));
        Append([0]);
        Append(str);
        AssocConcat(old(data) + Header(BINDATA, name), LE32(|str|), [0]);
        AssocConcat(old(data) + Header(BINDATA, name), LE32(|str|) + [0], str);
        AssocConcat(old(data), Header(BINDATA, name), BinaryPayload(str));
      }
    }

    /** When the pattern is not UTF-8 the header has already been written. */
    method AppendRegex(name: seq<byte>, pattern: seq<byte>, opts: seq<byte>) returns (ok: bool)
      requires Valid() && |data| + 4 + |name| + |pattern| + |opts| <= MAX_DOC
      modifies this`data, this`dataSize, this`storage, this`memory, this`err
      ensures Valid()
      ensures ok == (ValidUtf8(pattern) && old(CanAppend(name, 2 + |pattern| + |opts|)))
      ensures data == old(data) + (if ok then EncElem(name, Atom(REGEX, RegexPayload(pattern, opts)))
                                   else if old(CanAppend(name, 2 + |pattern| + |opts|)) then Header(REGEX, name)
                                   else [])
      ensures ok ==> err.notUtf8 == old(err).notUtf8
      ensures SameKind()
    {
      ok := AppendEStart(REGEX, name, |pattern| + 1 + |opts| + 1);
      if !ok {
        return false;
      }
      ok, err := ValidateString(pattern, false, false, err);
      if !ok {
        return false;
      }
      Append(pattern + [0]);
      Append(opts + [0]);
      AssocConcat(old(data) + Header(REGEX, name), pattern + [0], opts + [0]);
      AssocConcat(old(data), Header(REGEX, name), RegexPayload(pattern, opts));
      return true;
    }

    /** bson_append_code_w_scope: the code is not checked; `scope` is a finished document, whose first four
        bytes are its size. */
    method AppendCodeWithScope(name: seq<byte>, code: seq<byte>, scope: seq<byte>) returns (ok: bool)
      requires Valid() && 4 <= |scope| && Int32(scope, 0) == |scope|
      requires |data| + 11 + |name| + |code| + |scope| <= MAX_DOC
      modifies this`data, this`dataSize, this`storage, this`memory, this`err
      ensures Valid()
      ensures ok == old(CanAppend(name, 9 + |code| + |scope|))
      ensures data == old(data) + (if ok then EncElem(name, Atom(CODEWSCOPE, CodePayload(code, scope))) else [])
      ensures ok ==> err.notUtf8 == old(err).notUtf8
      ensures SameKind()
    {
      var sl := |code| + 1;
      var size := 4 + 4 + sl + Int32(scope, 0);
      ok := AppendEStart(CODEWSCOPE, name, size);
      if ok {
        ghost var head := data;
        Append(LE32(size) + LE32(sl));
        Append(code + [0]);
        Append(scope[..Int32(scope, 0)]);
        PiecesAreCode(head, code, scope);
        AssocConcat(old(data), Header(CODEWSCOPE, name), CodePayload(code, scope));
      }
    }

    /** Start of an object or an array: the length field stays open. */
    method AppendStart(ty: byte, name: seq<byte>) returns (ok: bool)
      requires Valid() && |data| + 7 + |name| <= MAX_DOC && |stack| < STACK_SIZE
      modifies this`data, this`dataSize, this`storage, this`memory, this`err, this`stack
      ensures Valid()
      ensures ok == old(CanAppend(name, 5))
      ensures data == old(data) + (if ok then Header(ty, name) + ZERO else [])
      ensures stack == old(stack) + (if ok then [|old(data)| + |name| + 2] else [])
      ensures ok ==> err.notUtf8 == old(err).notUtf8
      ensures SameKind()
    {
      ok := AppendEStart(ty, name, 5);
      if !ok {
        return false;
      }
      data := data + ZERO;
      stack := stack + [|data| - 4];
      AssocConcat(old(data), Header(ty, name), ZERO);
      return true;
    }

    /** Terminator of the innermost open object or array, whose length is now known. */
    method AppendFinish() returns (ok: bool)
      requires Valid() && |data| + 1 <= MAX_DOC && stack != [] && Movable()
      modifies this`data, this`dataSize, this`storage, this`memory, this`err, this`stack
      ensures Valid()
      ensures ok == old(Fits(1))
      ensures stack == if ok then old(stack)[..|old(stack)| - 1] else old(stack)
      ensures data == if ok then Closed(old(data), old(stack)[|old(stack)| - 1]) else old(data)
      ensures ok ==> err == old(err)
      ensures SameKind()
    {
      ok := EnsureSpace(1);
      if !ok {
        return false;
      }
      Append([0]);
      var start := stack[|stack| - 1];
      stack := stack[..|stack| - 1];
      data := Patched(data, start, |data| - start);
      return true;
    }

    /** End of the document. */
    method Finish() returns (ok: bool)
      requires Valid() && |data| + 1 <= MAX_DOC
      modifies this`data, this`dataSize, this`storage, this`memory, this`err, this`finished
      ensures Valid()
      ensures ok == (!old(err).notUtf8 && (old(finished) || old(Fits(1))))
      ensures ok ==> finished && err == old(err)
      ensures !ok ==> finished == old(finished)
      ensures data == if ok && !old(finished) then Closed(old(data), 0) else old(data)
      ensures SameKind()
    {
      if err.notUtf8 {
        return false;
      }
      if !finished {
        ok := EnsureSpace(1);
        if !ok {
          return false;
        }
        Append([0]);
        data := Patched(data, 0, |data|);
        finished := true;
      }
      return true;
    }
  }

  // The bytes of a call ----------------------------------------------------------------

  const ZERO: seq<byte> := [0, 0, 0, 0]

  function TextPayload(value: seq<byte>): seq<byte> { LE32(|value| + 1) + value + [0] }

  function BinaryPayload(str: seq<byte>): seq<byte> { LE32(|str|) + [0] + str }

  function RegexPayload(pattern: seq<byte>, opts: seq<byte>): seq<byte> { pattern + [0] + (opts + [0]) }

  function CodePayload(code: seq<byte>, scope: seq<byte>): (p: seq<byte>)
    ensures |p| == 9 + |code| + |scope|
  {
    LE32(9 + |code| + |scope|) + LE32(|code| + 1) + (code + [0]) + scope
  }

  lemma PiecesAreCode(head: seq<byte>, code: seq<byte>, scope: seq<byte>)
    ensures head + (LE32(9 + |code| + |scope|) + LE32(|code| + 1)) + (code + [0]) + scope[..|scope|] ==
            head + CodePayload(code, scope)
  {
    var lens := LE32(9 + |code| + |scope|) + LE32(|code| + 1);
    AssocConcat(head, lens, code + [0]);
    AssocConcat(head, lens + (code + [0]), scope);
    assert scope[..|scope|] == scope;
  }

  /** A length written over the four bytes at `start`. */
  function Patched(raw: seq<byte>, start: nat, n: nat): (s: seq<byte>)
    requires start + 4 <= |raw|
    ensures |s| == |raw|
  {
    raw[..start] + LE32(n) + raw[start + 4..]
  }

  /** A document that began at `start` gets its terminator and its length. */
  function Closed(raw: seq<byte>, start: nat): (s: seq<byte>)
    requires start + 4 <= |raw|
    ensures |s| == |raw| + 1
  {
    Patched(raw + [0], start, |raw| + 1 - start)
  }

  lemma PatchedParts(a: seq<byte>, w: seq<byte>, b: seq<byte>, n: nat)
    requires |w| == 4
    ensures Patched(a + w + b, |a|, n) == a + (LE32(n) + b)
  {
    var s := a + w + b;
    assert s[..|a|] == a && s[|a| + 4..] == b;
    AssocConcat(a, LE32(n), b);
  }

  lemma ClosedIsEncoded(raw: seq<byte>, w: seq<byte>, d: Doc)
    requires |w| == 4
    ensures Closed(raw + w + Enc(d), |raw|) == raw + Encode(d)
  {
    var e := Enc(d);
    AssocConcat(raw + w, e, [0]);
    PatchedParts(raw, w, e + [0], |e| + 5);
    AssocConcat(LE32(|e| + 5), e, [0]);
  }

  // Any document ------------------------------------------------------------------------

  /** Atoms that some appender produces. */
  predicate Buildable(ty: byte, p: seq<byte>) {
    if ty == BOOL then p == [0] || p == [1]
    else if FixedSize(ty) >= 0 then |p| == FixedSize(ty)
    else if IsText(ty) then 5 <= |p| && p == TextPayload(p[4..|p| - 1]) && ValidUtf8(p[4..|p| - 1])
    else if ty == BINDATA then 5 <= |p| && p == BinaryPayload(p[5..])
    else if ty == REGEX then AtomOk(REGEX, p) && ValidUtf8(RegexOf(p).0)
    else if ty == CODEWSCOPE then IsCodePayload(p)
    else false
  }

  function RegexOf(p: seq<byte>): (seq<byte>, seq<byte>)
    requires AtomOk(REGEX, p)
  {
    var n := StrLen(p, 0);
    (p[..n], p[n + 1..|p| - 1])
  }

  lemma RegexSplits(p: seq<byte>)
    requires AtomOk(REGEX, p)
    ensures RegexPayload(RegexOf(p).0, RegexOf(p).1) == p
  {
    var n := StrLen(p, 0);
    StrLenBound(p, 0);
    StrLenBound(p, n + 1);
    assert p == p[..n] + [0] + (p[n + 1..|p| - 1] + [0]);
  }

  /** Code and scope of a payload whose inner lengths agree with its size. */
  function CodeOf(p: seq<byte>): (seq<byte>, seq<byte>)
    requires 8 <= |p| && 1 <= Int32(p, 4) <= |p| - 8
  {
    var n := Int32(p, 4);
    (p[8..7 + n], p[8 + n..])
  }

  predicate IsCodePayload(p: seq<byte>) {
    && 8 <= |p| && 1 <= Int32(p, 4) <= |p| - 8
    && var (code, scope) := CodeOf(p);
       4 <= |scope| && Int32(scope, 0) == |scope| && p == CodePayload(code, scope)
  }


  predicate BuildableDoc(d: Doc) {
    d.Elem? ==>
      && ValidUtf8(d.key)
      && (match d.value
          case Atom(ty, p) => Buildable(ty, p)
          case Nested(ty, doc) => IsNested(ty) && BuildableDoc(doc))
      && BuildableDoc(d.rest)
  }

  /** The appender call for one atom. */
  method BuildAtom(b: Bson, key: seq<byte>, ty: byte, p: seq<byte>) returns (ok: bool)
    requires b.Valid() && !b.finished && ValidUtf8(key) && Buildable(ty, p)
    requires |b.data| + 2 + |key| + |p| <= MAX_DOC
    modifies b`data, b`dataSize, b`storage, b`memory, b`err
    ensures b.Valid() && b.SameKind()
    ensures b.storage != External ==> ok
    ensures ok ==> b.data == old(b.data) + EncElem(key, Atom(ty, p))
    ensures ok ==> b.err.notUtf8 == old(b.err).notUtf8
  {
    if ty == BOOL {
      ok := b.AppendBool(key, p[0]);
    } else if FixedSize(ty) >= 0 {
      ok := b.AppendFixed(ty, key, p);
    } else if IsText(ty) {
      ok := b.AppendStringBase(key, p[4..|p| - 1], ty);
    } else if ty == BINDATA {
      ok := b.AppendBinary(key, p[5..]);
    } else if ty == REGEX {
      RegexSplits(p);
      ok := b.AppendRegex(key, RegexOf(p).0, RegexOf(p).1);
    } else {
      ok := b.AppendCodeWithScope(key, CodeOf(p).0, CodeOf(p).1);
    }
  }

  /** The start, append and finish calls that write the elements of a document in order. */
  method BuildDoc(b: Bson, d: Doc) returns (ok: bool)
    requires b.Valid() && !b.finished && BuildableDoc(d)
    requires |b.stack| + Depth(d) <= STACK_SIZE
    requires |b.data| + |Enc(d)| <= MAX_DOC
    modifies b`data, b`dataSize, b`storage, b`memory, b`err, b`stack
    ensures b.Valid() && b.SameKind()
    ensures b.storage != External ==> ok
    ensures ok ==> b.data == old(b.data) + Enc(d) && b.stack == old(b.stack)
    ensures ok ==> b.err.notUtf8 == old(b.err).notUtf8
    decreases d, 0
  {
    match d
    case End => return true;
    case Elem(key, v, rest) =>
      ghost var raw := b.data;
      assert |Enc(d)| == |EncElem(key, v)| + |Enc(rest)|;
      match v {
        case Atom(ty, p) =>
          assert EncElem(key, v) == Header(ty, key) + p;
          ok := BuildAtom(b, key, ty, p);
        case Nested(ty, doc) =>
          ok := BuildNested(b, key, ty, doc);
      }
      if !ok {
        return false;
      }
      AssocConcat(raw, EncElem(key, v), Enc(rest));
      ok := BuildDoc(b, rest);
  }

  method BuildNested(b: Bson, key: seq<byte>, ty: byte, doc: Doc) returns (ok: bool)
    requires b.Valid() && !b.finished && ValidUtf8(key) && BuildableDoc(doc)
    requires |b.stack| + 1 + Depth(doc) <= STACK_SIZE
    requires |b.data| + |Header(ty, key)| + |Encode(doc)| <= MAX_DOC
    modifies b`data, b`dataSize, b`storage, b`memory, b`err, b`stack
    ensures b.Valid() && b.SameKind()
    ensures b.storage != External ==> ok
    ensures ok ==> b.data == old(b.data) + (Header(ty, key) + Encode(doc)) && b.stack == old(b.stack)
    ensures ok ==> b.err.notUtf8 == old(b.err).notUtf8
    decreases doc, 1
  {
    assert |Encode(doc)| == |Enc(doc)| + 5;
    ghost var raw := b.data + Header(ty, key);
    ok := b.AppendStart(ty, key);
    if !ok {
      return false;
    }
    AssocConcat(old(b.data), Header(ty, key), ZERO);
    ok := BuildDoc(b, doc);
    if !ok {
      return false;
    }
    ghost var before := b.data;
    assert before == raw + ZERO + Enc(doc);
    assert b.stack[|b.stack| - 1] == |raw|;
    ok := b.AppendFinish();
    assert ok ==> b.data == Closed(before, |raw|);
    ClosedIsEncoded(raw, ZERO, doc);
    AssocConcat(old(b.data), Header(ty, key), Encode(doc));
  }

  /** Building a document from nothing leaves exactly its canonical bytes, whatever the initial
      size of the buffer was. */
  method BuildDocument(size: nat, d: Doc) returns (b: Bson)
    requires 4 <= size <= INT_MAX && BuildableDoc(d)
    requires Depth(d) <= STACK_SIZE && |Encode(d)| <= MAX_DOC
    ensures fresh(b) && b.Valid() && b.finished && b.storage == b.memory == Heap
    ensures b.data == Encode(d)
  {
    b := new Bson.InitSize(size);
    ghost var w := b.data;
    assert |Encode(d)| == |Enc(d)| + 5;
    var ok := BuildDoc(b, d);
    assert b.data == [] + w + Enc(d);
    ok := b.Finish();
    ClosedIsEncoded([], w, d);
    assert [] + Encode(d) == Encode(d);
  }
}
