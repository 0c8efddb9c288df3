/** What the takeover of a document (bson_copy_with_state in deps/bson/bson.c) does to the buffer it lands in.
    The flags of the temporary overwrite those of the buffer, so foreign memory ends up without a flag, and
    growing it then is undefined: realloc gets memory that the library does not own. */
module BsonMemory {
  import opened BsonTree
  import opened BsonBuilder
  import opened BsonPatch
  import opened Bytes
  import opened Utf8

  /** The flags, the place and the size of a buffer. */
  datatype Place = Place(flag: Storage, memory: Storage, size: nat)

  datatype Effect = Taken(place: Place) | Refused | Undefined

  /** A document of `n` bytes arrives. */
  function Takeover(p: Place, n: nat): Effect {
    if n <= p.size then Taken(p.(flag := Heap))
    else
      match p.flag
      case External => Refused
      case OnStack => Taken(Place(Heap, Heap, 3 * n / 2))
      case Heap => if p.memory == Heap then Taken(Place(Heap, Heap, 3 * n / 2)) else Undefined
  }

  function After(p: Place, n: nat): Place {
    match Takeover(p, n)
    case Taken(q) => q
    case _ => p
  }

  /** Documents of these sizes arrive one after the other, and none meets an undefined growth. */
  predicate Defined(p: Place, ns: seq<nat>)
    decreases |ns|
  {
    ns == [] || (Takeover(p, ns[0]) != Undefined && Defined(After(p, ns[0]), ns[1..]))
  }

  predicate AllFit(size: nat, ns: seq<nat>) { forall i :: 0 <= i < |ns| ==> ns[i] <= size }

  /** One document on foreign memory: defined exactly while the flag is there, or the document fits. */
  lemma NextIsDefinedIff(p: Place, n: nat)
    ensures Takeover(p, n) != Undefined <==> p.memory == Heap || p.flag != Heap || n <= p.size
  {
  }

  lemma {:induction false} OwnIsDefined(p: Place, ns: seq<nat>)
    requires p.memory == Heap
    ensures Defined(p, ns)
    decreases |ns|
  {
    if ns != [] {
      OwnIsDefined(After(p, ns[0]), ns[1..]);
    }
  }

  /** Foreign memory without a flag, as after bson_init_with_data: every document has to fit. */
  lemma {:induction false} BorrowedIff(p: Place, ns: seq<nat>)
    requires p.flag == Heap && p.memory != Heap
    ensures Defined(p, ns) <==> AllFit(p.size, ns)
    decreases |ns|
  {
    if ns != [] {
      if ns[0] <= p.size {
        BorrowedIff(After(p, ns[0]), ns[1..]);
        assert AllFit(p.size, ns) <==> AllFit(p.size, ns[1..]) by {
          assert AllFit(p.size, ns[1..]) ==> forall i :: 1 <= i < |ns| ==> ns[i] == ns[1..][i - 1];
        }
      } else {
        assert !AllFit(p.size, ns);
      }
    }
  }

  /** After the first document that fits all others do. */
  predicate FitsStay(size: nat, ns: seq<nat>) {
    forall i, j :: 0 <= i < j < |ns| && ns[i] <= size ==> ns[j] <= size
  }

  lemma FitsStayFrom(size: nat, ns: seq<nat>)
    requires ns != []
    ensures FitsStay(size, ns) <==> if ns[0] <= size then AllFit(size, ns[1..]) else FitsStay(size, ns[1..])
  {
    var rest := ns[1..];
    assert forall i :: 0 <= i < |rest| ==> rest[i] == ns[i + 1];
    if ns[0] <= size && AllFit(size, rest) {
      assert forall j :: 1 <= j < |ns| ==> ns[j] == rest[j - 1];
    }
    if ns[0] > size && FitsStay(size, rest) {
      forall i, j | 0 <= i < j < |ns| && ns[i] <= size ensures ns[j] <= size {
        assert rest[i - 1] == ns[i] && rest[j - 1] == ns[j];
      }
    }
  }

  /** A fixed buffer refuses what does not fit, but only until the first document fits: exactly when none
      outgrows it afterwards, all is defined. */
  lemma {:induction false} ExternalIff(p: Place, ns: seq<nat>)
    requires p.flag == p.memory == External
    ensures Defined(p, ns) <==> FitsStay(p.size, ns)
    decreases |ns|
  {
    if ns != [] {
      FitsStayFrom(p.size, ns);
      if ns[0] <= p.size {
        BorrowedIff(After(p, ns[0]), ns[1..]);
      } else {
        ExternalIff(p, ns[1..]);
      }
    }
  }

  /** A stack buffer moves to the heap with the first document, or it is foreign memory from then on. */
  lemma OnStackIff(p: Place, ns: seq<nat>)
    requires p.flag == p.memory == OnStack
    ensures Defined(p, ns) <==> ns == [] || ns[0] > p.size || AllFit(p.size, ns[1..])
  {
    if ns != [] {
      if ns[0] <= p.size {
        BorrowedIff(After(p, ns[0]), ns[1..]);
      } else {
        OwnIsDefined(After(p, ns[0]), ns[1..]);
      }
    }
  }

  // Updates one after the other ------------------------------------------------------------------------

  /** A finished builder: its buffer and its document. */
  datatype Held = Held(place: Place, doc: Doc)

  function Updating(h: Held, u: Doc): Held {
    var r := Updated(h.doc, u);
    match Takeover(h.place, |Encode(r)|)
    case Taken(q) => Held(q, r)
    case _ => h
  }

  /** The sizes of the documents that the updates arrive at. */
  function Sizes(h: Held, us: seq<Doc>): (ns: seq<nat>)
    ensures |ns| == |us|
    decreases |us|
  {
    if us == [] then [] else [|Encode(Updated(h.doc, us[0]))|] + Sizes(Updating(h, us[0]), us[1..])
  }

  /** No update meets an undefined growth. */
  predicate UpdatesDefined(h: Held, us: seq<Doc>)
    decreases |us|
  {
    us == [] || (Takeover(h.place, |Encode(Updated(h.doc, us[0]))|) != Undefined &&
                 UpdatesDefined(Updating(h, us[0]), us[1..]))
  }

  lemma {:induction false} UpdatesAreSizes(h: Held, us: seq<Doc>)
    ensures UpdatesDefined(h, us) <==> Defined(h.place, Sizes(h, us))
    decreases |us|
  {
    if us != [] {
      var ns := Sizes(h, us);
      assert ns[1..] == Sizes(Updating(h, us[0]), us[1..]);
      UpdatesAreSizes(Updating(h, us[0]), us[1..]);
    }
  }

  /** Updates of a document in a fixed buffer are defined if and only if, once one has fitted, all do. */
  lemma ExternalUpdatesIff(h: Held, us: seq<Doc>)
    requires h.place.flag == h.place.memory == External
    ensures UpdatesDefined(h, us) <==> FitsStay(h.place.size, Sizes(h, us))
  {
    UpdatesAreSizes(h, us);
    ExternalIff(h.place, Sizes(h, us));
  }

  /** The failing input: the first update fits the fixed buffer, the second does not. */
  lemma FlagIsLost(h: Held, x: Doc, y: Doc)
    requires h.place.flag == h.place.memory == External
    requires |Encode(Updated(h.doc, x))| <= h.place.size < |Encode(Updated(Updated(h.doc, x), y))|
    ensures Updating(h, x) == Held(Place(Heap, External, h.place.size), Updated(h.doc, x))
    ensures Takeover(Updating(h, x).place, |Encode(Updated(Updating(h, x).doc, y))|) == Undefined
    ensures !UpdatesDefined(h, [x, y])
  {
    assert [x, y][1..] == [y];
  }

  lemma SingleLetter(c: byte)
    requires 0 < c < 128
    ensures var d := Single([c], Atom(INT, [0, 0, 0, 0]));
            Plain(d) && UniqueKeys(d) && |Enc(d)| == 7 && |Encode(d)| == 12
  {
    var v := Atom(INT, [0, 0, 0, 0]);
    assert |EncElem([c], v)| == 7;
    AsciiLetter(c);
  }

  lemma AsciiLetter(c: byte)
    requires 0 < c < 128
    ensures ValidUtf8([c])
  {
    assert [c][..1] == [c] && IsLegalUtf8([c]);
  }

  /** Such an input: an empty document in a buffer of 12 bytes gets a number of one letter, and then another. */
  lemma FlagIsLostSomewhere() returns (h: Held, x: Doc, y: Doc)
    ensures h.place == Place(External, External, 12)
    ensures Plain(h.doc) && Plain(x) && Plain(y) && UniqueKeys(x) && UniqueKeys(y) && |Encode(h.doc)| <= 12
    ensures !UpdatesDefined(h, [x, y])
  {
    var v := Atom(INT, [0, 0, 0, 0]);
    x, y := Single([65], v), Single([66], v);
    h := Held(Place(External, External, 12), End);
    SingleLetter(65);
    SingleLetter(66);
    assert Updated(End, x) == x;
    assert Updated(x, y) == Elem([65], v, y);
    assert |Enc(Elem([65], v, y))| == |EncElem([65], v)| + |Enc(y)|;
    FlagIsLost(h, x, y);
  }
}
