/** The 16-bit ring buffer of src/rb.c. It behaves as a bounded first-in-first-out queue of bytes. */
module RingBuffer {
  import opened Bytes

  /** No operation may leave this range: the source's counters are 16 bits wide. */
  type u16 = x: int | 0 <= x < 0x1_0000

  function Wrap(x: nat, max: nat): nat
    requires 0 < max && x < 2 * max
  {
    if x < max then x else x - max
  }

  lemma WrapIsMod(x: nat, max: nat)
    requires 0 < max && x < 2 * max
    ensures x % max == Wrap(x, max)
  {
    if x >= max {
      assert x == 1 * max + (x - max);
    }
  }

  /** The `n` bytes from `read` on, around the end of the memory. */
  function Window(mem: seq<byte>, read: nat, n: nat): (s: seq<byte>)
    requires read < |mem| && n <= |mem|
    ensures |s| == n && forall i :: 0 <= i < n ==> s[i] == mem[Wrap(read + i, |mem|)]
  {
    seq(n, i requires 0 <= i < n => mem[Wrap(read + i, |mem|)])
  }

  lemma WindowGrows(mem: seq<byte>, read: nat, n: nat, b: byte)
    requires read < |mem| && n < |mem|
    ensures Window(mem[Wrap(read + n, |mem|) := b], read, n + 1) == Window(mem, read, n) + [b]
  {
    var mem' := mem[Wrap(read + n, |mem|) := b];
    var l, r := Window(mem', read, n + 1), Window(mem, read, n) + [b];
    forall i | 0 <= i < n + 1 ensures l[i] == r[i] {
      assert l[i] == mem'[Wrap(read + i, |mem|)];
    }
  }

  lemma WindowShrinks(mem: seq<byte>, read: nat, n: nat)
    requires read < |mem| && 0 < n <= |mem|
    ensures Window(mem, read, n)[0] == mem[read]
    ensures Window(mem, Wrap(read + 1, |mem|), n - 1) == Window(mem, read, n)[1..]
  {
    var first, s := Wrap(read + 1, |mem|), Window(mem, read, n);
    var l := Window(mem, first, n - 1);
    forall i | 0 <= i < n - 1 ensures l[i] == s[1..][i] {
      assert s[i + 1] == mem[Wrap(read + (i + 1), |mem|)];
      assert l[i] == mem[Wrap(first + i, |mem|)];
    }
    assert s[0] == mem[Wrap(read + 0, |mem|)];
  }

  class Ring {
    const data: array<byte>
    var read: u16
    var dataLen: u16
    const maxLen: u16

    ghost predicate Valid()
      reads this
    {
      data.Length == maxLen && 0 < maxLen && read < maxLen && dataLen <= maxLen
    }

    /** The queue, oldest byte first. */
    ghost function Contents(): (s: seq<byte>)
      reads this, data
      requires Valid()
      ensures |s| == dataLen
    {
      Window(data[..], read, dataLen)
    }

    constructor Init(mem: array<byte>)
      requires 0 < mem.Length < 0x1_0000
      ensures Valid() && Contents() == [] && data == mem && maxLen == mem.Length
    {
      read, dataLen, data, maxLen := 0, 0, mem, mem.Length;
    }

    predicate IsFull()
      reads this
    {
      dataLen == maxLen
    }

    predicate IsEmpty()
      reads this
    {
      dataLen == 0
    }

    function Length(): (n: u16)
      requires Valid()
      reads this, data
      ensures n == |Contents()|
    {
      dataLen
    }

    function Space(): (n: u16)
      requires Valid()
      reads this, data
      ensures n == maxLen - |Contents()|
    {
      maxLen - dataLen
    }

    method Write(src: seq<byte>, len: u16) returns (wrote: u16)
      requires Valid() && len <= |src|
      modifies data, this`dataLen
      ensures Valid()
      ensures wrote == if len <= old(Space()) then len else old(Space())
      ensures Contents() == old(Contents()) + src[..wrote]
    {
      wrote := 0;
      WrapIsMod(read + dataLen, maxLen);
      var cursor := (read + dataLen) % maxLen;
      while wrote < len
        invariant Valid() && wrote <= len && dataLen == old(dataLen) + wrote
        invariant cursor == Wrap(read + dataLen, maxLen)
        invariant Contents() == old(Contents()) + src[..wrote]
      {
        if IsFull() {
          return wrote;
        }
        WindowGrows(data[..], read, dataLen, src[wrote]);
        ghost var mem := data[..][cursor := src[wrote]];
        data[cursor] := src[wrote];
        assert data[..] == mem;
        wrote := wrote + 1;
        dataLen := dataLen + 1;
        WrapIsMod(read + dataLen, maxLen);
        cursor := (read + dataLen) % maxLen;
        assert src[..wrote] == src[..wrote - 1] + [src[wrote - 1]];
      }
    }

    /** The step that reading and skipping share. */
    method DropFirst()
      requires Valid() && 0 < dataLen
      modifies this`dataLen, this`read
      ensures Valid() && dataLen == old(dataLen) - 1
      ensures Contents() == old(Contents())[1..]
    {
      WindowShrinks(data[..], read, dataLen);
      WrapIsMod(read + 1, maxLen);
      dataLen := dataLen - 1;
      read := (read + 1) % maxLen;
    }

    method Read(dst: array<byte>, len: u16) returns (count: u16)
      requires Valid() && len <= dst.Length && dst != data
      modifies dst, this`dataLen, this`read
      ensures Valid()
      ensures count == if len <= |old(Contents())| then len else |old(Contents())|
      ensures dst[..count] == old(Contents())[..count]
      ensures dst[count..] == old(dst[count..])
      ensures Contents() == old(Contents())[count..]
    {
      count := 0;
      ghost var q := Contents();
      var cursor := read;
      while count < len
        invariant Valid() && count <= len && count <= |q| && dataLen == |q| - count
        invariant cursor == read
        invariant dst[..count] == q[..count] && dst[count..] == old(dst[..])[count..]
        invariant data[..] == old(data[..]) && Contents() == q[count..]
      {
        if IsEmpty() {
          return count;
        }
        WindowShrinks(data[..], read, dataLen);
        assert q[count..][0] == q[count] && q[count..][1..] == q[count + 1..];
        dst[count] := data[cursor];
        count := count + 1;
        DropFirst();
        cursor := read;
        assert q[..count] == q[..count - 1] + [q[count - 1]];
      }
    }

    method Skip(len: u16) returns (count: u16)
      requires Valid()
      modifies this`dataLen, this`read
      ensures Valid()
      ensures count == if len <= |old(Contents())| then len else |old(Contents())|
      ensures Contents() == old(Contents())[count..]
    {
      count := 0;
      ghost var q := Contents();
      while count < len
        invariant Valid() && count <= len && count <= |q| && dataLen == |q| - count
        invariant Contents() == q[count..]
      {
        if IsEmpty() {
          return count;
        }
        count := count + 1;
        DropFirst();
        assert q[count..] == q[count - 1..][1..];
      }
    }

    method Peek(dst: array<byte>, len: u16) returns (count: u16)
      requires Valid() && len <= dst.Length && dst != data
      modifies dst
      ensures Valid() && Contents() == old(Contents())
      ensures count == if len <= |Contents()| then len else |Contents()|
      ensures dst[..count] == Contents()[..count] && dst[count..] == old(dst[count..])
    {
      count := 0;
      var cursor := read;
      var n := if dataLen < len then dataLen else len;
      while count < n
        invariant count <= n && cursor == Wrap(read + count, maxLen)
        invariant data[..] == old(data[..])
        invariant dst[..count] == Contents()[..count] && dst[count..] == old(dst[..])[count..]
      {
        dst[count] := data[cursor];
        assert data[cursor] == Contents()[count];
        count := count + 1;
        WrapIsMod(cursor + 1, maxLen);
        cursor := (cursor + 1) % maxLen;
      }
    }
  }
}
