/**
  The body of a cache entry: an append-only list of chunks with head and tail pointers, and
  the loops that append to it and copy out of it at any offset.
 */
module Chunks {
  import opened Basics
  import opened UrlHash

  datatype EntryState = Incomplete | Complete | Cancelled

  class Chunk {
    const data: seq<Byte>
    var next: Chunk?

    constructor (d: seq<Byte>)
      ensures data == d && next == null
    {
      data := d;
      next := null;
    }
  }

  /** All bytes of the chunks, in order. */
  ghost function Flatten(cs: seq<Chunk>): seq<Byte> {
    if cs == [] then [] else Flatten(cs[..|cs| - 1]) + cs[|cs| - 1].data
  }

  lemma FlattenSnoc(cs: seq<Chunk>, c: Chunk)
    ensures Flatten(cs + [c]) == Flatten(cs) + c.data
  {
    assert (cs + [c])[..|cs|] == cs;
  }

  /** At most size bytes of the stream from the offset on. */
  function Slice(s: seq<Byte>, offset: nat, size: nat): seq<Byte> {
    if offset >= |s| then [] else if offset + size <= |s| then s[offset..offset + size] else s[offset..]
  }

  lemma {:induction false} FlattenAt(cs: seq<Chunk>, k: nat)
    requires k < |cs|
    ensures
      var a := |Flatten(cs[..k])|;
      a + |cs[k].data| <= |Flatten(cs)| && Flatten(cs)[a..a + |cs[k].data|] == cs[k].data &&
      |Flatten(cs[..k + 1])| == a + |cs[k].data|
  {
    assert cs[..k + 1][..k] == cs[..k];
    if k < |cs| - 1 {
      FlattenAt(cs[..|cs| - 1], k);
      assert cs[..|cs| - 1][..k] == cs[..k] && cs[..|cs| - 1][..k + 1] == cs[..k + 1];
    } else {
      assert cs[..k + 1] == cs;
    }
  }

  lemma SubSlice<T>(s: seq<T>, a: nat, b: nat, c: nat, d: nat)
    requires a <= b <= |s| && c <= d <= b - a
    ensures s[a..b][c..d] == s[a + c..a + d]
  {
    forall i | 0 <= i < d - c ensures s[a..b][c..d][i] == s[a + c..a + d][i] {
    }
  }

  /** A copy that stops at the requested size or at the end of the stream is complete. */
  lemma SliceEnd(s: seq<Byte>, offset: nat, n: nat, size: nat)
    requires n <= size && (n < size ==> offset + n >= |s|)
    ensures Slice(s, offset, size) == Slice(s, offset, n)
  {
  }

  lemma SliceAppend(s: seq<Byte>, offset: nat, n: nat, count: nat)
    requires offset + n + count <= |s|
    ensures Slice(s, offset, n + count) == Slice(s, offset, n) + s[offset + n..offset + n + count]
  {
  }

  /** Copying from chunk k extends the part of the stream that has been read. */
  lemma SliceExtend(cs: seq<Chunk>, k: nat, at: nat, offset: nat, n: nat, count: nat)
    requires k < |cs| && offset + n == |Flatten(cs[..k])| + at && at + count <= |cs[k].data|
    ensures offset + n + count <= |Flatten(cs)|
    ensures Slice(Flatten(cs), offset, n + count) == Slice(Flatten(cs), offset, n) + cs[k].data[at..at + count]
    ensures at + count == |cs[k].data| ==> offset + n + count == |Flatten(cs[..k + 1])|
  {
    FlattenAt(cs, k);
    var f, a := Flatten(cs), |Flatten(cs[..k])|;
    SubSlice(f, a, a + |cs[k].data|, at, at + count);
    SliceAppend(f, offset, n, count);
  }

  class Body {
    var head: Chunk?
    var tail: Chunk?
    var totalSize: nat
    var state: EntryState
    ghost var chunks: seq<Chunk>

    ghost predicate Linked(i: nat)
      reads this, chunks
    {
      i < |chunks| && chunks[i].next == (if i + 1 < |chunks| then chunks[i + 1] else null)
    }

    ghost predicate Valid()
      reads this, chunks
    {
      Distinct(chunks) && (forall i :: 0 <= i < |chunks| ==> Linked(i)) &&
      (head == if chunks == [] then null else chunks[0]) &&
      (chunks != [] ==> tail == chunks[|chunks| - 1]) &&
      totalSize == |Flatten(chunks)|
    }

    ghost function Data(): seq<Byte>
      reads this
    {
      Flatten(chunks)
    }

    constructor ()
      ensures Valid() && Data() == [] && state == Incomplete && chunks == []
    {
      head, tail, totalSize, state, chunks := null, null, 0, Incomplete, [];
    }

    /** cache_entry_append_chunk: refused once the entry is cancelled, else the block goes to the end. */
    method Append(block: seq<Byte>) returns (ok: bool)
      requires Valid()
      modifies this, chunks
      ensures Valid() && state == old(state) && ok == (state != Cancelled)
      ensures Data() == if ok then old(Data()) + block else old(Data())
      ensures forall c | c in chunks :: c in old(chunks) || fresh(c)
    {
      if state == Cancelled {
        return false;
      }
      var c := new Chunk(block);
      if head == null {
        head := c;
        tail := c;
      } else {
        tail.next := c;
        tail := c;
      }
      FlattenSnoc(chunks, c);
      chunks := chunks + [c];
      totalSize := totalSize + |block|;
      forall i | 0 <= i < |chunks| ensures Linked(i) {
        if i + 2 < |chunks| {
          assert old(Linked(i)) && chunks[i] != chunks[|chunks| - 2];
        }
      }
      return true;
    }

    /** Find the chunk that holds the offset; what is left of the offset lies within it. */
    method Seek(offset: nat) returns (chunk: Chunk?, rest: nat, ghost k: nat)
      requires Valid()
      ensures k <= |chunks| && chunk == (if k < |chunks| then chunks[k] else null)
      ensures offset == |Flatten(chunks[..k])| + rest
      ensures chunk != null ==> rest < |chunk.data|
    {
      chunk, rest, k := head, offset, 0;
      while chunk != null && rest >= |chunk.data|
        invariant k <= |chunks| && chunk == (if k < |chunks| then chunks[k] else null)
        invariant offset == |Flatten(chunks[..k])| + rest
        decreases |chunks| - k
      {
        FlattenAt(chunks, k);
        assert Linked(k);
        rest := rest - |chunk.data|;
        chunk := chunk.next;
        k := k + 1;
      }
    }

    /** The copying loop of cache_entry_read, from byte `at` of chunk k on. */
    method CopyOut(buf: array<Byte>, first: Chunk?, at0: nat, offset: nat, size: nat, ghost k0: nat) returns (n: nat)
      requires Valid() && size <= buf.Length
      requires k0 <= |chunks| && first == (if k0 < |chunks| then chunks[k0] else null)
      requires offset == |Flatten(chunks[..k0])| + at0 && (first != null ==> at0 < |first.data|)
      modifies buf
      ensures n <= size && buf[..n] == Slice(Data(), offset, n) && buf[n..] == old(buf[n..])
      ensures n < size ==> offset + n >= |Data()|
    {
      var chunk: Chunk?, at: nat := first, at0;
      ghost var k: nat, cs := k0, chunks;
      n := 0;
      while chunk != null && n < size
        invariant n <= size && k <= |cs| && chunk == (if k < |cs| then cs[k] else null)
        invariant n < size ==> offset + n == |Flatten(cs[..k])| + at
        invariant chunk != null && n < size ==> at <= |chunk.data|
        invariant buf[..n] == Slice(Flatten(cs), offset, n) && buf[n..] == old(buf[n..])
        decreases |cs| - k
      {
        assert Linked(k);
        var available := |chunk.data| - at;
        var count := if size - n < available then size - n else available;
        SliceExtend(cs, k, at, offset, n, count);
        var piece := chunk.data[at..at + count];
        CopyIn(buf, n, piece);
        assert buf[..n + count] == Slice(Flatten(cs), offset, n + count);
        n := n + count;
        chunk := chunk.next;
        at := 0;
        k := k + 1;
      }
      assert cs[..|cs|] == cs;
    }

    /**
      cache_entry_read once there is nothing more to wait for: -1 for a cancelled entry, else
      the number of bytes copied, which are the bytes of the stream at the offset.
     */
    method Read(buf: array<Byte>, offset: nat, size: nat) returns (n: int)
      requires Valid() && size <= buf.Length
      requires !(offset >= totalSize && state == Incomplete)
      modifies buf
      ensures state == Cancelled ==> n == -1 && buf[..] == old(buf[..])
      ensures state != Cancelled ==>
        0 <= n <= size && buf[..n] == Slice(Data(), offset, size) && buf[n..] == old(buf[n..])
    {
      if state == Cancelled {
        return -1;
      }
      var chunk, rest, k := Seek(offset);
      n := CopyOut(buf, chunk, rest, offset, size, k);
      SliceEnd(Data(), offset, n, size);
    }

    /** memcpy into the buffer. */
    method CopyIn(buf: array<Byte>, from: nat, data: seq<Byte>)
      requires from + |data| <= buf.Length
      modifies buf
      ensures buf[..from + |data|] == old(buf[..from]) + data
      ensures buf[from + |data|..] == old(buf[from + |data|..])
    {
      forall i | 0 <= i < |data| {
        buf[from + i] := data[i];
      }
    }
  }
}
