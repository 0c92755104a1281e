/** Reactor::Buffer: a vector with a reader and a writer index. `Contents`, the window between
    them, is a byte queue; every operation is stated as what it does to that queue. */
module ByteBuffer {
  import opened Basics

  const CHEAP_PREPEND: nat := 8
  const INITIAL_SIZE: nat := 1024
  const EXTRA_SIZE: nat := 65536

  /** std::copy onto an overlapping range to the left: correct only because every byte is read
      before it is overwritten, which is what `to < from` is for. */
  method CopyLeft(a: array<byte>, from: nat, n: nat, to: nat)
    requires to < from && from + n <= a.Length
    modifies a
    ensures a[to..to + n] == old(a[from..from + n])
    ensures a[..to] == old(a[..to])
    ensures a[to + n..] == old(a[to + n..])
  {
    ghost var was := a[..];
    var i := 0;
    while i < n
      invariant i <= n
      invariant forall j | to <= j < to + i :: a[j] == was[from + (j - to)]
      invariant forall j | 0 <= j < a.Length && !(to <= j < to + i) :: a[j] == was[j]
    {
      a[to + i] := a[from + i];
      i := i + 1;
    }
  }

  /** std::copy from outside memory. */
  method CopyIn(a: array<byte>, at: nat, src: Bytes)
    requires at + |src| <= a.Length
    modifies a
    ensures a[at..at + |src|] == src
    ensures a[..at] == old(a[..at]) && a[at + |src|..] == old(a[at + |src|..])
  {
    ghost var was := a[..];
    forall i | 0 <= i < |src| {
      a[at + i] := src[i];
    }
    assert forall j | 0 <= j < a.Length && !(at <= j < at + |src|) :: a[j] == was[j];
  }

  lemma Windows(s: Bytes, t: Bytes, lo: nat, mid: nat, hi: nat)
    requires lo <= mid <= hi <= |s| == |t|
    ensures s[lo..hi] == s[lo..mid] + s[mid..hi]
    ensures s[..mid] == t[..mid] ==> s[lo..mid] == t[lo..mid]
    ensures s[mid..] == t[mid..] ==> s[mid..hi] == t[mid..hi]
  {
    assert s[..mid][lo..] == s[lo..mid] && t[..mid][lo..] == t[lo..mid];
    assert s[mid..][..hi - mid] == s[mid..hi] && t[mid..][..hi - mid] == t[mid..hi];
  }

  class Buffer {
    var data: array<byte>
    var readerIndex: nat
    var writerIndex: nat

    ghost predicate Valid()
      reads this
    {
      readerIndex <= writerIndex <= data.Length && CHEAP_PREPEND <= data.Length
    }

    ghost function Contents(): Bytes
      reads this, data
      requires Valid()
    {
      data[readerIndex..writerIndex]
    }

    constructor ()
      ensures Valid() && fresh(data) && Contents() == [] && PrependableBytes() == CHEAP_PREPEND
    {
      data := new byte[CHEAP_PREPEND + INITIAL_SIZE](_ => 0);
      readerIndex, writerIndex := CHEAP_PREPEND, CHEAP_PREPEND;
    }

    function ReadableBytes(): (n: nat)
      reads this
      requires Valid()
    {
      writerIndex - readerIndex
    }

    function WritableBytes(): nat
      reads this
      requires Valid()
    {
      data.Length - writerIndex
    }

    function PrependableBytes(): nat
      reads this
    {
      readerIndex
    }

    /** peek: the first n readable bytes. */
    method Peek(n: nat) returns (s: Bytes)
      requires Valid() && n <= |Contents()|
      ensures s == Contents()[..n]
    {
      s := data[readerIndex..readerIndex + n];
    }

    method Retrieve(len: nat)
      requires Valid() && len <= |Contents()|
      modifies this`readerIndex
      ensures Valid() && Contents() == old(Contents())[len..]
    {
      readerIndex := readerIndex + len;
    }

    method RetrieveAll()
      requires Valid()
      modifies this`readerIndex, this`writerIndex
      ensures Valid() && Contents() == [] && PrependableBytes() == CHEAP_PREPEND
    {
      readerIndex, writerIndex := CHEAP_PREPEND, CHEAP_PREPEND;
    }

    method ReadAsString() returns (str: Bytes)
      requires Valid()
      modifies this`readerIndex, this`writerIndex
      ensures Valid() && str == old(Contents()) && Contents() == []
    {
      str := Peek(ReadableBytes());
      RetrieveAll();
    }

    method ReadAsBlock(size: nat) returns (str: Bytes)
      requires Valid() && size <= |Contents()|
      modifies this`readerIndex
      ensures Valid() && old(Contents()) == str + Contents() && |str| == size
    {
      str := Peek(size);
      readerIndex := readerIndex + size;
    }

    /** Grows the vector only where moving the readable bytes to the front would not do. */
    method MakeSpace(len: nat)
      requires Valid() && WritableBytes() < len
      modifies this, data
      ensures Valid() && Contents() == old(Contents()) && WritableBytes() >= len
      ensures if old(WritableBytes()) + old(PrependableBytes()) < len + CHEAP_PREPEND
              then fresh(data) && data.Length == writerIndex + len > old(data.Length) && readerIndex == old(readerIndex)
              else data == old(data) && readerIndex == CHEAP_PREPEND < old(readerIndex)
    {
      if WritableBytes() + PrependableBytes() < len + CHEAP_PREPEND {
        var was, used := data, writerIndex;
        data := new byte[used + len](i requires 0 <= i reads was => if i < was.Length then was[i] else 0);
        assert data[readerIndex..writerIndex] == old(Contents());
      } else {
        var readable := ReadableBytes();
        CopyLeft(data, readerIndex, readable, CHEAP_PREPEND);
        readerIndex := CHEAP_PREPEND;
        writerIndex := readerIndex + readable;
      }
    }

    method EnsureWritableBytes(len: nat)
      requires Valid()
      modifies this, data
      ensures Valid() && Contents() == old(Contents()) && WritableBytes() >= len
      ensures data == old(data) || (fresh(data) && data.Length > old(data.Length))
      ensures old(WritableBytes()) >= len ==> data == old(data) && readerIndex == old(readerIndex)
      ensures PrependableBytes() <= old(PrependableBytes())
              && (old(PrependableBytes()) >= CHEAP_PREPEND ==> PrependableBytes() >= CHEAP_PREPEND)
    {
      if WritableBytes() < len {
        MakeSpace(len);
      }
    }

    /** The copy into the writable tail and the move of the writer index past it. */
    method Fill(src: Bytes)
      requires Valid() && |src| <= WritableBytes()
      modifies this`writerIndex, data
      ensures Valid() && Contents() == old(Contents()) + src
      ensures WritableBytes() == old(WritableBytes()) - |src|
    {
      ghost var was := data[..];
      CopyIn(data, writerIndex, src);
      Windows(data[..], was, readerIndex, writerIndex, writerIndex + |src|);
      writerIndex := writerIndex + |src|;
    }

    method Append(src: Bytes)
      requires Valid()
      modifies this, data
      ensures Valid() && Contents() == old(Contents()) + src
      ensures data == old(data) || (fresh(data) && data.Length > old(data.Length))
      ensures old(PrependableBytes()) >= CHEAP_PREPEND ==> PrependableBytes() >= CHEAP_PREPEND
    {
      EnsureWritableBytes(|src|);
      Fill(src);
    }

    method Prepend(src: Bytes)
      requires Valid() && |src| <= PrependableBytes()
      modifies this`readerIndex, data
      ensures Valid() && Contents() == src + old(Contents())
    {
      ghost var was := data[..];
      readerIndex := readerIndex - |src|;
      CopyIn(data, readerIndex, src);
      Windows(data[..], was, readerIndex, readerIndex + |src|, writerIndex);
    }

    /** readv into the writable tail and a 64 KiB stack buffer; `arrived` is what the kernel
        delivered (None for an error), at most what the two segments hold. */
    method ReadFd(arrived: Option<Bytes>) returns (n: int)
      requires Valid() && (arrived.Some? ==> |arrived.value| <= WritableBytes() + EXTRA_SIZE)
      modifies this, data
      ensures Valid() && Contents() == old(Contents()) + (if arrived.Some? then arrived.value else [])
      ensures n == if arrived.Some? then |arrived.value| else -1
      ensures data == old(data) || (fresh(data) && data.Length > old(data.Length))
    {
      if arrived.None? {
        return -1;
      }
      var bytes, writable := arrived.value, WritableBytes();
      n := |bytes|;
      if n <= writable {
        Fill(bytes);
      } else {
        Fill(bytes[..writable]);
        Append(bytes[writable..]);
        assert old(Contents()) + bytes[..writable] + bytes[writable..] == old(Contents()) + bytes;
      }
    }
  }
}
