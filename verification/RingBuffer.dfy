/** A byte queue stored circularly in a caller's buffer. The abstract value is the queued
    byte string; every operation is specified on it, so wrap-around is invisible outside. */
module RingBuffers {
  import opened Wire

  /** The index `k` places after `pos` in a circular buffer of length `n`. */
  function At(pos: nat, k: nat, n: nat): (w: nat)
    requires pos < n && k <= n
    ensures w < n && w == (pos + k) % n
  {
    ModOnce(pos + k, n);
    if pos + k < n then pos + k else pos + k - n
  }

  lemma ModOnce(i: nat, n: nat)
    requires i < 2 * n
    ensures i % n == if i < n then i else i - n
  {
  }

  /** The `size` bytes that start at `pos`, read circularly. */
  function View(buf: seq<byte>, pos: nat, size: nat): (s: seq<byte>)
    requires pos < |buf| && size <= |buf|
    ensures |s| == size
  {
    seq(size, k requires 0 <= k < size => buf[At(pos, k, |buf|)])
  }

  lemma ViewDrop(buf: seq<byte>, pos: nat, size: nat, len: nat)
    requires pos < |buf| && len <= size <= |buf|
    ensures View(buf, pos, size)[len..] == View(buf, At(pos, len, |buf|), size - len)
  {
    forall k: nat | k < size - len
      ensures View(buf, pos, size)[len..][k] == View(buf, At(pos, len, |buf|), size - len)[k]
    {
      assert At(pos, len + k, |buf|) == At(At(pos, len, |buf|), k, |buf|);
    }
  }

  /** Overwriting `data` circularly after the view appends it. */
  lemma ViewAppend(before: seq<byte>, after: seq<byte>, pos: nat, size: nat, data: seq<byte>)
    requires |after| == |before| && pos < |before| && size + |data| <= |before|
    requires forall k: nat :: k < |data| ==> after[At(At(pos, size, |before|), k, |before|)] == data[k]
    requires forall k: nat :: k < size ==> after[At(pos, k, |before|)] == before[At(pos, k, |before|)]
    ensures View(after, pos, size + |data|) == View(before, pos, size) + data
  {
    var n := |before|;
    forall k: nat | k < size + |data|
      ensures View(after, pos, size + |data|)[k] == (View(before, pos, size) + data)[k]
    {
      if size <= k {
        assert At(pos, k, n) == At(At(pos, size, n), k - size, n);
      }
    }
  }

  class RingBuffer {
    const buffer: array<byte>
    var readPos: nat
    var size: nat

    constructor (buffer: array<byte>)
      requires buffer.Length > 0
      ensures Valid() && this.buffer == buffer && Contents() == []
    {
      this.buffer := buffer;
      readPos, size := 0, 0;
    }

    ghost predicate Valid()
      reads this
    {
      buffer.Length > 0 && readPos < buffer.Length && size <= buffer.Length
    }

    /** The queued bytes, oldest first. */
    ghost function Contents(): (s: seq<byte>)
      requires Valid()
      reads this, buffer
      ensures |s| == size
    {
      View(buffer[..], readPos, size)
    }

    method Write(data: seq<byte>) returns (status: Status)
      requires Valid()
      modifies this`size, buffer
      ensures Valid()
      ensures status == if |data| > buffer.Length - old(size) then BufferTooSmall else OK
      ensures Contents() == if status == OK then old(Contents()) + data else old(Contents())
    {
      if |data| > buffer.Length - size {
        return BufferTooSmall;
      }
      if |data| == 0 {
        return OK;
      }
      ghost var before := buffer[..];
      var pos := (readPos + size) % buffer.Length;
      assert pos == At(readPos, size, buffer.Length);
      var first := buffer.Length - pos;
      if first > |data| {
        first := |data|;
      }
      var second := |data| - first;
      forall k | 0 <= k < first {
        buffer[pos + k] := data[k];
      }
      if second > 0 {
        forall k | 0 <= k < second {
          buffer[k] := data[first + k];
        }
      }
      ViewAppend(before, buffer[..], readPos, size, data);
      size := size + |data|;
      return OK;
    }

    method Peek(offset: nat, out: array<byte>, outLen: nat) returns (status: Status)
      requires Valid() && outLen <= out.Length && out != buffer
      modifies out
      ensures status == if offset > size || outLen > size - offset then NeedMoreData else OK
      ensures status == OK ==> out[..outLen] == Contents()[offset..offset + outLen]
      ensures out[outLen..] == old(out[outLen..])
      ensures status != OK ==> out[..] == old(out[..])
    {
      if offset > size || outLen > size - offset {
        return NeedMoreData;
      }
      if outLen == 0 {
        return OK;
      }
      var pos := (readPos + offset) % buffer.Length;
      assert pos == At(readPos, offset, buffer.Length);
      var first := buffer.Length - pos;
      if first > outLen {
        first := outLen;
      }
      var second := outLen - first;
      forall k | 0 <= k < first {
        out[k] := buffer[pos + k];
      }
      if second > 0 {
        forall k | 0 <= k < second {
          out[first + k] := buffer[k];
        }
      }
      ViewDrop(buffer[..], readPos, size, offset);
      forall k: nat | k < outLen
        ensures out[k] == View(buffer[..], pos, size - offset)[k]
      {
        assert out[k] == buffer[At(pos, k, buffer.Length)];
      }
      assert Contents()[offset..offset + outLen] == Contents()[offset..][..outLen];
      return OK;
    }

    method Discard(len: nat) returns (status: Status)
      requires Valid()
      modifies this
      ensures Valid()
      ensures status == if len > old(size) then NeedMoreData else OK
      ensures Contents() == if status == OK then old(Contents())[len..] else old(Contents())
    {
      if len > size {
        return NeedMoreData;
      }
      ViewDrop(buffer[..], readPos, size, len);
      readPos := (readPos + len) % buffer.Length;
      size := size - len;
      if size == 0 {
        readPos := 0;
      }
      return OK;
    }

    method Read(out: array<byte>, outLen: nat) returns (status: Status)
      requires Valid() && outLen <= out.Length && out != buffer
      modifies this, out
      ensures Valid()
      ensures status == if outLen > old(size) then NeedMoreData else OK
      ensures status == OK ==> out[..outLen] == old(Contents())[..outLen] && Contents() == old(Contents())[outLen..]
      ensures status != OK ==> out[..] == old(out[..]) && Contents() == old(Contents())
    {
      status := Peek(0, out, outLen);
      if status != OK {
        return;
      }
      status := Discard(outLen);
    }

    /** What zeroing the structure leaves: an empty queue over the same storage. */
    method Reset()
      requires buffer.Length > 0
      modifies this
      ensures Valid() && Contents() == []
    {
      readPos, size := 0, 0;
    }
  }
}
