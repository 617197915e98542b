/** Bounds-checked big-endian loads and stores on a caller's buffer. */
module Endian {
  import opened Wire

  predicate CanAccess(bufferLen: nat, offset: nat, size: nat)
  {
    offset <= bufferLen && size <= bufferLen - offset
  }

  /** `s` with the bytes from `at` on replaced by `part`. */
  function Splice(s: seq<byte>, at: nat, part: seq<byte>): (r: seq<byte>)
    requires at + |part| <= |s|
    ensures |r| == |s|
  {
    s[..at] + part + s[at + |part|..]
  }

  lemma SpliceEnds(s: seq<byte>, at: nat, part: seq<byte>)
    requires at + |part| <= |s|
    ensures Splice(s, at, part)[..at + |part|] == s[..at] + part
    ensures Splice(s, at, part)[at + |part|..] == s[at + |part|..]
  {
  }

  /** A buffer that differs from another only in one stretch is that other with the stretch spliced in. */
  lemma Assemble(before: seq<byte>, after: seq<byte>, at: nat, part: seq<byte>)
    requires |after| == |before| && at + |part| <= |before|
    requires after[..at] == before[..at] && after[at + |part|..] == before[at + |part|..]
    requires forall k :: 0 <= k < |part| ==> after[at + k] == part[k]
    ensures after == Splice(before, at, part)
  {
  }

  /** memcpy into a buffer. */
  method CopyInto(buffer: array<byte>, offset: nat, value: seq<byte>)
    requires offset + |value| <= buffer.Length
    modifies buffer
    ensures buffer[..] == Splice(old(buffer[..]), offset, value)
    ensures buffer[..offset + |value|] == old(buffer[..offset]) + value
  {
    forall k | 0 <= k < |value| {
      buffer[offset + k] := value[k];
    }
  }

  method WriteU16(buffer: array<byte>, offset: nat, value: u16) returns (status: Status)
    modifies buffer
    ensures status == if CanAccess(buffer.Length, offset, 2) then OK else BufferTooSmall
    ensures buffer[..] == if status == OK then Splice(old(buffer[..]), offset, BE16(value)) else old(buffer[..])
  {
    if !CanAccess(buffer.Length, offset, 2) {
      return BufferTooSmall;
    }
    buffer[offset] := (value / 0x100) % 0x100;
    buffer[offset + 1] := value % 0x100;
    return OK;
  }

  method WriteU32(buffer: array<byte>, offset: nat, value: u32) returns (status: Status)
    modifies buffer
    ensures status == if CanAccess(buffer.Length, offset, 4) then OK else BufferTooSmall
    ensures buffer[..] == if status == OK then Splice(old(buffer[..]), offset, BE32(value)) else old(buffer[..])
  {
    hide Splice, BE32;
    if !CanAccess(buffer.Length, offset, 4) {
      return BufferTooSmall;
    }
    ghost var before := buffer[..];
    buffer[offset] := (value / 0x100_0000) % 0x100;
    buffer[offset + 1] := (value / 0x1_0000) % 0x100;
    buffer[offset + 2] := (value / 0x100) % 0x100;
    buffer[offset + 3] := value % 0x100;
    BE32Bytes(value);
    assert buffer[..offset] == before[..offset] && buffer[offset + 4..] == before[offset + 4..];
    Assemble(before, buffer[..], offset, BE32(value));
    return OK;
  }

  method WriteU64(buffer: array<byte>, offset: nat, value: u64) returns (status: Status)
    modifies buffer
    ensures status == if CanAccess(buffer.Length, offset, 8) then OK else BufferTooSmall
    ensures buffer[..] == if status == OK then Splice(old(buffer[..]), offset, BE64(value)) else old(buffer[..])
  {
    hide Splice, BE64;
    if !CanAccess(buffer.Length, offset, 8) {
      return BufferTooSmall;
    }
    ghost var before := buffer[..];
    buffer[offset] := (value / 0x100_0000_0000_0000) % 0x100;
    buffer[offset + 1] := (value / 0x1_0000_0000_0000) % 0x100;
    buffer[offset + 2] := (value / 0x100_0000_0000) % 0x100;
    buffer[offset + 3] := (value / 0x1_0000_0000) % 0x100;
    buffer[offset + 4] := (value / 0x100_0000) % 0x100;
    buffer[offset + 5] := (value / 0x1_0000) % 0x100;
    buffer[offset + 6] := (value / 0x100) % 0x100;
    buffer[offset + 7] := value % 0x100;
    BE64Bytes(value);
    assert buffer[..offset] == before[..offset] && buffer[offset + 8..] == before[offset + 8..];
    Assemble(before, buffer[..], offset, BE64(value));
    return OK;
  }

  method ReadU16(buffer: seq<byte>, offset: nat) returns (status: Status, value: u16)
    ensures status == if CanAccess(|buffer|, offset, 2) then OK else BufferTooSmall
    ensures status == OK ==> BE16(value) == buffer[offset..offset + 2]
  {
    if !CanAccess(|buffer|, offset, 2) {
      return BufferTooSmall, 0;
    }
    var hi: int, lo: int := buffer[offset], buffer[offset + 1];
    return OK, hi * 0x100 + lo;
  }

  method ReadU32(buffer: seq<byte>, offset: nat) returns (status: Status, value: u32)
    ensures status == if CanAccess(|buffer|, offset, 4) then OK else BufferTooSmall
    ensures status == OK ==> BE32(value) == buffer[offset..offset + 4]
  {
    if !CanAccess(|buffer|, offset, 4) {
      return BufferTooSmall, 0;
    }
    var b0: int, b1: int, b2: int, b3: int :=
        buffer[offset], buffer[offset + 1], buffer[offset + 2], buffer[offset + 3];
    value := b0 * 0x100_0000 + b1 * 0x1_0000 + b2 * 0x100 + b3;
    BE32Inverse(0, buffer[offset..offset + 4]);
    return OK, value;
  }

  lemma FromBE32Digits(s: seq<byte>)
    requires |s| == 4
    ensures FromBE32(s) == (s[0] as int) * 0x100_0000 + (s[1] as int) * 0x1_0000 + (s[2] as int) * 0x100 + s[3] as int
  {
  }

  lemma FromBE64Digits(s: seq<byte>)
    requires |s| == 8
    ensures FromBE64(s) == (s[0] as int) * 0x100_0000_0000_0000 + (s[1] as int) * 0x1_0000_0000_0000
                           + (s[2] as int) * 0x100_0000_0000 + (s[3] as int) * 0x1_0000_0000
                           + (s[4] as int) * 0x100_0000 + (s[5] as int) * 0x1_0000 + (s[6] as int) * 0x100 + s[7] as int
  {
    FromBE32Digits(s[..4]);
    FromBE32Digits(s[4..]);
  }

  method ReadU64(buffer: seq<byte>, offset: nat) returns (status: Status, value: u64)
    ensures status == if CanAccess(|buffer|, offset, 8) then OK else BufferTooSmall
    ensures status == OK ==> BE64(value) == buffer[offset..offset + 8]
  {
    if !CanAccess(|buffer|, offset, 8) {
      return BufferTooSmall, 0;
    }
    var b0: int, b1: int, b2: int, b3: int :=
        buffer[offset], buffer[offset + 1], buffer[offset + 2], buffer[offset + 3];
    var b4: int, b5: int, b6: int, b7: int :=
        buffer[offset + 4], buffer[offset + 5], buffer[offset + 6], buffer[offset + 7];
    value := b0 * 0x100_0000_0000_0000 + b1 * 0x1_0000_0000_0000 + b2 * 0x100_0000_0000 + b3 * 0x1_0000_0000
      + b4 * 0x100_0000 + b5 * 0x1_0000 + b6 * 0x100 + b7;
    var s := buffer[offset..offset + 8];
    BE64Inverse(0, s);
    FromBE64Digits(s);
    return OK, value;
  }
}
