/** The vocabulary shared by every layer: machine-width integers, status codes, and
    big-endian integers as byte strings with their two inverse laws. */
module Wire {
  type byte = x: int | 0 <= x < 0x100
  type u16 = x: int | 0 <= x < 0x1_0000
  type u32 = x: int | 0 <= x < 0x1_0000_0000
  type u64 = x: int | 0 <= x < 0x1_0000_0000_0000_0000

  /** The status codes of include/lan_chat/core/status.h, in order. */
  datatype Status =
    | OK | InvalidArgument | NotImplemented | OutOfMemory | StorageError | NetworkError
    | InternalError | NeedMoreData | BadMagic | UnsupportedVersion | BadHeader | BodyTooLarge
    | UnsupportedField | DuplicateField | BufferTooSmall | AlreadyExists | NotFound | InvalidState

  datatype Option<+T> = None | Some(value: T)

  const HEADER_LEN := 64
  const MAX_BODY_LEN := 65535
  const MAX_FILE_SIZE := 1048576
  const FILE_CHUNK_SIZE := 32768

  function Min(a: int, b: int): int { if a < b then a else b }

  // ----- big-endian integers -----

  function BE16(v: u16): (s: seq<byte>)
    ensures |s| == 2
  {
    [v / 0x100, v % 0x100]
  }

  function FromBE16(s: seq<byte>): u16
    requires |s| == 2
  {
    var hi: int, lo: int := s[0], s[1];
    hi * 0x100 + lo
  }

  function BE32(v: u32): (s: seq<byte>)
    ensures |s| == 4
  {
    BE16(v / 0x1_0000) + BE16(v % 0x1_0000)
  }

  function FromBE32(s: seq<byte>): u32
    requires |s| == 4
  {
    var hi: int, lo: int := FromBE16(s[..2]), FromBE16(s[2..]);
    hi * 0x1_0000 + lo
  }

  function BE64(v: u64): (s: seq<byte>)
    ensures |s| == 8
  {
    BE32(v / 0x1_0000_0000) + BE32(v % 0x1_0000_0000)
  }

  function FromBE64(s: seq<byte>): u64
    requires |s| == 8
  {
    var hi: int, lo: int := FromBE32(s[..4]), FromBE32(s[4..]);
    hi * 0x1_0000_0000 + lo
  }

  lemma BE16Inverse(v: u16, s: seq<byte>)
    requires |s| == 2
    ensures FromBE16(BE16(v)) == v && BE16(FromBE16(s)) == s
  {
  }

  lemma BE32Inverse(v: u32, s: seq<byte>)
    requires |s| == 4
    ensures FromBE32(BE32(v)) == v && BE32(FromBE32(s)) == s
  {
    hide BE16, FromBE16;
    BE16Inverse(v / 0x1_0000, s[..2]);
    BE16Inverse(v % 0x1_0000, s[2..]);
    assert BE32(v)[..2] == BE16(v / 0x1_0000) && BE32(v)[2..] == BE16(v % 0x1_0000);
    assert s == s[..2] + s[2..];
  }

  lemma BE64Inverse(v: u64, s: seq<byte>)
    requires |s| == 8
    ensures FromBE64(BE64(v)) == v && BE64(FromBE64(s)) == s
  {
    hide BE32, FromBE32;
    BE32Inverse(v / 0x1_0000_0000, s[..4]);
    BE32Inverse(v % 0x1_0000_0000, s[4..]);
    assert BE64(v)[..4] == BE32(v / 0x1_0000_0000) && BE64(v)[4..] == BE32(v % 0x1_0000_0000);
    assert s == s[..4] + s[4..];
  }

  /** The bytes the shift-and-mask stores write, most significant first. */
  lemma BE32Bytes(v: u32)
    ensures BE32(v) == [(v / 0x100_0000) % 0x100, (v / 0x1_0000) % 0x100, (v / 0x100) % 0x100, v % 0x100]
  {
    var hi: int, lo: int := v / 0x1_0000, v % 0x1_0000;
    assert v == hi * 0x1_0000 + lo;
    assert v / 0x100_0000 == hi / 0x100;
    assert v / 0x100 == hi * 0x100 + lo / 0x100;
    assert BE16(hi) == [hi / 0x100, hi % 0x100] && BE16(lo) == [lo / 0x100, lo % 0x100];
  }

  lemma BE64Bytes(v: u64)
    ensures BE64(v) == [(v / 0x100_0000_0000_0000) % 0x100, (v / 0x1_0000_0000_0000) % 0x100,
                        (v / 0x100_0000_0000) % 0x100, (v / 0x1_0000_0000) % 0x100,
                        (v / 0x100_0000) % 0x100, (v / 0x1_0000) % 0x100, (v / 0x100) % 0x100, v % 0x100]
  {
    var hi: int, lo: int := v / 0x1_0000_0000, v % 0x1_0000_0000;
    assert v == hi * 0x1_0000_0000 + lo;
    BE32Bytes(hi);
    BE32Bytes(lo);
    HighDigits(v, hi, lo);
    LowDigits(v, hi, lo);
  }

  lemma HighDigits(v: u64, hi: u32, lo: u32)
    requires v == hi * 0x1_0000_0000 + lo
    ensures v / 0x100_0000_0000_0000 == hi / 0x100_0000 && v / 0x1_0000_0000_0000 == hi / 0x1_0000
    ensures v / 0x100_0000_0000 == hi / 0x100 && v / 0x1_0000_0000 == hi
  {
  }

  lemma LowDigits(v: u64, hi: u32, lo: u32)
    requires v == hi * 0x1_0000_0000 + lo
    ensures (v / 0x100_0000) % 0x100 == (lo / 0x100_0000) % 0x100 && (v / 0x1_0000) % 0x100 == (lo / 0x1_0000) % 0x100
    ensures (v / 0x100) % 0x100 == (lo / 0x100) % 0x100 && v % 0x100 == lo % 0x100
  {
    AddMultiple(hi, lo / 0x100_0000);
    AddMultiple(hi * 0x100, lo / 0x1_0000);
    AddMultiple(hi * 0x1_0000, lo / 0x100);
    AddMultiple(hi * 0x100_0000, lo);
  }

  lemma AddMultiple(q: int, x: int)
    ensures (q * 0x100 + x) % 0x100 == x % 0x100
  {
  }

  // ----- sequences -----

  lemma Reassociate<T>(a: seq<T>, b: seq<T>, c: seq<T>)
    ensures (a + b) + c == a + (b + c)
  {
  }

  function Flatten<T>(parts: seq<seq<T>>): seq<T>
  {
    if parts == [] then [] else parts[0] + Flatten(parts[1..])
  }

  lemma {:induction false} FlattenAppend<T>(a: seq<seq<T>>, b: seq<seq<T>>)
    ensures Flatten(a + b) == Flatten(a) + Flatten(b)
  {
    if a == [] {
      assert a + b == b;
    } else {
      FlattenAppend(a[1..], b);
      assert (a + b)[1..] == a[1..] + b;
      Reassociate(a[0], Flatten(a[1..]), Flatten(b));
    }
  }

  lemma FlattenSnoc<T>(a: seq<seq<T>>, x: seq<T>)
    ensures Flatten(a + [x]) == Flatten(a) + x
  {
    FlattenAppend(a, [x]);
    assert Flatten([x]) == x + Flatten([]);
  }
}
