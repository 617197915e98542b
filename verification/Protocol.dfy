/** The fixed 64-byte packet header and the packets made of a header and a body. */
module Protocol {
  import opened Wire
  import opened Endian

  const MAGIC := 0x4C43
  const PROTOCOL_VERSION := 1
  const RESERVED_LEN := 12

  datatype RawHeader = Header(
    magic: u16, version: byte, headerLen: byte, group: u16, messageType: u16, flags: u16, status: u16,
    bodyLen: u32, sequence: u32, sessionId: u64, senderId: u64, receiverId: u64, timestampMs: u64,
    reserved: seq<byte>)

  type Header = h: RawHeader | |h.reserved| == RESERVED_LEN
    witness Header(0, 0, 0, 0, 0, 0, 0, 0, 0, 0, 0, 0, 0, seq(RESERVED_LEN, _ => 0))

  /** No unknown bit, and at most one of REQUEST (1), RESPONSE (2) and NOTIFY (4). */
  predicate FlagsAreValid(flags: u16)
  {
    && flags / 0x20 == 0
    && flags % 2 + (flags / 2) % 2 + (flags / 4) % 2 <= 1
  }

  function Validate(h: Header): Status
  {
    if h.magic != MAGIC then BadMagic
    else if h.version != PROTOCOL_VERSION then UnsupportedVersion
    else if h.headerLen != HEADER_LEN then BadHeader
    else if h.bodyLen > MAX_BODY_LEN then BodyTooLarge
    else if !FlagsAreValid(h.flags) then BadHeader
    else if exists i :: 0 <= i < RESERVED_LEN && h.reserved[i] != 0 then BadHeader
    else OK
  }

  /** A header that this version of the protocol admits, field by field. The flags are REQUEST (1),
      RESPONSE (2), NOTIFY (4) or none of them, with or without 8 and 16. */
  predicate WellFormed(h: Header)
  {
    && h.magic == 0x4C43 && h.version == 1 && h.headerLen == 64 && h.bodyLen <= 65535
    && h.flags in [0, 1, 2, 4, 8, 9, 10, 12, 16, 17, 18, 20, 24, 25, 26, 28]
    && forall i :: 0 <= i < 12 ==> h.reserved[i] == 0
  }

  lemma FlagsListed(flags: u16)
    ensures FlagsAreValid(flags) <==> flags in [0, 1, 2, 4, 8, 9, 10, 12, 16, 17, 18, 20, 24, 25, 26, 28]
  {
    hide FlagsAreValid;
    if flags < 32 {
      var high: int, low: int := flags / 8, flags % 8;
      LowFlags(high, low);
    } else {
      TooHigh(flags);
    }
  }

  lemma TooHigh(flags: u16)
    requires flags >= 32
    ensures !FlagsAreValid(flags)
  {
  }

  /** The three low bits decide. */
  lemma LowFlags(high: int, low: int)
    requires 0 <= high < 4 && 0 <= low < 8
    ensures FlagsAreValid(8 * high + low) <==> low in [0, 1, 2, 4]
  {
    EvenPart(4 * high, low);
    EvenPart(2 * high, low / 2);
    EvenPart(high, low / 4);
  }

  lemma EvenPart(half: int, rest: int)
    ensures (2 * half + rest) % 2 == rest % 2 && (2 * half + rest) / 2 == half + rest / 2
  {
  }

  /** Exactly the well-formed headers are accepted; any other is refused for the first of magic, version,
      lengths, flags and reserved bytes that is wrong. */
  lemma ValidateIff(h: Header)
    ensures Validate(h) == OK <==> WellFormed(h)
    ensures Validate(h) == BadMagic <==> h.magic != 0x4C43
    ensures Validate(h) == UnsupportedVersion <==> h.magic == 0x4C43 && h.version != 1
    ensures Validate(h) == BodyTooLarge <==>
              h.magic == 0x4C43 && h.version == 1 && h.headerLen == 64 && h.bodyLen > 65535
    ensures Validate(h) in {OK, BadMagic, UnsupportedVersion, BodyTooLarge, BadHeader}
  {
    hide FlagsAreValid;
    FlagsListed(h.flags);
  }

  lemma ValidHeader(h: Header)
    requires Validate(h) == OK
    ensures h.headerLen == HEADER_LEN && h.bodyLen <= MAX_BODY_LEN
  {
  }

  method HeaderValidate(h: Header) returns (status: Status)
    ensures status == Validate(h)
  {
    if h.magic != MAGIC { return BadMagic; }
    if h.version != PROTOCOL_VERSION { return UnsupportedVersion; }
    if h.headerLen != HEADER_LEN { return BadHeader; }
    if h.bodyLen > MAX_BODY_LEN { return BodyTooLarge; }
    if !FlagsAreValid(h.flags) { return BadHeader; }
    for i := 0 to RESERVED_LEN
      invariant forall k :: 0 <= k < i ==> h.reserved[k] == 0
    {
      if h.reserved[i] != 0 { return BadHeader; }
    }
    return OK;
  }

  /** The wire form: every field big-endian at its fixed offset. */
  function Encode(h: Header): (s: seq<byte>)
    ensures |s| == HEADER_LEN
  {
    EncodePrelude(h) + EncodeRouting(h)
  }

  function EncodePrelude(h: Header): (s: seq<byte>)
    ensures |s| == 20
  {
    BE16(h.magic) + [h.version] + [h.headerLen] + BE16(h.group) + BE16(h.messageType) + BE16(h.flags)
    + BE16(h.status) + BE32(h.bodyLen) + BE32(h.sequence)
  }

  function EncodeRouting(h: Header): (s: seq<byte>)
    ensures |s| == 44
  {
    BE64(h.sessionId) + BE64(h.senderId) + BE64(h.receiverId) + BE64(h.timestampMs) + h.reserved
  }

  function Decode(s: seq<byte>): Header
    requires |s| >= HEADER_LEN
  {
    Header(FromBE16(s[0..2]), s[2], s[3], FromBE16(s[4..6]), FromBE16(s[6..8]), FromBE16(s[8..10]),
           FromBE16(s[10..12]), FromBE32(s[12..16]), FromBE32(s[16..20]), FromBE64(s[20..28]),
           FromBE64(s[28..36]), FromBE64(s[36..44]), FromBE64(s[44..52]), s[52..64])
  }

  /** Where each field sits in the wire form. */
  lemma EncodeLayout(h: Header, rest: seq<byte>)
    ensures var s := Encode(h) + rest;
      && s[0..2] == BE16(h.magic) && s[2] == h.version && s[3] == h.headerLen
      && s[4..6] == BE16(h.group) && s[6..8] == BE16(h.messageType) && s[8..10] == BE16(h.flags)
      && s[10..12] == BE16(h.status) && s[12..16] == BE32(h.bodyLen) && s[16..20] == BE32(h.sequence)
      && s[20..28] == BE64(h.sessionId) && s[28..36] == BE64(h.senderId)
      && s[36..44] == BE64(h.receiverId) && s[44..52] == BE64(h.timestampMs) && s[52..64] == h.reserved
  {
    hide EncodePrelude, EncodeRouting, BE16, BE32, BE64;
    PreludeLayout(h);
    RoutingLayout(h);
    var s := Encode(h) + rest;
    assert s[0..20] == EncodePrelude(h) && s[20..64] == EncodeRouting(h);
    assert s[2] == s[0..20][2] && s[3] == s[0..20][3];
  }

  lemma PreludeLayout(h: Header)
    ensures var s := EncodePrelude(h);
      && s[0..2] == BE16(h.magic) && s[2] == h.version && s[3] == h.headerLen
      && s[4..6] == BE16(h.group) && s[6..8] == BE16(h.messageType) && s[8..10] == BE16(h.flags)
      && s[10..12] == BE16(h.status) && s[12..16] == BE32(h.bodyLen) && s[16..20] == BE32(h.sequence)
  {
    hide BE16, BE32;
  }

  lemma RoutingLayout(h: Header)
    ensures var s := EncodeRouting(h);
      && s[0..8] == BE64(h.sessionId) && s[8..16] == BE64(h.senderId)
      && s[16..24] == BE64(h.receiverId) && s[24..32] == BE64(h.timestampMs) && s[32..44] == h.reserved
  {
    hide BE64;
  }

  lemma DecodeEncode(h: Header, rest: seq<byte>)
    ensures Decode(Encode(h) + rest) == h
  {
    EncodeLayout(h, rest);
    BE16Inverse(h.magic, [0, 0]);
    BE16Inverse(h.group, [0, 0]);
    BE16Inverse(h.messageType, [0, 0]);
    BE16Inverse(h.flags, [0, 0]);
    BE16Inverse(h.status, [0, 0]);
    BE32Inverse(h.bodyLen, [0, 0, 0, 0]);
    BE32Inverse(h.sequence, [0, 0, 0, 0]);
    var z := [0, 0, 0, 0, 0, 0, 0, 0];
    BE64Inverse(h.sessionId, z);
    BE64Inverse(h.senderId, z);
    BE64Inverse(h.receiverId, z);
    BE64Inverse(h.timestampMs, z);
  }

  lemma SplitHeader(s: seq<byte>)
    requires |s| >= HEADER_LEN
    ensures s[0..20] == s[0..2] + [s[2]] + [s[3]] + s[4..6] + s[6..8] + s[8..10] + s[10..12] + s[12..16] + s[16..20]
    ensures s[20..64] == s[20..28] + s[28..36] + s[36..44] + s[44..52] + s[52..64]
    ensures s[..64] == s[0..20] + s[20..64]
  {
  }

  lemma EncodeDecode(s: seq<byte>)
    requires |s| >= HEADER_LEN
    ensures Encode(Decode(s)) == s[..HEADER_LEN]
  {
    BE16Inverse(0, s[0..2]);
    BE16Inverse(0, s[4..6]);
    BE16Inverse(0, s[6..8]);
    BE16Inverse(0, s[8..10]);
    BE16Inverse(0, s[10..12]);
    BE32Inverse(0, s[12..16]);
    BE32Inverse(0, s[16..20]);
    BE64Inverse(0, s[20..28]);
    BE64Inverse(0, s[28..36]);
    BE64Inverse(0, s[36..44]);
    BE64Inverse(0, s[44..52]);
    SplitHeader(s);
  }

  /** A header whose fields have the wire forms found in `s` is the header decoded from `s`. */
  lemma FieldsDetermine(s: seq<byte>, h: Header)
    requires |s| >= HEADER_LEN
    requires BE16(h.magic) == s[0..2] && h.version == s[2] && h.headerLen == s[3]
    requires BE16(h.group) == s[4..6] && BE16(h.messageType) == s[6..8] && BE16(h.flags) == s[8..10]
    requires BE16(h.status) == s[10..12] && BE32(h.bodyLen) == s[12..16] && BE32(h.sequence) == s[16..20]
    requires BE64(h.sessionId) == s[20..28] && BE64(h.senderId) == s[28..36]
    requires BE64(h.receiverId) == s[36..44] && BE64(h.timestampMs) == s[44..52] && h.reserved == s[52..64]
    ensures Decode(s) == h && Encode(h) == s[..HEADER_LEN]
  {
    hide BE16, BE32, BE64;
    SplitHeader(s);
    DecodeEncode(h, s[HEADER_LEN..]);
    assert s == s[..HEADER_LEN] + s[HEADER_LEN..];
  }

  method HeaderEncode(h: Header, buffer: array<byte>) returns (status: Status)
    modifies buffer
    ensures status == if Validate(h) != OK then Validate(h)
                      else if buffer.Length < HEADER_LEN then BufferTooSmall else OK
    ensures buffer[..] == if status == OK then Encode(h) + old(buffer[HEADER_LEN..]) else old(buffer[..])
  {
    status := HeaderValidate(h);
    if status != OK { return; }
    if buffer.Length < HEADER_LEN { return BufferTooSmall; }
    StorePrelude(h, buffer);
    StoreRouting(h, buffer);
    assert buffer[..] == buffer[..HEADER_LEN] + buffer[HEADER_LEN..];
    return OK;
  }

  method StoreLead(h: Header, buffer: array<byte>)
    requires HEADER_LEN <= buffer.Length
    modifies buffer
    ensures buffer[..4] == BE16(h.magic) + [h.version] + [h.headerLen]
    ensures buffer[HEADER_LEN..] == old(buffer[HEADER_LEN..])
  {
    hide BE16;
    var status := EncodeField16(buffer, 0, h.magic, []);
    ghost var magic := buffer[..2];
    assert magic == [] + BE16(h.magic) == BE16(h.magic);
    buffer[2] := h.version;
    buffer[3] := h.headerLen;
    assert buffer[..4] == magic + [h.version] + [h.headerLen];
  }

  method StorePrelude(h: Header, buffer: array<byte>)
    requires HEADER_LEN <= buffer.Length
    modifies buffer
    ensures buffer[..20] == EncodePrelude(h) && buffer[HEADER_LEN..] == old(buffer[HEADER_LEN..])
  {
    StoreLead(h, buffer);
    ghost var done := BE16(h.magic) + [h.version] + [h.headerLen];
    var status := EncodeField16(buffer, 4, h.group, done);
    done := done + BE16(h.group);
    status := EncodeField16(buffer, 6, h.messageType, done);
    done := done + BE16(h.messageType);
    status := EncodeField16(buffer, 8, h.flags, done);
    done := done + BE16(h.flags);
    status := EncodeField16(buffer, 10, h.status, done);
    done := done + BE16(h.status);
    status := EncodeField32(buffer, 12, h.bodyLen, done);
    done := done + BE32(h.bodyLen);
    status := EncodeField32(buffer, 16, h.sequence, done);
    done := done + BE32(h.sequence);
    assert done == EncodePrelude(h);
  }

  method StoreRouting(h: Header, buffer: array<byte>)
    requires HEADER_LEN <= buffer.Length && buffer[..20] == EncodePrelude(h)
    modifies buffer
    ensures buffer[..HEADER_LEN] == Encode(h) && buffer[HEADER_LEN..] == old(buffer[HEADER_LEN..])
  {
    ghost var done := EncodePrelude(h);
    var status := EncodeField64(buffer, 20, h.sessionId, done);
    done := done + BE64(h.sessionId);
    status := EncodeField64(buffer, 28, h.senderId, done);
    done := done + BE64(h.senderId);
    status := EncodeField64(buffer, 36, h.receiverId, done);
    done := done + BE64(h.receiverId);
    status := EncodeField64(buffer, 44, h.timestampMs, done);
    done := done + BE64(h.timestampMs);
    ghost var tail := buffer[HEADER_LEN..];
    forall k | 0 <= k < RESERVED_LEN {
      buffer[52 + k] := h.reserved[k];
    }
    assert buffer[..52] == done && buffer[52..64] == h.reserved && buffer[HEADER_LEN..] == tail;
    assert buffer[..64] == buffer[..52] + buffer[52..64];
    assert Encode(h) == done + h.reserved;
  }

  method EncodeField16(buffer: array<byte>, at: nat, value: u16, ghost done: seq<byte>) returns (status: Status)
    requires at + 2 <= HEADER_LEN <= buffer.Length && buffer[..at] == done
    modifies buffer
    ensures status == OK && buffer[..at + 2] == done + BE16(value)
    ensures buffer[HEADER_LEN..] == old(buffer[HEADER_LEN..])
  {
    SpliceEnds(buffer[..], at, BE16(value));
    status := WriteU16(buffer, at, value);
  }

  method EncodeField32(buffer: array<byte>, at: nat, value: u32, ghost done: seq<byte>) returns (status: Status)
    requires at + 4 <= HEADER_LEN <= buffer.Length && buffer[..at] == done
    modifies buffer
    ensures status == OK && buffer[..at + 4] == done + BE32(value)
    ensures buffer[HEADER_LEN..] == old(buffer[HEADER_LEN..])
  {
    SpliceEnds(buffer[..], at, BE32(value));
    status := WriteU32(buffer, at, value);
  }

  method EncodeField64(buffer: array<byte>, at: nat, value: u64, ghost done: seq<byte>) returns (status: Status)
    requires at + 8 <= HEADER_LEN <= buffer.Length && buffer[..at] == done
    modifies buffer
    ensures status == OK && buffer[..at + 8] == done + BE64(value)
    ensures buffer[HEADER_LEN..] == old(buffer[HEADER_LEN..])
  {
    SpliceEnds(buffer[..], at, BE64(value));
    status := WriteU64(buffer, at, value);
  }

  /** On acceptance the decoded fields are exactly those whose wire form was read. */
  method HeaderDecode(buffer: seq<byte>) returns (status: Status, h: Header)
    ensures status == if |buffer| < HEADER_LEN then NeedMoreData else Validate(Decode(buffer))
    ensures |buffer| >= HEADER_LEN ==> h == Decode(buffer) && Encode(h) == buffer[..HEADER_LEN]
  {
    hide BE16, BE32, BE64, Encode, Decode, Validate;
    h := Header(0, 0, 0, 0, 0, 0, 0, 0, 0, 0, 0, 0, 0, seq(RESERVED_LEN, _ => 0));
    if |buffer| < HEADER_LEN {
      return NeedMoreData, h;
    }
    var magic, group, messageType, flags, headerStatus;
    var bodyLen, sequence;
    var sessionId, senderId, receiverId, timestampMs;
    status, magic := ReadU16(buffer, 0);
    status, group := ReadU16(buffer, 4);
    status, messageType := ReadU16(buffer, 6);
    status, flags := ReadU16(buffer, 8);
    status, headerStatus := ReadU16(buffer, 10);
    status, bodyLen := ReadU32(buffer, 12);
    status, sequence := ReadU32(buffer, 16);
    status, sessionId := ReadU64(buffer, 20);
    status, senderId := ReadU64(buffer, 28);
    status, receiverId := ReadU64(buffer, 36);
    status, timestampMs := ReadU64(buffer, 44);
    h := Header(magic, buffer[2], buffer[3], group, messageType, flags, headerStatus, bodyLen, sequence,
                sessionId, senderId, receiverId, timestampMs, buffer[52..64]);
    FieldsDetermine(buffer, h);
    status := HeaderValidate(h);
  }

  // ----- packets -----

  predicate IsPacket(p: seq<byte>)
  {
    && |p| >= HEADER_LEN
    && Validate(Decode(p)) == OK
    && |p| == HEADER_LEN + Decode(p).bodyLen
  }

  function PackStatus(h: Header, bodyLen: nat, capacity: nat): Status
  {
    if h.bodyLen != bodyLen then BadHeader
    else if Validate(h) != OK then Validate(h)
    else if capacity < HEADER_LEN + bodyLen then BufferTooSmall
    else OK
  }

  /** A packet can be packed if and only if its header is well-formed and announces its body, and there is
      room for both; each way of failing has its own status. */
  lemma PackIff(h: Header, body: seq<byte>, capacity: nat)
    ensures var status := PackStatus(h, |body|, capacity);
      && (status == OK <==> h.bodyLen == |body| && WellFormed(h) && 64 + |body| <= capacity)
      && (status == BufferTooSmall <==> h.bodyLen == |body| && WellFormed(h) && capacity < 64 + |body|)
      && (status == BadMagic <==> h.bodyLen == |body| && h.magic != 0x4C43)
      && (status == UnsupportedVersion <==> h.bodyLen == |body| && h.magic == 0x4C43 && h.version != 1)
      && (status == BodyTooLarge <==>
            h.bodyLen == |body| > 65535 && h.magic == 0x4C43 && h.version == 1 && h.headerLen == 64)
      && status in {OK, BufferTooSmall, BadMagic, UnsupportedVersion, BodyTooLarge, BadHeader}
  {
    hide Validate;
    ValidateIff(h);
  }

  lemma AfterHeader(header: seq<byte>, rest: seq<byte>, body: seq<byte>)
    requires |body| <= |rest|
    ensures Splice(header + rest, |header|, body) == header + body + rest[|body|..]
  {
  }

  method PacketPack(h: Header, body: seq<byte>, buffer: array<byte>) returns (status: Status, packetLen: nat)
    modifies buffer
    ensures status == PackStatus(h, |body|, buffer.Length)
    ensures status == OK <==> h.bodyLen == |body| && WellFormed(h) && 64 + |body| <= buffer.Length
    ensures packetLen == if status == OK then HEADER_LEN + |body| else 0
    ensures buffer[..] == if status == OK then Encode(h) + body + old(buffer[HEADER_LEN + |body|..])
        else old(buffer[..])
  {
    packetLen := 0;
    PackIff(h, body, buffer.Length);
    if h.bodyLen != |body| {
      return BadHeader, 0;
    }
    status := HeaderValidate(h);
    if status != OK {
      return;
    }
    if buffer.Length < HEADER_LEN + |body| {
      return BufferTooSmall, 0;
    }
    ghost var before := buffer[..];
    status := HeaderEncode(h, buffer);
    assert buffer[..] == Encode(h) + before[64..];
    CopyInto(buffer, HEADER_LEN, body);
    AfterHeader(Encode(h), before[64..], body);
    packetLen := HEADER_LEN + |body|;
  }

  /** Whether the queue's first bytes are too few, malformed, or a whole packet. */
  datatype Frame = Waiting | Malformed(status: Status) | Ready(len: nat)

  function FrameOf(s: seq<byte>): (f: Frame)
    ensures f.Ready? ==> HEADER_LEN <= f.len <= |s|
    ensures f.Malformed? ==> f.status != OK && f.status != NeedMoreData
  {
    if |s| < HEADER_LEN then Waiting
    else if Validate(Decode(s)) != OK then Malformed(Validate(Decode(s)))
    else if |s| < HEADER_LEN + Decode(s).bodyLen then Waiting
    else Ready(HEADER_LEN + Decode(s).bodyLen)
  }

  method PacketPeekSize(buffer: seq<byte>) returns (status: Status, packetLen: nat)
    ensures status == if |buffer| < HEADER_LEN then NeedMoreData else Validate(Decode(buffer))
    ensures packetLen == if status == OK then HEADER_LEN + Decode(buffer).bodyLen else 0
  {
    hide Decode;
    packetLen := 0;
    var h;
    status, h := HeaderDecode(buffer);
    if status != OK {
      return;
    }
    packetLen := h.headerLen + h.bodyLen;
  }

  method PacketUnpack(buffer: seq<byte>) returns (status: Status, h: Header, body: seq<byte>)
    ensures status == match FrameOf(buffer) case Waiting => NeedMoreData case Malformed(e) => e case Ready(_) => OK
    ensures status == OK ==> buffer[..FrameOf(buffer).len] == Encode(h) + body
    ensures status == OK ==> Validate(h) == OK && |body| == h.bodyLen
  {
    h, body := Header(0, 0, 0, 0, 0, 0, 0, 0, 0, 0, 0, 0, 0, seq(RESERVED_LEN, _ => 0)), [];
    var packetLen;
    status, packetLen := PacketPeekSize(buffer);
    if status != OK {
      return;
    }
    if |buffer| < packetLen {
      return NeedMoreData, h, body;
    }
    status, h := HeaderDecode(buffer);
    body := buffer[HEADER_LEN..HEADER_LEN + h.bodyLen];
    assert buffer[..packetLen] == buffer[..64] + body;
  }

  /** What is packed is framed at its own length whatever follows it, and unpacking gives it back. */
  lemma PackFrames(h: Header, body: seq<byte>, rest: seq<byte>)
    requires Validate(h) == OK && h.bodyLen == |body|
    ensures IsPacket(Encode(h) + body)
    ensures FrameOf(Encode(h) + body + rest) == Ready(HEADER_LEN + |body|)
    ensures Decode(Encode(h) + body + rest) == h
    ensures (Encode(h) + body + rest)[HEADER_LEN..HEADER_LEN + |body|] == body
  {
    DecodeEncode(h, body);
    DecodeEncode(h, body + rest);
    assert Encode(h) + body + rest == Encode(h) + (body + rest);
  }

  /** A string starts with a whole packet exactly when it starts with a well-formed header and the body that
      the header announces. */
  lemma FramesExactly(s: seq<byte>)
    ensures FrameOf(s).Ready? <==> exists h: Header, body: seq<byte> ::
              WellFormed(h) && h.bodyLen == |body| && Encode(h) + body <= s
  {
    hide Validate, Encode, Decode, WellFormed;
    if FrameOf(s).Ready? {
      var h := Decode(s);
      ValidateIff(h);
      EncodeDecode(s);
      assert Encode(h) + s[64..64 + h.bodyLen] <= s;
    }
    forall h: Header, body: seq<byte> | WellFormed(h) && h.bodyLen == |body| && Encode(h) + body <= s
      ensures FrameOf(s).Ready?
    {
      ValidateIff(h);
      PackFrames(h, body, s[|Encode(h) + body|..]);
      assert s == Encode(h) + body + s[|Encode(h) + body|..];
    }
  }

  /** Unpacking is injective: the header and the body are determined by the bytes. */
  lemma UnpackUnique(h: Header, body: seq<byte>, h': Header, body': seq<byte>, rest: seq<byte>, rest': seq<byte>)
    requires Validate(h) == OK && h.bodyLen == |body| && Validate(h') == OK && h'.bodyLen == |body'|
    requires Encode(h) + body + rest == Encode(h') + body' + rest'
    ensures h == h' && body == body' && rest == rest'
  {
    PackFrames(h, body, rest);
    PackFrames(h', body', rest');
    var s := Encode(h) + body + rest;
    assert rest == s[HEADER_LEN + |body|..] && rest' == s[HEADER_LEN + |body'|..];
  }

  /** Two strings with the same first 64 bytes carry the same header. */
  lemma DecodePrefix(s: seq<byte>, t: seq<byte>)
    requires |s| >= HEADER_LEN && s <= t
    ensures Decode(s) == Decode(t)
  {
    assert t[..HEADER_LEN] == s[..HEADER_LEN];
    assert forall a, b :: 0 <= a <= b <= HEADER_LEN ==> s[a..b] == t[a..b];
  }
}
