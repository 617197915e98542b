/** Packet bodies: a list of type-length-value fields, its writer and its reader. */
module Tlv {
  import opened Wire
  import opened Endian

  const REQUIRED_MASK := 0x8000
  const FIELD_MASK := 0x7FFF
  const TLV_HEADER_LEN := 4
  const MAX_TRACKED_FIELDS := 128

  datatype Field = Field(id: u16, required: bool, value: seq<byte>)

  predicate Encodable(f: Field)
  {
    1 <= f.id <= FIELD_MASK && |f.value| <= 0xFFFF
  }

  function RawType(id: u16, required: bool): u16
  {
    id % REQUIRED_MASK + (if required then REQUIRED_MASK else 0)
  }

  function FieldBytes(f: Field): seq<byte>
    requires Encodable(f)
  {
    BE16(RawType(f.id, f.required)) + BE16(|f.value|) + f.value
  }

  ghost predicate AllEncodable(fields: seq<Field>)
  {
    forall i :: 0 <= i < |fields| ==> Encodable(fields[i])
  }

  function FieldLen(f: Field): nat { TLV_HEADER_LEN + |f.value| }

  /** The body that consists of the given fields. */
  function Body(fields: seq<Field>): seq<byte>
    requires AllEncodable(fields)
  {
    if fields == [] then [] else FieldBytes(fields[0]) + Body(fields[1..])
  }

  lemma {:induction false} BodySnoc(fields: seq<Field>, f: Field)
    requires AllEncodable(fields) && Encodable(f)
    ensures Body(fields + [f]) == Body(fields) + FieldBytes(f)
  {
    if fields == [] {
      assert Body([f]) == FieldBytes(f) + Body([]);
    } else {
      BodySnoc(fields[1..], f);
      assert (fields + [f])[1..] == fields[1..] + [f];
    }
  }

  // ----- reading, on values -----

  datatype Step = Stop(status: Status) | Take(field: Field)

  /** The field that the unread bytes start with. */
  function First(rest: seq<byte>): (step: Step)
    ensures step.Take? ==> Encodable(step.field) && FieldLen(step.field) <= |rest|
    ensures step.Stop? ==> step.status != OK
  {
    if |rest| == 0 then Stop(NeedMoreData)
    else if |rest| < TLV_HEADER_LEN then Stop(BadHeader)
    else
      var raw, len := FromBE16(rest[0..2]), FromBE16(rest[2..4]);
      var id := raw % REQUIRED_MASK;
      if id == 0 then Stop(BadHeader)
      else if len > |rest| - TLV_HEADER_LEN then Stop(BadHeader)
      else Take(Field(id, raw / REQUIRED_MASK != 0, rest[TLV_HEADER_LEN..TLV_HEADER_LEN + len]))
  }

  /** What the reader makes of the unread bytes when the ids in `seen` have occurred. */
  function Next(rest: seq<byte>, seen: seq<u16>): (step: Step)
    ensures step.Take? ==> Encodable(step.field) && FieldLen(step.field) <= |rest|
    ensures step.Stop? ==> step.status != OK
  {
    var step := First(rest);
    if step.Stop? then step
    else if step.field.id in seen then Stop(DuplicateField)
    else if |seen| >= MAX_TRACKED_FIELDS then Stop(BufferTooSmall)
    else step
  }

  datatype Reading = Reading(fields: seq<Field>, status: Status, rest: seq<byte>)

  /** Reading until the reader stops. */
  function ReadFrom(rest: seq<byte>, seen: seq<u16>): Reading
    decreases |rest|
  {
    match Next(rest, seen)
    case Stop(status) => Reading([], status, rest)
    case Take(f) =>
      var r := ReadFrom(rest[FieldLen(f)..], seen + [f.id]);
      Reading([f] + r.fields, r.status, r.rest)
  }

  /** How many leading fields have new ids and fit the reader's table. */
  function Fresh(fields: seq<Field>, seen: seq<u16>): (k: nat)
    ensures k <= |fields|
    decreases |fields|
  {
    if fields == [] || fields[0].id in seen || |seen| >= MAX_TRACKED_FIELDS then 0
    else 1 + Fresh(fields[1..], seen + [fields[0].id])
  }

  // ----- the bytes of a field -----

  /** Four header bytes, the high bit of the first meaning that the field is required, and the value. */
  lemma FieldLayout(f: Field)
    requires Encodable(f)
    ensures var high: byte := f.id / 256 + (if f.required then 128 else 0);
      FieldBytes(f) == [high, f.id % 256, |f.value| / 256, |f.value| % 256] + f.value
  {
    var raw := f.id + (if f.required then 128 * 256 else 0);
    assert RawType(f.id, f.required) == raw && raw / 256 == f.id / 256 + (if f.required then 128 else 0);
  }

  function Pair(high: int, low: int): int { 256 * high + low }

  /** What the reader sees at the start of the unread bytes, byte by byte. */
  lemma FirstIff(rest: seq<byte>)
    ensures First(rest) == Stop(NeedMoreData) <==> rest == []
    ensures First(rest) == Stop(BadHeader) <==>
      rest != [] && (|rest| < 4 || Pair(rest[0] % 128, rest[1]) == 0 || Pair(rest[2], rest[3]) > |rest| - 4)
    ensures First(rest).Take? <==>
      |rest| >= 4 && Pair(rest[0] % 128, rest[1]) != 0 && Pair(rest[2], rest[3]) <= |rest| - 4
    ensures First(rest).Take? ==>
      First(rest).field == Field(Pair(rest[0] % 128, rest[1]), rest[0] >= 128, rest[4..4 + Pair(rest[2], rest[3])])
  {
    if |rest| >= 4 {
      var raw: int, high: int, low: int := FromBE16(rest[0..2]), rest[0], rest[1];
      assert raw == 256 * high + low && raw % 32768 == 256 * (high % 128) + low;
    }
  }

  // ----- the codec laws -----

  lemma NextOfField(f: Field, rest: seq<byte>, seen: seq<u16>)
    requires Encodable(f)
    ensures Next(FieldBytes(f) + rest, seen)
         == if f.id in seen then Stop(DuplicateField)
            else if |seen| >= MAX_TRACKED_FIELDS then Stop(BufferTooSmall) else Take(f)
    ensures (FieldBytes(f) + rest)[FieldLen(f)..] == rest
  {
    var raw := RawType(f.id, f.required);
    var s := FieldBytes(f) + rest;
    assert s[0..2] == BE16(raw) && s[2..4] == BE16(|f.value|);
    assert s[TLV_HEADER_LEN..FieldLen(f)] == f.value;
    BE16Inverse(raw, [0, 0]);
    BE16Inverse(|f.value|, [0, 0]);
  }

  /** Writing then reading, for every list of fields: the reader returns the leading fields with fresh
      ids, and stops at the end of the body, at the first repeated id, or when its table is full. */
  lemma {:induction false} ReadOfWritten(fields: seq<Field>, seen: seq<u16>)
    requires AllEncodable(fields)
    ensures var k := Fresh(fields, seen);
      && ReadFrom(Body(fields), seen).fields == fields[..k]
      && ReadFrom(Body(fields), seen).rest == Body(fields[k..])
      && ReadFrom(Body(fields), seen).status ==
         if k == |fields| then NeedMoreData
         else if fields[k].id in seen + Ids(fields[..k]) then DuplicateField else BufferTooSmall
    decreases |fields|
  {
    hide Next, FieldBytes;
    var k := Fresh(fields, seen);
    if fields == [] {
      NextOfNothing(seen);
    } else {
      var f, tail := fields[0], fields[1..];
      NextOfField(f, Body(tail), seen);
      if k > 0 {
        ReadOfWritten(tail, seen + [f.id]);
        assert fields[..k] == [f] + tail[..k - 1];
        assert fields[k..] == tail[k - 1..];
        Reassociate(seen, [f.id], Ids(tail[..k - 1]));
      } else {
        assert fields[..0] == [] && fields[0..] == fields && seen + [] == seen;
      }
    }
  }

  lemma NextOfNothing(seen: seq<u16>)
    ensures Next([], seen) == Stop(NeedMoreData)
  {
  }

  function Ids(fields: seq<Field>): (ids: seq<u16>)
    ensures |ids| == |fields|
  {
    if fields == [] then [] else [fields[0].id] + Ids(fields[1..])
  }

  /** What the reader accepted in full is, re-written, the body it read, byte for byte. */
  lemma {:induction false} WrittenOfRead(body: seq<byte>, seen: seq<u16>)
    ensures var r := ReadFrom(body, seen);
      && AllEncodable(r.fields)
      && Body(r.fields) + r.rest == body
      && Fresh(r.fields, seen) == |r.fields|
      && (r.status == NeedMoreData <==> r.rest == [])
      && r.status != OK
    decreases |body|
  {
    hide Next, FieldBytes;
    match Next(body, seen)
    case Stop(status) =>
      StopMeans(body, seen);
      assert Body([]) + body == body;
    case Take(f) =>
      var used := FieldLen(f);
      FieldOfNext(body, seen);
      WrittenOfRead(body[used..], seen + [f.id]);
      var r, tail := ReadFrom(body, seen), ReadFrom(body[used..], seen + [f.id]);
      assert r.fields[1..] == tail.fields;
      assert body == FieldBytes(f) + body[used..];
  }

  lemma StopMeans(body: seq<byte>, seen: seq<u16>)
    requires Next(body, seen).Stop?
    ensures Next(body, seen).status == NeedMoreData <==> body == []
  {
  }

  lemma RawOfParts(raw: u16)
    ensures RawType(raw % REQUIRED_MASK, raw / REQUIRED_MASK != 0) == raw
  {
  }

  lemma FieldOfNext(body: seq<byte>, seen: seq<u16>)
    requires Next(body, seen).Take?
    ensures var f := Next(body, seen).field;
      FieldBytes(f) == body[..FieldLen(f)] && f.id !in seen && |seen| < MAX_TRACKED_FIELDS
  {
    hide BE16, FromBE16, RawType;
    BE16Inverse(0, body[0..2]);
    BE16Inverse(0, body[2..4]);
    var f := Next(body, seen).field;
    RawOfParts(FromBE16(body[0..2]));
    var n := FieldLen(f);
    assert body[..n] == body[0..2] + body[2..4] + body[4..n];
  }

  /** The language of the reader: the bodies it reads to the end are exactly those written from at most
      128 fields with distinct ids. */
  lemma ReadsExactlyWritten(body: seq<byte>)
    ensures ReadFrom(body, []).status == NeedMoreData
       <==> exists fields: seq<Field> :: AllEncodable(fields) && Fresh(fields, []) == |fields| && Body(fields) == body
  {
    WrittenOfRead(body, []);
    var r := ReadFrom(body, []);
    if r.status == NeedMoreData {
      assert Body(r.fields) + [] == Body(r.fields);
    }
    forall fields: seq<Field> | AllEncodable(fields) && Fresh(fields, []) == |fields| && Body(fields) == body
      ensures r.status == NeedMoreData
    {
      ReadOfWritten(fields, []);
    }
  }

  /** `Fresh` in plain terms. */
  predicate DistinctIds(fields: seq<Field>)
  {
    forall i, j :: 0 <= i < j < |fields| ==> fields[i].id != fields[j].id
  }

  lemma {:induction false} FreshMeans(fields: seq<Field>, seen: seq<u16>)
    requires |seen| <= MAX_TRACKED_FIELDS
    ensures Fresh(fields, seen) == |fields| <==>
      && |seen| + |fields| <= 128
      && (forall f :: f in fields ==> f.id !in seen)
      && DistinctIds(fields)
    decreases |fields|
  {
    hide DistinctIds;
    if fields == [] {
      DistinctNone();
    } else if fields[0].id !in seen && |seen| < MAX_TRACKED_FIELDS {
      var f, tail := fields[0], fields[1..];
      FreshMeans(tail, seen + [f.id]);
      assert fields == [f] + tail;
      DistinctCons(f, tail);
    }
  }

  lemma DistinctNone()
    ensures DistinctIds([])
  {
  }

  lemma DistinctCons(f: Field, tail: seq<Field>)
    ensures DistinctIds([f] + tail) <==> DistinctIds(tail) && forall g :: g in tail ==> g.id != f.id
  {
    var fields := [f] + tail;
    if DistinctIds(tail) && forall g :: g in tail ==> g.id != f.id {
      forall i, j | 0 <= i < j < |fields| ensures fields[i].id != fields[j].id {
        assert fields[j] == tail[j - 1];
      }
    }
    if DistinctIds(fields) {
      forall i, j | 0 <= i < j < |tail| ensures tail[i].id != tail[j].id {
        assert tail[i] == fields[i + 1] && tail[j] == fields[j + 1];
      }
      forall g | g in tail ensures g.id != f.id {
        var j :| 0 <= j < |tail| && tail[j] == g;
        assert fields[0] == f && fields[j + 1] == g;
      }
    }
  }

  // ----- the writer and the reader -----

  class TlvWriter {
    const buffer: array<byte>
    var offset: nat
    /** The fields written so far. */
    ghost var fields: seq<Field>

    constructor (buffer: array<byte>)
      ensures Valid() && this.buffer == buffer && offset == 0 && fields == []
    {
      this.buffer := buffer;
      offset, fields := 0, [];
    }

    ghost predicate Valid()
      reads this, buffer
    {
      offset <= buffer.Length && AllEncodable(fields) && buffer[..offset] == Body(fields)
    }

    method WriteBytes(id: u16, required: bool, value: seq<byte>) returns (status: Status)
      requires Valid()
      modifies this, buffer
      ensures Valid()
      ensures status == if id == 0 || id > 0x7FFF then InvalidArgument
                        else if |value| > 0xFFFF then BodyTooLarge
                        else if 4 + |value| > buffer.Length - old(offset) then BufferTooSmall
                        else OK
      ensures status == OK ==> fields == old(fields) + [Field(id, required, value)]
      ensures status == OK ==> offset == old(offset) + TLV_HEADER_LEN + |value|
      ensures status != OK ==> fields == old(fields) && offset == old(offset) && buffer[..] == old(buffer[..])
    {
      hide Body, AllEncodable, Splice, BE16, RawType;
      if id == 0 || id > FIELD_MASK {
        return InvalidArgument;
      }
      if |value| > 0xFFFF {
        return BodyTooLarge;
      }
      if TLV_HEADER_LEN > buffer.Length - offset || |value| > buffer.Length - offset - TLV_HEADER_LEN {
        return BufferTooSmall;
      }
      ghost var f := Field(id, required, value);
      ghost var b0 := buffer[..];
      status := WriteU16(buffer, offset, RawType(id, required));
      ghost var b1 := buffer[..];
      status := WriteU16(buffer, offset + 2, |value|);
      ghost var b2 := buffer[..];
      CopyInto(buffer, offset + TLV_HEADER_LEN, value);
      SpliceEnds(b0, offset, BE16(RawType(id, required)));
      SpliceEnds(b1, offset + 2, BE16(|value|));
      FieldFromParts(b0[..offset], f, buffer[..offset + FieldLen(f)]);
      Extend(fields, f);
      offset := offset + TLV_HEADER_LEN + |value|;
      fields := fields + [f];
      return OK;
    }
  }

  lemma FieldFromParts(before: seq<byte>, f: Field, after: seq<byte>)
    requires Encodable(f) && after == before + BE16(RawType(f.id, f.required)) + BE16(|f.value|) + f.value
    ensures after == before + FieldBytes(f)
  {
    hide BE16, RawType;
  }

  lemma Extend(fields: seq<Field>, f: Field)
    requires AllEncodable(fields) && Encodable(f)
    ensures AllEncodable(fields + [f]) && Body(fields + [f]) == Body(fields) + FieldBytes(f)
  {
    BodySnoc(fields, f);
  }

  class TlvReader {
    const buffer: seq<byte>
    var offset: nat
    const seenFields: array<u16>
    var seenCount: nat

    constructor (buffer: seq<byte>)
      ensures Valid() && fresh(seenFields) && this.buffer == buffer && Rest() == buffer && Seen() == []
    {
      this.buffer := buffer;
      seenFields := new u16[MAX_TRACKED_FIELDS];
      offset, seenCount := 0, 0;
    }

    ghost predicate Valid()
      reads this
    {
      offset <= |buffer| && seenFields.Length == MAX_TRACKED_FIELDS && seenCount <= MAX_TRACKED_FIELDS
    }

    ghost function Rest(): seq<byte>
      requires Valid()
      reads this
    {
      buffer[offset..]
    }

    ghost function Seen(): seq<u16>
      requires Valid()
      reads this, seenFields
    {
      seenFields[..seenCount]
    }

    method FieldIdIsSeen(id: u16) returns (seen: bool)
      requires Valid()
      ensures seen <==> id in Seen()
    {
      for i := 0 to seenCount
        invariant id !in seenFields[..i]
      {
        if seenFields[i] == id {
          return true;
        }
      }
      return false;
    }

    method RememberField(id: u16) returns (status: Status)
      requires Valid()
      modifies this`seenCount, seenFields
      ensures Valid()
      ensures status == if id in old(Seen()) then DuplicateField
                        else if |old(Seen())| >= MAX_TRACKED_FIELDS then BufferTooSmall else OK
      ensures Seen() == if status == OK then old(Seen()) + [id] else old(Seen())
    {
      var seen := FieldIdIsSeen(id);
      if seen {
        return DuplicateField;
      }
      if seenCount >= MAX_TRACKED_FIELDS {
        return BufferTooSmall;
      }
      seenFields[seenCount] := id;
      seenCount := seenCount + 1;
      return OK;
    }

    method FirstField() returns (status: Status, field: Field)
      requires Valid()
      ensures match First(Rest())
              case Stop(e) => status == e
              case Take(f) => status == OK && field == f
    {
      hide BE16, FromBE16;
      field := Field(0, false, []);
      if offset == |buffer| {
        return NeedMoreData, field;
      }
      if TLV_HEADER_LEN > |buffer| - offset {
        return BadHeader, field;
      }
      var rawType, valueLen;
      status, rawType := ReadU16(buffer, offset);
      status, valueLen := ReadU16(buffer, offset + 2);
      HeaderAt(buffer, offset, rawType, valueLen);
      var id := rawType % REQUIRED_MASK;
      if id == 0 {
        return BadHeader, field;
      }
      if valueLen > |buffer| - offset - TLV_HEADER_LEN {
        return BadHeader, field;
      }
      var at := offset + TLV_HEADER_LEN;
      field := Field(id, rawType / REQUIRED_MASK != 0, buffer[at..at + valueLen]);
    }

    /** An error leaves the reader where it was. */
    method NextField() returns (status: Status, field: Field)
      requires Valid()
      modifies this, seenFields
      ensures Valid()
      ensures match Next(old(Rest()), old(Seen()))
              case Stop(e) => status == e && offset == old(offset) && Seen() == old(Seen())
              case Take(f) =>
                && status == OK && field == f
                && Rest() == old(Rest())[FieldLen(f)..] && Seen() == old(Seen()) + [f.id]
    {
      hide First;
      status, field := FirstField();
      if status != OK {
        return;
      }
      status := RememberField(field.id);
      if status != OK {
        return;
      }
      offset := offset + TLV_HEADER_LEN + |field.value|;
    }
  }

  lemma HeaderAt(buffer: seq<byte>, offset: nat, rawType: u16, valueLen: u16)
    requires offset + TLV_HEADER_LEN <= |buffer|
    requires BE16(rawType) == buffer[offset..offset + 2] && BE16(valueLen) == buffer[offset + 2..offset + 4]
    ensures FromBE16(buffer[offset..][0..2]) == rawType && FromBE16(buffer[offset..][2..4]) == valueLen
    ensures var at := offset + TLV_HEADER_LEN;
      at + valueLen <= |buffer| ==>
        && buffer[at..at + valueLen] == buffer[offset..][TLV_HEADER_LEN..TLV_HEADER_LEN + valueLen]
        && buffer[at + valueLen..] == buffer[offset..][TLV_HEADER_LEN + valueLen..]
  {
    var rest := buffer[offset..];
    assert rest[0..2] == buffer[offset..offset + 2] && rest[2..4] == buffer[offset + 2..offset + 4];
    BE16Inverse(rawType, rest[0..2]);
    BE16Inverse(valueLen, rest[2..4]);
  }

  lemma ReadTake(rest: seq<byte>, seen: seq<u16>)
    requires Next(rest, seen).Take?
    ensures var f := Next(rest, seen).field;
      var r, tail := ReadFrom(rest, seen), ReadFrom(rest[FieldLen(f)..], seen + [f.id]);
      r.fields == [f] + tail.fields && r.status == tail.status
  {
    hide Next;
  }

  lemma ReadStop(rest: seq<byte>, seen: seq<u16>)
    requires Next(rest, seen).Stop?
    ensures ReadFrom(rest, seen) == Reading([], Next(rest, seen).status, rest)
  {
    hide Next;
  }

  /** The loop at the head of every request parser; it terminates on every body. */
  method ReadFields(body: seq<byte>) returns (fields: seq<Field>, status: Status)
    ensures fields == ReadFrom(body, []).fields && status == ReadFrom(body, []).status
  {
    hide Next, ReadFrom, FieldLen, Encodable;
    var reader := new TlvReader(body);
    fields := [];
    ghost var rest, seen: seq<u16> := body, [];
    ghost var left := ReadFrom(body, []);
    ghost var all := left;
    MoveNone(left.fields);
    while true
      invariant reader.Valid() && rest == reader.Rest() && seen == reader.Seen()
      invariant fresh(reader) && fresh(reader.seenFields)
      invariant left == ReadFrom(rest, seen)
      invariant all.fields == fields + left.fields && all.status == left.status
      decreases |rest|
    {
      var field;
      status, field := reader.NextField();
      if status != OK {
        ReadStop(rest, seen);
        AppendNothing(fields);
        return;
      }
      ReadTake(rest, seen);
      ghost var tail := ReadFrom(reader.Rest(), reader.Seen());
      MoveOne(fields, field, tail.fields);
      TakeShortens(rest, seen);
      fields := fields + [field];
      left, rest, seen := tail, reader.Rest(), reader.Seen();
    }
  }

  lemma MoveOne(done: seq<Field>, f: Field, tail: seq<Field>)
    ensures done + ([f] + tail) == done + [f] + tail
  {
  }

  lemma MoveNone(s: seq<Field>)
    ensures [] + s == s
  {
  }

  lemma AppendNothing(s: seq<Field>)
    ensures s + [] == s
  {
  }

  lemma TakeShortens(rest: seq<byte>, seen: seq<u16>)
    requires Next(rest, seen).Take?
    ensures |rest[FieldLen(Next(rest, seen).field)..]| < |rest|
  {
    hide Next;
  }
}
