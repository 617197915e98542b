/** Cutting a byte stream into packets: the stream parser, and the framer that does the same
    incrementally over a circular buffer. */
module Framers {
  import opened Wire
  import opened Protocol
  import opened RingBuffers

  datatype Parsed = Parsed(packets: seq<seq<byte>>, rest: seq<byte>)

  /** The reference: cut whole packets off the front until too few bytes, or malformed ones, remain. */
  function Parse(s: seq<byte>): Parsed
    decreases |s|
  {
    match FrameOf(s)
    case Ready(len) =>
      var tail := Parse(s[len..]);
      Parsed([s[..len]] + tail.packets, tail.rest)
    case _ => Parsed([], s)
  }

  ghost predicate AllPackets(packets: seq<seq<byte>>)
  {
    forall i :: 0 <= i < |packets| ==> IsPacket(packets[i])
  }

  /** The first packet of a string is decided by its own bytes alone. */
  lemma FrameOfPacket(p: seq<byte>, rest: seq<byte>)
    requires IsPacket(p)
    ensures FrameOf(p + rest) == Ready(|p|) && (p + rest)[..|p|] == p && (p + rest)[|p|..] == rest
  {
    DecodePrefix(p, p + rest);
  }

  lemma ReadyIsPacket(s: seq<byte>)
    requires FrameOf(s).Ready?
    ensures IsPacket(s[..FrameOf(s).len])
  {
    DecodePrefix(s[..FrameOf(s).len], s);
  }

  lemma ParsePacket(p: seq<byte>, rest: seq<byte>)
    requires IsPacket(p)
    ensures Parse(p + rest) == Parsed([p] + Parse(rest).packets, Parse(rest).rest)
  {
    hide FrameOf, IsPacket;
    FrameOfPacket(p, rest);
  }

  lemma {:induction false} ParseFlatten(packets: seq<seq<byte>>, rest: seq<byte>)
    requires AllPackets(packets)
    ensures Parse(Flatten(packets) + rest) == Parsed(packets + Parse(rest).packets, Parse(rest).rest)
  {
    hide Parse, IsPacket;
    if packets == [] {
      assert Flatten(packets) + rest == rest;
    } else {
      var tail := Flatten(packets[1..]) + rest;
      ParseFlatten(packets[1..], rest);
      ParsePacket(packets[0], tail);
      assert Flatten(packets) + rest == packets[0] + tail;
      assert packets == [packets[0]] + packets[1..];
    }
  }

  /** Parsing loses no byte, and every piece it cuts off is a packet. */
  lemma {:induction false} ParseConserves(s: seq<byte>)
    ensures Flatten(Parse(s).packets) + Parse(s).rest == s
    ensures AllPackets(Parse(s).packets) && !FrameOf(Parse(s).rest).Ready?
    decreases |s|
  {
    hide FrameOf, IsPacket, AllPackets, Flatten;
    match FrameOf(s)
    case Ready(len) =>
      ParseConserves(s[len..]);
      ReadyIsPacket(s);
      var p, tail := s[..len], Parse(s[len..]);
      Prepend(p, tail.packets);
      Rejoin(s, len, Flatten(tail.packets), tail.rest);
    case _ =>
      NoPackets();
  }

  lemma Rejoin(s: seq<byte>, len: nat, middle: seq<byte>, rest: seq<byte>)
    requires len <= |s| && middle + rest == s[len..]
    ensures (s[..len] + middle) + rest == s
  {
    assert s[..len] + (middle + rest) == s;
  }

  lemma Prepend(p: seq<byte>, packets: seq<seq<byte>>)
    requires IsPacket(p) && AllPackets(packets)
    ensures AllPackets([p] + packets) && Flatten([p] + packets) == p + Flatten(packets)
  {
    hide IsPacket;
    assert ([p] + packets)[1..] == packets;
  }

  lemma NoPackets()
    ensures AllPackets([]) && Flatten<byte>([]) == [] && forall s: seq<byte> :: Flatten([]) + s == s
  {
  }

  /** A malformed header stays the answer, whatever arrives later. */
  lemma MalformedIsForever(s: seq<byte>, more: seq<byte>)
    requires FrameOf(s).Malformed?
    ensures FrameOf(s + more) == FrameOf(s)
  {
    DecodePrefix(s, s + more);
  }

  lemma Emit(emitted: seq<seq<byte>>, p: seq<byte>, queue: seq<byte>)
    requires p <= queue && IsPacket(p) && AllPackets(emitted)
    ensures AllPackets(emitted + [p])
    ensures Flatten(emitted) + queue == Flatten(emitted + [p]) + queue[|p|..]
  {
    hide IsPacket;
    FlattenSnoc(emitted, p);
    assert queue == p + queue[|p|..];
  }

  lemma FrameTooShort(queue: seq<byte>)
    ensures |queue| < HEADER_LEN ==> FrameOf(queue) == Waiting
  {
  }

  /** Once a header is there it decides. */
  lemma FrameByHeader(queue: seq<byte>)
    requires |queue| >= HEADER_LEN
    ensures var h := Decode(queue[..HEADER_LEN]);
      FrameOf(queue) == if Validate(h) != OK then Malformed(Validate(h))
                        else if |queue| < HEADER_LEN + h.bodyLen then Waiting else Ready(HEADER_LEN + h.bodyLen)
  {
    hide Decode, Validate;
    DecodePrefix(queue[..HEADER_LEN], queue);
  }

  class Framer {
    const ring: RingBuffer
    /** Every byte accepted by Feed, and every packet handed out by Next, since the start. */
    ghost var fed: seq<byte>
    ghost var emitted: seq<seq<byte>>

    constructor (buffer: array<byte>)
      requires buffer.Length > 0
      ensures Valid() && fresh(ring) && ring.buffer == buffer
      ensures Contents() == [] && fed == [] && emitted == []
    {
      ring := new RingBuffer(buffer);
      fed, emitted := [], [];
      new;
      assert fed == Flatten(emitted) + ring.Contents();
    }

    ghost predicate Valid()
      reads this, ring, ring.buffer
    {
      && ring.Valid()
      && AllPackets(emitted)
      && fed == Flatten(emitted) + ring.Contents()
    }

    ghost function Contents(): seq<byte>
      requires Valid()
      reads this, ring, ring.buffer
    {
      ring.Contents()
    }

    method Feed(data: seq<byte>) returns (status: Status)
      requires Valid()
      modifies this, ring, ring.buffer
      ensures Valid() && emitted == old(emitted)
      ensures status == if |data| > ring.buffer.Length - |old(Contents())| then BufferTooSmall else OK
      ensures fed == if status == OK then old(fed) + data else old(fed)
      ensures Contents() == if status == OK then old(Contents()) + data else old(Contents())
    {
      hide AllPackets, Flatten;
      Reassociate(Flatten(emitted), ring.Contents(), data);
      status := ring.Write(data);
      if status == OK {
        fed := fed + data;
      }
    }

    /** Look at the header, if there is one, and decide how long the first packet is. */
    method PeekFrame() returns (status: Status, len: nat)
      requires Valid()
      ensures match FrameOf(Contents())
              case Waiting => status == NeedMoreData
              case Malformed(e) => status == e
              case Ready(n) => status == OK && len == n
    {
      hide Decode, Validate, FrameOf, Flatten, View, AllPackets;
      FrameTooShort(Contents());
      if ring.size < HEADER_LEN {
        return NeedMoreData, 0;
      }
      var headerBytes := new byte[HEADER_LEN];
      status := ring.Peek(0, headerBytes, HEADER_LEN);
      assert headerBytes[..] == Contents()[..HEADER_LEN];
      FrameByHeader(Contents());
      var header;
      status, header := HeaderDecode(headerBytes[..]);
      if status != OK {
        return status, 0;
      }
      ValidHeader(header);
      len := header.headerLen + header.bodyLen;
      status := if ring.size < len then NeedMoreData else OK;
    }

    method Next(out: array<byte>) returns (status: Status, packetLen: nat)
      requires Valid() && out != ring.buffer
      modifies this, ring, out
      ensures Valid() && fed == old(fed)
      ensures status == match FrameOf(old(Contents()))
                        case Waiting => NeedMoreData
                        case Malformed(e) => e
                        case Ready(len) => if out.Length < len then BufferTooSmall else OK
      ensures status == OK ==>
        && FrameOf(old(Contents())) == Ready(packetLen)
        && out[..packetLen] == old(Contents())[..packetLen] && IsPacket(out[..packetLen])
        && emitted == old(emitted) + [out[..packetLen]] && Contents() == old(Contents())[packetLen..]
      ensures status != OK ==> packetLen == 0 && emitted == old(emitted) && Contents() == old(Contents())
    {
      hide FrameOf, IsPacket, Flatten, View, AllPackets;
      packetLen := 0;
      ghost var queue := Contents();
      var len;
      status, len := PeekFrame();
      if status != OK {
        return;
      }
      if out.Length < len {
        return BufferTooSmall, 0;
      }
      status := ring.Read(out, len);
      packetLen := len;
      ReadyIsPacket(queue);
      assert out[..len] == queue[..len];
      Emit(emitted, queue[..len], queue);
      emitted := emitted + [out[..len]];
    }

    method Reset()
      requires Valid()
      modifies this, ring
      ensures Valid() && Contents() == [] && fed == [] && emitted == []
    {
      ring.Reset();
      fed, emitted := [], [];
      assert fed == Flatten(emitted) + ring.Contents();
    }

    /** Segmentation does not matter: at any moment of any run, what was handed out together with
        what still sits in the ring is the parse of everything fed. */
    lemma RefinesParse()
      requires Valid()
      ensures Parse(fed).packets == emitted + Parse(Contents()).packets
      ensures Parse(fed).rest == Parse(Contents()).rest
      ensures !FrameOf(Contents()).Ready? ==> emitted == Parse(fed).packets && Contents() == Parse(fed).rest
    {
      ParseFlatten(emitted, Contents());
    }
  }
}
