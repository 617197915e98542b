/** A TCP connection as a packet channel: a one-packet send queue on one side, a framer on the
    other, and between them a byte stream the operating system cuts up as it likes. */
module Transport {
  import opened Wire
  import opened Protocol
  import opened Framers

  const RECV_BUFFER_SIZE := 8192
  const PACKET_BUFFER_SIZE := HEADER_LEN + MAX_BODY_LEN

  // ----- one receive call, as a function of what the network did -----

  datatype Net = WouldBlock | Failed | Arrived(chunk: seq<byte>)
  datatype Recv = Recv(status: Status, queue: seq<byte>, packet: Option<seq<byte>>, open: bool)

  function TakeFrame(queue: seq<byte>, outCapacity: nat): Recv
  {
    match FrameOf(queue)
    case Waiting => Recv(NeedMoreData, queue, None, true)
    case Malformed(e) => Recv(e, [], None, false)
    case Ready(len) =>
      if outCapacity < len then Recv(BufferTooSmall, [], None, false)
      else Recv(OK, queue[len..], Some(queue[..len]), true)
  }

  function RecvCall(queue: seq<byte>, outCapacity: nat, net: Net): Recv
  {
    if !FrameOf(queue).Waiting? then TakeFrame(queue, outCapacity)
    else match net
      case WouldBlock => Recv(NeedMoreData, queue, None, true)
      case Failed => Recv(NetworkError, [], None, false)
      case Arrived(chunk) =>
        if |chunk| > PACKET_BUFFER_SIZE - |queue| then Recv(BufferTooSmall, [], None, false)
        else TakeFrame(queue + chunk, outCapacity)
  }

  /** The send queue has room for every packet of the protocol. */
  lemma Packable(h: Header, body: seq<byte>)
    ensures PackStatus(h, |body|, PACKET_BUFFER_SIZE) == OK <==> h.bodyLen == |body| && WellFormed(h)
    ensures PackStatus(h, |body|, PACKET_BUFFER_SIZE) == OK ==> Validate(h) == OK
  {
    hide Validate;
    PackIff(h, body, PACKET_BUFFER_SIZE);
  }

  /** A whole packet that is there already is returned whatever the network does; it is lost, with the
      connection, when the caller's buffer is too small. */
  lemma ReceiveThere(p: seq<byte>, rest: seq<byte>, outCapacity: nat, net: Net)
    requires IsPacket(p)
    ensures RecvCall(p + rest, outCapacity, net)
         == if |p| <= outCapacity then Recv(OK, rest, Some(p), true) else Recv(BufferTooSmall, [], None, false)
  {
    hide FrameOf, IsPacket;
    FrameOfPacket(p, rest);
  }

  /** A packet that the arriving bytes complete is returned at once, and the bytes after it stay. */
  lemma ReceiveArriving(queue: seq<byte>, chunk: seq<byte>, p: seq<byte>, rest: seq<byte>, outCapacity: nat)
    requires IsPacket(p) && queue + chunk == p + rest && |queue| < |p| <= outCapacity
    requires |queue| + |chunk| <= 65599
    ensures RecvCall(queue, outCapacity, Arrived(chunk)) == Recv(OK, rest, Some(p), true)
  {
    hide IsPacket, Decode, Validate;
    FrameOfPacket(p, rest);
    WaitsForPacket(queue, p, rest);
  }

  /** Without a whole packet: the bytes that arrive are kept while there is room for them, and a network error, a
      full ring or a malformed header closes the connection. */
  lemma ReceiveNothing(queue: seq<byte>, outCapacity: nat, net: Net)
    requires !FrameOf(queue).Ready?
    ensures var r := RecvCall(queue, outCapacity, net);
      && (FrameOf(queue).Malformed? ==> r == Recv(FrameOf(queue).status, [], None, false))
      && (FrameOf(queue).Waiting? && net.WouldBlock? ==> r == Recv(NeedMoreData, queue, None, true))
      && (FrameOf(queue).Waiting? && net.Failed? ==> r == Recv(NetworkError, [], None, false))
      && (FrameOf(queue).Waiting? && net.Arrived? && |queue| + |net.chunk| > 65599 ==>
            r == Recv(BufferTooSmall, [], None, false))
      && (FrameOf(queue).Waiting? && net.Arrived? && |queue| + |net.chunk| <= 65599 ==>
            match FrameOf(queue + net.chunk)
            case Waiting => r == Recv(NeedMoreData, queue + net.chunk, None, true)
            case Malformed(e) => r == Recv(e, [], None, false)
            case Ready(_) => true)
  {
    hide FrameOf;
  }

  lemma WaitsForPacket(queue: seq<byte>, p: seq<byte>, rest: seq<byte>)
    requires IsPacket(p) && queue <= p + rest && |queue| < |p|
    ensures FrameOf(queue) == Waiting
  {
    hide Validate;
    if |queue| >= HEADER_LEN {
      DecodePrefix(queue, p + rest);
      DecodePrefix(p, p + rest);
    }
  }

  // ----- the byte stream between two sockets -----

  /** One direction of an established connection. How much of a write is accepted, how much a read
      returns, and when either blocks or fails, is decided by the network. */
  class Pipe {
    var written: seq<byte>
    var taken: nat

    constructor ()
      ensures Valid() && written == [] && taken == 0
    {
      written, taken := [], 0;
    }

    ghost predicate Valid()
      reads this
    {
      taken <= |written|
    }

    ghost function Delivered(): seq<byte>
      requires Valid()
      reads this
    {
      written[..taken]
    }

    method Send(data: seq<byte>) returns (status: Status, sent: nat)
      requires Valid()
      modifies this
      ensures Valid() && taken == old(taken) && sent <= |data|
      ensures status == OK || status == NeedMoreData || status == NetworkError
      ensures written == old(written) + data[..sent] && (status != OK ==> sent == 0)
    {
      if * {
        return NeedMoreData, 0;
      }
      if * {
        return NetworkError, 0;
      }
      sent :| 0 <= sent <= |data|;
      written := written + data[..sent];
      return OK, sent;
    }

    method Receive(buffer: array<byte>) returns (status: Status, received: nat)
      requires Valid()
      modifies this, buffer
      ensures Valid() && written == old(written)
      ensures status == OK || status == NeedMoreData || status == NetworkError
      ensures taken == old(taken) + received
      ensures status == OK ==> 1 <= received <= buffer.Length && buffer[..received] == written[old(taken)..taken]
      ensures status != OK ==> received == 0
    {
      if * {
        return NetworkError, 0;
      }
      if buffer.Length == 0 || taken == |written| {
        return NeedMoreData, 0;
      }
      received :| 1 <= received <= buffer.Length && received <= |written| - taken;
      forall k | 0 <= k < received {
        buffer[k] := written[taken + k];
      }
      taken := taken + received;
      return OK, received;
    }
  }

  class TcpConnection {
    const outgoing: Pipe
    const incoming: Pipe
    const recvBuffer: array<byte>
    const sendQueue: array<byte>
    const framer: Framer
    var isOpen: bool
    var sendLen: nat
    var sendOffset: nat
    /** Every packet accepted by QueuePacket and every packet returned by RecvPacket. */
    ghost var queued: seq<seq<byte>>
    ghost var received: seq<seq<byte>>

    /** An established connection, as accept and connect leave it. */
    constructor (outgoing: Pipe, incoming: Pipe)
      requires outgoing != incoming && outgoing.Valid() && incoming.Valid()
      requires outgoing.written == [] && incoming.taken == 0
      ensures Valid() && fresh(recvBuffer) && fresh(sendQueue) && fresh(framer) && fresh(framer.ring)
          && fresh(framer.ring.buffer)
      ensures this.outgoing == outgoing && this.incoming == incoming
      ensures isOpen && queued == [] && received == []
    {
      this.outgoing, this.incoming := outgoing, incoming;
      recvBuffer := new byte[RECV_BUFFER_SIZE];
      sendQueue := new byte[PACKET_BUFFER_SIZE];
      var framerBuffer := new byte[PACKET_BUFFER_SIZE];
      framer := new Framer(framerBuffer);
      isOpen, sendLen, sendOffset := true, 0, 0;
      queued, received := [], [];
    }

    ghost function Repr(): set<object>
    {
      {this, recvBuffer, sendQueue, framer, framer.ring, framer.ring.buffer}
    }

    ghost predicate Valid()
      reads this, framer, framer.ring, framer.ring.buffer, sendQueue, outgoing, incoming
    {
      Shape() && SenderOk() && ReceiverOk()
    }

    ghost predicate Shape()
      reads this, framer, framer.ring, framer.ring.buffer, outgoing, incoming
    {
      && recvBuffer != sendQueue && recvBuffer != framer.ring.buffer && sendQueue != framer.ring.buffer
      && recvBuffer.Length == RECV_BUFFER_SIZE && sendQueue.Length == PACKET_BUFFER_SIZE
      && framer.ring.buffer.Length == PACKET_BUFFER_SIZE
      && outgoing != incoming && outgoing.Valid() && incoming.Valid()
      && framer.Valid()
      && sendOffset <= sendLen <= PACKET_BUFFER_SIZE
    }

    ghost function Pending(): seq<byte>
      requires sendOffset <= sendLen <= sendQueue.Length
      reads this`sendLen, this`sendOffset, sendQueue
    {
      sendQueue[sendOffset..sendLen]
    }

    /** The packets accepted so far are the bytes on the wire followed by the unsent remainder. */
    ghost predicate SenderOk()
      requires sendOffset <= sendLen <= sendQueue.Length
      reads this`isOpen, this`sendLen, this`sendOffset, this`queued, sendQueue, outgoing
    {
      && AllPackets(queued)
      && if isOpen then Flatten(queued) == outgoing.written + Pending() else outgoing.written <= Flatten(queued)
    }

    /** The bytes taken off the wire are the packets returned followed by the framer's queue. */
    ghost predicate ReceiverOk()
      requires framer.Valid() && incoming.Valid()
      reads this`isOpen, this`received, framer, framer.ring, framer.ring.buffer, incoming
    {
      && AllPackets(received)
      && if isOpen then incoming.Delivered() == Flatten(received) + framer.Contents()
         else Flatten(received) <= incoming.Delivered()
    }

    lemma SenderSettled()
      requires Shape() && SenderOk()
      ensures AllPackets(queued) && outgoing.written <= Flatten(queued)
    {
    }

    lemma ReceiverSettled()
      requires Shape() && ReceiverOk()
      ensures AllPackets(received) && Flatten(received) <= incoming.Delivered()
    {
    }

    method QueuePacket(header: Header, body: seq<byte>) returns (status: Status)
      requires Valid()
      modifies this, sendQueue
      ensures Valid() && isOpen == old(isOpen) && received == old(received)
      ensures status == if !old(isOpen) then InvalidArgument
                        else if old(sendOffset < sendLen) then BufferTooSmall
                        else PackStatus(header, |body|, PACKET_BUFFER_SIZE)
      ensures status == OK <==>
        old(isOpen) && old(sendOffset == sendLen) && header.bodyLen == |body| && WellFormed(header)
      ensures queued == if status == OK then old(queued) + [Encode(header) + body] else old(queued)
      ensures status == OK ==> Pending() == Encode(header) + body
      ensures status != OK ==> Pending() == old(Pending())
    {
      hide Decode, Validate, IsPacket, FrameOf, Encode, Flatten, WellFormed, PackStatus;
      Packable(header, body);
      if !isOpen {
        return InvalidArgument;
      }
      if sendOffset < sendLen {
        return BufferTooSmall;
      }
      var packetLen;
      status, packetLen := PacketPack(header, body, sendQueue);
      if status != OK {
        return;
      }
      sendLen, sendOffset := packetLen, 0;
      PackFrames(header, body, []);
      FlattenSnoc(queued, Encode(header) + body);
      queued := queued + [Encode(header) + body];
      assert Pending() == Encode(header) + body;
    }

    method Close()
      requires Shape() && AllPackets(queued) && AllPackets(received)
      requires outgoing.written <= Flatten(queued) && Flatten(received) <= incoming.Delivered()
      modifies this, framer, framer.ring
      ensures Valid() && !isOpen && queued == old(queued) && received == old(received)
      ensures framer.Contents() == [] && sendLen == 0
    {
      hide Flatten, AllPackets;
      framer.Reset();
      isOpen, sendLen, sendOffset := false, 0, 0;
    }

    method Flush() returns (status: Status)
      requires Valid()
      modifies this, outgoing, framer, framer.ring
      ensures Valid() && queued == old(queued) && received == old(received)
      ensures outgoing.taken == old(outgoing.taken) && old(outgoing.written) <= outgoing.written
      ensures !old(isOpen) ==> status == InvalidArgument && !isOpen && outgoing.written == old(outgoing.written)
      ensures isOpen ==> old(isOpen) && framer.Contents() == old(framer.Contents())
      ensures status == OK ==> isOpen && outgoing.written == Flatten(queued)
      ensures status == NeedMoreData ==> isOpen && sendOffset < sendLen
      ensures old(isOpen) && status != OK && status != NeedMoreData ==> !isOpen
    {
      hide Flatten, AllPackets, Framer.Valid, Framer.Contents, SenderOk, ReceiverOk;
      if !isOpen {
        return InvalidArgument;
      }
      while sendOffset < sendLen
        invariant Valid() && isOpen && queued == old(queued) && received == old(received)
        invariant outgoing.taken == old(outgoing.taken) && old(outgoing.written) <= outgoing.written
        invariant framer.Contents() == old(framer.Contents())
        decreases sendLen - sendOffset
      {
        status := SendSome();
        if status != OK {
          return;
        }
      }
      AllSent();
      sendLen, sendOffset := 0, 0;
      NonePending();
      return OK;
    }

    lemma AllSent()
      requires Shape() && SenderOk() && isOpen && sendOffset == sendLen
      ensures AllPackets(queued) && outgoing.written == Flatten(queued)
    {
      assert Pending() == [];
    }

    lemma NonePending()
      requires Shape() && AllPackets(queued) && outgoing.written == Flatten(queued) && sendOffset == sendLen
      ensures SenderOk()
    {
      assert Pending() == [];
      assert outgoing.written + [] == outgoing.written;
    }

    /** Offer the pending bytes to the network once; a network error closes the connection. */
    method SendSome() returns (status: Status)
      requires Valid() && isOpen && sendOffset < sendLen
      modifies this, outgoing, framer, framer.ring
      ensures Valid() && queued == old(queued) && received == old(received)
      ensures outgoing.taken == old(outgoing.taken) && old(outgoing.written) <= outgoing.written
      ensures isOpen ==> framer.Contents() == old(framer.Contents())
      ensures isOpen <==> status == OK || status == NeedMoreData
      ensures isOpen ==> sendLen == old(sendLen) && old(sendOffset) <= sendOffset
      ensures status == NeedMoreData ==> sendOffset == old(sendOffset)
      ensures status == OK ==> old(sendOffset) < sendOffset
    {
      hide Flatten, AllPackets, Framer.Valid, Framer.Contents, ReceiverOk;
      var sent;
      ghost var written, pending := outgoing.written, Pending();
      status, sent := outgoing.Send(sendQueue[sendOffset..sendLen]);
      if status == NeedMoreData {
        return;
      }
      if status != OK {
        ReceiverSettled();
        Close();
        return;
      }
      if sent == 0 {
        return NeedMoreData;
      }
      sendOffset := sendOffset + sent;
      assert Pending() == pending[sent..];
      Advance(written, pending, sent);
    }

    method RecvPacket(out: array<byte>) returns (status: Status, packetLen: nat, ghost net: Net)
      requires Valid() && out !in Repr()
      modifies this, incoming, framer, framer.ring, framer.ring.buffer, recvBuffer, out
      ensures Valid() && queued == old(queued) && incoming.written == old(incoming.written)
      ensures incoming.taken == old(incoming.taken) + (if net.Arrived? then |net.chunk| else 0)
      ensures isOpen ==> sendLen == old(sendLen) && sendOffset == old(sendOffset)
      ensures net.Arrived? ==> 1 <= |net.chunk| <= RECV_BUFFER_SIZE
      ensures net.Arrived? ==> net.chunk == incoming.written[old(incoming.taken)..incoming.taken]
      ensures !old(isOpen) ==> status == InvalidArgument && !isOpen && received == old(received)
      ensures old(isOpen) ==>
        var r := RecvCall(old(framer.Contents()), out.Length, net);
        && status == r.status && isOpen == r.open && framer.Contents() == r.queue
        && received == old(received) + (if r.packet.Some? then [r.packet.value] else [])
        && (r.packet.Some? ==> packetLen <= out.Length && out[..packetLen] == r.packet.value)
    {
      hide Flatten, AllPackets, FrameOf;
      packetLen, net := 0, WouldBlock;
      if !isOpen {
        return InvalidArgument, 0, net;
      }
      status, packetLen := NextOrClose(out);
      if status != NeedMoreData {
        return;
      }
      status, net := Fill();
      if status != OK {
        return;
      }
      status, packetLen := NextOrClose(out);
    }

    /** Read once from the network into the framer; a network error or a full ring closes the connection. */
    method Fill() returns (status: Status, ghost net: Net)
      requires Valid() && isOpen
      modifies this, incoming, framer, framer.ring, framer.ring.buffer, recvBuffer
      ensures Valid() && queued == old(queued) && received == old(received)
      ensures incoming.written == old(incoming.written)
      ensures isOpen ==> sendLen == old(sendLen) && sendOffset == old(sendOffset)
      ensures incoming.taken == old(incoming.taken) + (if net.Arrived? then |net.chunk| else 0)
      ensures net.Arrived? ==> 1 <= |net.chunk| <= RECV_BUFFER_SIZE
      ensures net.Arrived? ==> net.chunk == incoming.written[old(incoming.taken)..incoming.taken]
      ensures match net
        case WouldBlock => status == NeedMoreData && isOpen && framer.Contents() == old(framer.Contents())
        case Failed => status == NetworkError && !isOpen && framer.Contents() == []
        case Arrived(chunk) =>
          if |chunk| > PACKET_BUFFER_SIZE - |old(framer.Contents())|
          then status == BufferTooSmall && !isOpen && framer.Contents() == []
          else status == OK && isOpen && framer.Contents() == old(framer.Contents()) + chunk
    {
      hide Flatten, AllPackets, FrameOf, Framer.Valid, Framer.Contents, SenderOk;
      net := WouldBlock;
      var count;
      ghost var queue, before := framer.Contents(), incoming.Delivered();
      status, count := incoming.Receive(recvBuffer);
      assert framer.Contents() == queue;
      if status == NeedMoreData {
        return;
      }
      if status != OK {
        net := Failed;
        SenderSettled();
        Close();
        return;
      }
      net := Arrived(recvBuffer[..count]);
      assert incoming.Delivered() == before + net.chunk;
      status := framer.Feed(recvBuffer[..count]);
      if status != OK {
        SenderSettled();
        Close();
        return;
      }
      Reassociate(Flatten(received), queue, net.chunk);
    }

    /** Take the next packet from the framer; a framing error closes the connection. */
    method NextOrClose(out: array<byte>) returns (status: Status, packetLen: nat)
      requires Valid() && isOpen && out !in Repr()
      modifies this, framer, framer.ring, out
      ensures Valid() && queued == old(queued)
      ensures var r := TakeFrame(old(framer.Contents()), out.Length);
        && status == r.status && isOpen == r.open && framer.Contents() == r.queue
        && received == old(received) + (if r.packet.Some? then [r.packet.value] else [])
        && (r.packet.Some? ==> packetLen <= out.Length && out[..packetLen] == r.packet.value)
      ensures isOpen ==> sendLen == old(sendLen) && sendOffset == old(sendOffset)
    {
      hide Flatten, AllPackets, FrameOf, Framer.Valid, Framer.Contents;
      ghost var queue := framer.Contents();
      status, packetLen := framer.Next(out);
      if status == OK {
        Emit(received, queue[..packetLen], queue);
        received := received + [queue[..packetLen]];
      } else if status != NeedMoreData {
        Close();
      }
    }
  }

  /** Moving bytes from what is pending to what is written keeps their concatenation. */
  lemma Advance(written: seq<byte>, pending: seq<byte>, sent: nat)
    requires sent <= |pending|
    ensures (written + pending[..sent]) + pending[sent..] == written + pending
  {
  }
}
