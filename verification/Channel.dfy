/** Two connected TcpConnections form a packet channel in each direction. */
module Channel {
  import opened Wire
  import opened Protocol
  import opened Framers
  import opened Transport

  // ----- packets are self-delimiting -----

  /** Whole packets whose bytes are a prefix of other whole packets' bytes are a prefix of those packets. */
  lemma {:induction false} PacketsPrefix(received: seq<seq<byte>>, queued: seq<seq<byte>>)
    requires AllPackets(received) && AllPackets(queued)
    requires Flatten(received) <= Flatten(queued)
    ensures received <= queued
  {
    hide FrameOf, IsPacket;
    if received == [] {
    } else {
      var tail := Flatten(received[1..]);
      PacketNonempty(received[0]);
      assert queued != [];
      var tail' := Flatten(queued[1..]);
      var rest := (queued[0] + tail')[|received[0] + tail|..];
      assert queued[0] + tail' == received[0] + (tail + rest);
      FrameOfPacket(received[0], tail + rest);
      FrameOfPacket(queued[0], tail');
      assert tail' == tail + rest;
      PacketsPrefix(received[1..], queued[1..]);
    }
  }

  lemma PacketNonempty(p: seq<byte>)
    requires IsPacket(p)
    ensures HEADER_LEN <= |p|
  {
  }

  /** Nothing is lost: when every byte sent has been read and no whole packet waits in the framer,
      every packet queued has been received. */
  lemma DrainedMeansAll(received: seq<seq<byte>>, queued: seq<seq<byte>>, queue: seq<byte>)
    requires AllPackets(received) && AllPackets(queued)
    requires Flatten(received) + queue == Flatten(queued) && !FrameOf(queue).Ready?
    ensures received == queued && queue == []
  {
    hide FrameOf, IsPacket;
    PacketsPrefix(received, queued);
    var left := queued[|received|..];
    assert queued == received + left;
    FlattenAppend(received, left);
    assert Flatten(queued)[|Flatten(received)|..] == Flatten(left);
    if left != [] {
      FrameOfPacket(left[0], Flatten(left[1..]));
    }
  }

  // ----- every interleaving of the two ends' operations -----

  datatype Event =
    | Queue(atA: bool, header: Header, body: seq<byte>)
    | Flush(atA: bool)
    | Receive(atA: bool)
    | Close(atA: bool)

  /** `a` and `b` are the two ends of one connection. */
  ghost predicate Linked(a: TcpConnection, b: TcpConnection)
  {
    && a.outgoing == b.incoming && a.incoming == b.outgoing
    && a.Repr() !! b.Repr()
    && {a.outgoing, a.incoming} !! a.Repr() + b.Repr()
  }

  /** Two sockets joined by accept and connect. */
  method Join() returns (a: TcpConnection, b: TcpConnection)
    ensures a.Valid() && b.Valid() && Linked(a, b) && a.isOpen && b.isOpen
    ensures a.queued == b.queued == a.received == b.received == []
  {
    hide TcpConnection.Valid;
    var there := new Pipe();
    var back := new Pipe();
    a := new TcpConnection(there, back);
    b := new TcpConnection(back, there);
  }

  /** The channel property in one direction. */
  ghost predicate Fifo(sender: TcpConnection, receiver: TcpConnection)
    requires receiver.framer.Valid() && receiver.incoming.Valid()
    reads sender, receiver, receiver.framer, receiver.framer.ring, receiver.framer.ring.buffer, receiver.incoming
  {
    && receiver.received <= sender.queued
    && (sender.isOpen && receiver.isOpen && sender.sendOffset == sender.sendLen
        && receiver.incoming.taken == |receiver.incoming.written| && !FrameOf(receiver.framer.Contents()).Ready?
        ==> receiver.received == sender.queued)
  }

  lemma FifoHolds(sender: TcpConnection, receiver: TcpConnection)
    requires sender.Valid() && receiver.Valid() && sender.outgoing == receiver.incoming
    ensures Fifo(sender, receiver)
  {
    hide FrameOf, IsPacket, Flatten;
    var pipe := sender.outgoing;
    assert pipe.Delivered() <= pipe.written;
    assert Flatten(receiver.received) <= pipe.Delivered();
    assert pipe.written <= Flatten(sender.queued);
    PacketsPrefix(receiver.received, sender.queued);
    if sender.isOpen && receiver.isOpen && sender.sendOffset == sender.sendLen && pipe.taken == |pipe.written|
      && !FrameOf(receiver.framer.Contents()).Ready? {
      assert sender.Pending() == [];
      assert pipe.Delivered() == pipe.written;
      DrainedMeansAll(receiver.received, sender.queued, receiver.framer.Contents());
    }
  }

  lemma FifoBothWays(a: TcpConnection, b: TcpConnection)
    requires a.Valid() && b.Valid() && Linked(a, b)
    ensures a.framer.Valid() && a.incoming.Valid() && b.framer.Valid() && b.incoming.Valid()
    ensures Fifo(a, b) && Fifo(b, a)
  {
    hide Fifo;
    FifoHolds(a, b);
    FifoHolds(b, a);
  }

  /** What a queue operation adds: the packed packet if the connection is open, idle and can pack it. */
  ghost function Accepted(c: TcpConnection, e: Event): seq<seq<byte>>
    requires e.Queue?
    reads c
  {
    if c.isOpen && c.sendOffset >= c.sendLen && e.header.bodyLen == |e.body| && WellFormed(e.header)
    then [Encode(e.header) + e.body] else []
  }

  method Perform(c: TcpConnection, peer: TcpConnection, e: Event, out: array<byte>)
    requires c.Valid() && peer.Valid() && Linked(c, peer) && out !in c.Repr() + peer.Repr()
    modifies c.Repr(), c.outgoing, c.incoming, out
    ensures c.Valid() && peer.Valid()
    ensures old(c.queued) <= c.queued && old(c.received) <= c.received
    ensures peer.queued == old(peer.queued) && peer.received == old(peer.received)
    ensures e.Queue? ==> c.queued == old(c.queued) + old(Accepted(c, e)) && c.received == old(c.received)
    ensures !e.Queue? ==> c.queued == old(c.queued)
    ensures !e.Receive? ==> c.received == old(c.received)
    ensures e.Receive? && c.received == old(c.received) && old(c.isOpen) && c.isOpen ==>
        !FrameOf(c.framer.Contents()).Ready?
    ensures e.Flush? && c.isOpen && c.sendOffset == c.sendLen ==> c.outgoing.written == Flatten(c.queued)
    ensures e.Close? ==> !c.isOpen
  {
    hide FrameOf, IsPacket, Flatten, AllPackets, Framer.Valid, Framer.Contents;
    match e
    case Queue(_, header, body) =>
      var _ := c.QueuePacket(header, body);
    case Flush(_) =>
      ghost var delivered := peer.incoming.Delivered();
      var _ := c.Flush();
      assert peer.incoming.Delivered() == delivered;
    case Receive(_) =>
      var _, _, _ := c.RecvPacket(out);
    case Close(_) =>
      c.Close();
  }

  /** For every sequence of operations at the two ends, and every way the network cuts, delays or breaks
      the streams, each end has received a prefix of what the other queued: in order, byte for byte,
      nothing duplicated, merged or skipped; and once drained, all of it. */
  method Run(a: TcpConnection, b: TcpConnection, events: seq<Event>, out: array<byte>)
    requires a.Valid() && b.Valid() && Linked(a, b) && out !in a.Repr() + b.Repr()
    modifies a.Repr(), b.Repr(), a.outgoing, a.incoming, out
    ensures a.Valid() && b.Valid()
    ensures a.framer.Valid() && a.incoming.Valid() && b.framer.Valid() && b.incoming.Valid() && Fifo(a, b) && Fifo(b, a)
    ensures old(a.queued) <= a.queued && old(b.received) <= b.received
    ensures old(b.queued) <= b.queued && old(a.received) <= a.received
  {
    hide TcpConnection.Valid;
    for i := 0 to |events|
      invariant a.Valid() && b.Valid()
      invariant old(a.queued) <= a.queued && old(b.received) <= b.received
      invariant old(b.queued) <= b.queued && old(a.received) <= a.received
    {
      if events[i].atA {
        Perform(a, b, events[i], out);
      } else {
        Perform(b, a, events[i], out);
      }
    }
    FifoBothWays(a, b);
  }

  /** Every well-formed packet crosses the channel: an idle open end takes it, and when the other end, which
      has received everything before, returns a packet, it is this one. */
  method Transmit(a: TcpConnection, b: TcpConnection, header: Header, body: seq<byte>, out: array<byte>, attempts: nat)
      returns (queued: Status, flushed: Status, got: Status, len: nat)
    requires a.Valid() && b.Valid() && Linked(a, b) && out !in a.Repr() + b.Repr()
    requires a.isOpen && a.sendOffset == a.sendLen && b.isOpen && b.received == a.queued
    requires WellFormed(header) && header.bodyLen == |body|
    modifies a.Repr(), b.Repr(), a.outgoing, a.incoming, out
    ensures a.Valid() && b.Valid() && queued == OK && a.queued == old(a.queued) + [Encode(header) + body]
    ensures flushed == OK ==> a.outgoing.written == Flatten(a.queued)
    ensures got == OK ==> b.received == old(b.received) + [Encode(header) + body]
    ensures got == OK ==> len <= out.Length && out[..len] == Encode(header) + body
  {
    hide TcpConnection.Valid, Flatten, WellFormed, Encode;
    queued := QueueAt(a, b, header, body);
    flushed := FlushAt(a, b);
    got, len := NeedMoreData, 0;
    for n := 0 to attempts
      invariant a.Valid() && b.Valid() && a.queued == old(a.queued) + [Encode(header) + body]
      invariant flushed == OK ==> a.outgoing.written == Flatten(a.queued)
      invariant b.received == old(b.received) && got == NeedMoreData
    {
      got, len := ReceiveAt(b, a, out);
      if got != NeedMoreData {
        ReceivedInOrder(a, b);
        if got == OK { OneMore(old(b.received), Encode(header) + body, out[..len]); }
        break;
      }
    }
  }

  lemma OneMore(before: seq<seq<byte>>, x: seq<byte>, y: seq<byte>)
    requires before + [y] <= before + [x]
    ensures x == y
  {
    assert (before + [y])[|before|] == (before + [x])[|before|];
  }

  lemma ReceivedInOrder(sender: TcpConnection, receiver: TcpConnection)
    requires sender.Valid() && receiver.Valid() && sender.outgoing == receiver.incoming
    ensures receiver.received <= sender.queued
  {
    FifoHolds(sender, receiver);
  }

  method QueueAt(c: TcpConnection, peer: TcpConnection, header: Header, body: seq<byte>) returns (status: Status)
    requires c.Valid() && peer.Valid() && Linked(c, peer)
    modifies c, c.sendQueue
    ensures c.Valid() && peer.Valid() && c.isOpen == old(c.isOpen) && c.received == old(c.received)
    ensures status == OK <==>
      old(c.isOpen) && old(c.sendOffset == c.sendLen) && header.bodyLen == |body| && WellFormed(header)
    ensures c.queued == if status == OK then old(c.queued) + [Encode(header) + body] else old(c.queued)
  {
    hide FrameOf, IsPacket, Flatten, AllPackets, Framer.Valid, Framer.Contents, WellFormed, PackStatus;
    status := c.QueuePacket(header, body);
  }

  method FlushAt(c: TcpConnection, peer: TcpConnection) returns (status: Status)
    requires c.Valid() && peer.Valid() && Linked(c, peer)
    modifies c, c.outgoing, c.framer, c.framer.ring
    ensures c.Valid() && peer.Valid() && c.queued == old(c.queued) && c.received == old(c.received)
    ensures status == OK ==> c.outgoing.written == Flatten(c.queued)
  {
    hide FrameOf, IsPacket, Flatten, AllPackets, Framer.Valid, Framer.Contents;
    ghost var delivered := peer.incoming.Delivered();
    status := c.Flush();
    assert peer.incoming.Delivered() == delivered;
  }

  method ReceiveAt(c: TcpConnection, peer: TcpConnection, out: array<byte>) returns (status: Status, len: nat)
    requires c.Valid() && peer.Valid() && Linked(c, peer) && out !in c.Repr() + peer.Repr()
    modifies c, c.incoming, c.framer, c.framer.ring, c.framer.ring.buffer, c.recvBuffer, out
    ensures c.Valid() && peer.Valid() && c.queued == old(c.queued) && c.incoming.written == old(c.incoming.written)
    ensures status == OK ==> len <= out.Length && c.received == old(c.received) + [out[..len]]
    ensures status != OK ==> c.received == old(c.received)
  {
    hide FrameOf, IsPacket, Flatten, AllPackets, Framer.Valid, Framer.Contents;
    ghost var net;
    status, len, net := c.RecvPacket(out);
  }

  // ----- how large a body the receive buffer really supports -----

  ghost predicate BodiesAtMost(packets: seq<seq<byte>>, max: nat)
  {
    forall i :: 0 <= i < |packets| ==> IsPacket(packets[i]) && |packets[i]| <= HEADER_LEN + max
  }

  /** Successive receive calls with a full-size output buffer, the network delivering at most
      `sizes[i]` of the remaining bytes to call `i` and never failing. */
  ghost predicate StaysOpen(stream: seq<byte>, queue: seq<byte>, sizes: seq<nat>)
    decreases |sizes|
  {
    if sizes == [] then true
    else
      var n := Min(sizes[0], |stream|);
      var r := RecvCall(queue, PACKET_BUFFER_SIZE, if n == 0 then WouldBlock else Arrived(stream[..n]));
      var used := if FrameOf(queue).Waiting? then n else 0;
      r.open && StaysOpen(stream[used..], r.queue, sizes[1..])
  }

  ghost predicate ReadSizes(sizes: seq<nat>)
  {
    forall i :: 0 <= i < |sizes| ==> sizes[i] <= RECV_BUFFER_SIZE
  }

  /** A prefix of well-formed traffic is waiting with a bounded queue, or starts with its first packet. */
  lemma PrefixFrame(queue: seq<byte>, stream: seq<byte>, packets: seq<seq<byte>>, max: nat)
    requires BodiesAtMost(packets, max) && queue + stream == Flatten(packets)
    ensures match FrameOf(queue)
            case Waiting => |queue| < HEADER_LEN + max || queue == []
            case Malformed(_) => false
            case Ready(len) =>
              packets != [] && queue[..len] == packets[0] && queue[len..] + stream == Flatten(packets[1..])
    ensures packets != [] && |queue| < |packets[0]| ==> FrameOf(queue).Waiting?
    ensures max >= 0 && FrameOf(queue).Waiting? ==> |queue| <= HEADER_LEN + max - 1
  {
    if packets != [] {
      var p, rest := packets[0], Flatten(packets[1..]);
      assert queue + stream == p + rest;
      FrameOfPacket(p, rest);
      if |queue| >= HEADER_LEN {
        DecodePrefix(queue, queue + stream);
      }
      if |queue| >= |p| { CutFirst(queue, stream, p, rest); }
    }
  }

  lemma CutFirst(queue: seq<byte>, stream: seq<byte>, p: seq<byte>, rest: seq<byte>)
    requires queue + stream == p + rest && |queue| >= |p|
    ensures queue[..|p|] == p && queue[|p|..] + stream == rest
  {
    assert queue[..|p|] == (queue + stream)[..|p|];
    assert queue[|p|..] + stream == (queue + stream)[|p|..];
  }

  lemma {:induction false} BoundedBodiesStayOpen(stream: seq<byte>, queue: seq<byte>, sizes: seq<nat>,
        packets: seq<seq<byte>>, max: nat)
    requires BodiesAtMost(packets, max) && queue + stream == Flatten(packets) && ReadSizes(sizes)
    requires HEADER_LEN + max - 1 + RECV_BUFFER_SIZE <= PACKET_BUFFER_SIZE
    ensures StaysOpen(stream, queue, sizes)
    decreases |sizes|
  {
    hide FrameOf, IsPacket;
    if sizes == [] {
    } else {
      PrefixFrame(queue, stream, packets, max);
      var n := Min(sizes[0], |stream|);
      match FrameOf(queue)
      case Ready(len) =>
        PacketSize(packets, max);
        BoundedBodiesStayOpen(stream, queue[len..], sizes[1..], packets[1..], max);
        assert stream[0..] == stream;
      case Waiting =>
        var more := queue + stream[..n];
        assert more + stream[n..] == queue + stream;
        PrefixFrame(more, stream[n..], packets, max);
        match FrameOf(more)
        case Ready(len) =>
          assert n == 0 ==> more == queue;
          PacketSize(packets, max);
          BoundedBodiesStayOpen(stream[n..], more[len..], sizes[1..], packets[1..], max);
        case Waiting =>
          assert n == 0 ==> more == queue;
          BoundedBodiesStayOpen(stream[n..], more, sizes[1..], packets, max);
    }
  }

  lemma PacketSize(packets: seq<seq<byte>>, max: nat)
    requires BodiesAtMost(packets, max) && packets != []
    requires max <= MAX_BODY_LEN
    ensures |packets[0]| <= PACKET_BUFFER_SIZE && BodiesAtMost(packets[1..], max)
  {
  }

  /** A packet with a 57345-byte body. */
  function LargePacket(): (p: seq<byte>)
    ensures IsPacket(p) && |p| == HEADER_LEN + 57345
  {
    var h := Header(MAGIC, PROTOCOL_VERSION, HEADER_LEN, 0, 0, 0, 0, 57345, 0, 0, 0, 0, 0, seq(RESERVED_LEN, _ => 0));
    var body := seq(57345, _ => 0);
    PackFrames(h, body, []);
    Encode(h) + body
  }

  /** With `k` more full reads to go the ring holds 64 + 8192 * (7 - k) bytes of a 57409-byte packet;
      the last read would need 65600 bytes of room. */
  lemma {:induction false} LargePacketOverflows(stream: seq<byte>, queue: seq<byte>, k: nat)
    requires k <= 7 && |queue| == HEADER_LEN + RECV_BUFFER_SIZE * (7 - k)
    requires queue + stream == Flatten([LargePacket(), LargePacket()])
    ensures !StaysOpen(stream, queue, seq(k + 1, _ => RECV_BUFFER_SIZE))
  {
    hide FrameOf, IsPacket, LargePacket;
    var p := LargePacket();
    var sizes := seq(k + 1, _ => RECV_BUFFER_SIZE);
    assert |Flatten([p, p])| == 2 * |p| by {
      assert Flatten([p, p]) == p + Flatten([p]) && Flatten([p]) == p + Flatten([]);
    }
    PrefixFrame(queue, stream, [p, p], 57345);
    if k == 0 {
    } else {
      var more, rest := queue + stream[..RECV_BUFFER_SIZE], stream[RECV_BUFFER_SIZE..];
      assert more + rest == queue + stream;
      PrefixFrame(more, rest, [p, p], 57345);
      LargePacketOverflows(rest, more, k - 1);
      assert sizes[1..] == seq(k, _ => RECV_BUFFER_SIZE);
    }
  }

  ghost predicate NeverCloses(max: nat)
  {
    forall packets: seq<seq<byte>>, sizes: seq<nat> :: BodiesAtMost(packets, max) && ReadSizes(sizes) ==>
        StaysOpen(Flatten(packets), [], sizes)
  }

  /** The exact limit of the receive path: the header format admits bodies of up to 65535 bytes, but
      traffic is safe from being cut off by the ring's size exactly when bodies stay within 57344. */
  lemma BufferSupportsBodies(max: nat)
    requires max <= MAX_BODY_LEN
    ensures NeverCloses(max) <==> max <= 57344
  {
    hide FrameOf, IsPacket, StaysOpen, LargePacket;
    if max <= 57344 {
      forall packets: seq<seq<byte>>, sizes: seq<nat> | BodiesAtMost(packets, max) && ReadSizes(sizes)
        ensures StaysOpen(Flatten(packets), [], sizes)
      {
        var none: seq<byte> := [];
        assert none + Flatten(packets) == Flatten(packets);
        BoundedBodiesStayOpen(Flatten(packets), [], sizes, packets, max);
      }
    } else {
      var p := LargePacket();
      var sizes := [HEADER_LEN] + seq(8, _ => RECV_BUFFER_SIZE);
      LargePacketRun();
      assert BodiesAtMost([p, p], max) && ReadSizes(sizes);
    }
  }

  lemma LargePacketRun()
    ensures !StaysOpen(Flatten([LargePacket(), LargePacket()]), [], [HEADER_LEN] + seq(8, _ => RECV_BUFFER_SIZE))
  {
    hide FrameOf, IsPacket, LargePacket;
    var p := LargePacket();
    var stream := Flatten([p, p]);
    assert stream == p + Flatten([p]);
    var queue, rest := stream[..HEADER_LEN], stream[HEADER_LEN..];
    assert queue + rest == stream;
    assert [] + stream == stream && [] + queue == queue;
    PrefixFrame([], stream, [p, p], 57345);
    PrefixFrame(queue, rest, [p, p], 57345);
    LargePacketOverflows(rest, queue, 7);
    var sizes := [HEADER_LEN] + seq(8, _ => RECV_BUFFER_SIZE);
    assert sizes[1..] == seq(8, _ => RECV_BUFFER_SIZE);
  }
}
