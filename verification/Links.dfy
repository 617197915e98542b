/** One connection of the server over a real packet channel, for as long as it lives. */
module Links {
  import opened Wire
  import opened Server
  import opened ServerSteps
  import opened Traffic
  import opened Transport
  import P = Protocol
  import F = Framers
  import H = Channel

  // ----- packets and their bytes -----

  datatype Framing = Framing(header: P.Header, body: seq<byte>)

  function Bytes(f: Framing): seq<byte> { P.Encode(f.header) + f.body }

  predicate Packs(f: Framing) { f.header.bodyLen == |f.body| && P.WellFormed(f.header) }

  /** The bytes of the packets queued for a connection, the k-th one framed as `frame` says. */
  function AllBytes(frame: (nat, Packet) -> Framing, packets: seq<Packet>): (all: seq<seq<byte>>)
    ensures |all| == |packets| && forall k :: 0 <= k < |all| ==> all[k] == Bytes(frame(k, packets[k]))
  {
    seq(|packets|, k requires 0 <= k < |packets| => Bytes(frame(k, packets[k])))
  }

  function AllRequests(parse: seq<byte> -> Request, packets: seq<seq<byte>>): (all: seq<Request>)
    ensures |all| == |packets| && forall k :: 0 <= k < |all| ==> all[k] == parse(packets[k])
  {
    seq(|packets|, k requires 0 <= k < |packets| => parse(packets[k]))
  }

  // ----- the two ends -----

  predicate Busy(c: TcpConnection)
    reads c
  {
    c.sendOffset < c.sendLen
  }

  /** The connection is what the server's table says of it. */
  ghost predicate Mirrors(c: TcpConnection, d: Client)
    reads c
  {
    c.isOpen == d.isOpen && (c.isOpen ==> (Busy(c) <==> d.pending.Some?))
  }

  method FlushSlot(c: TcpConnection, peer: TcpConnection) returns (flush: FlushResult)
    requires c.Valid() && peer.Valid() && H.Linked(c, peer) && c.isOpen
    modifies c, c.outgoing, c.framer, c.framer.ring
    ensures c.Valid() && peer.Valid() && c.queued == old(c.queued) && c.received == old(c.received)
    ensures flush == FlushFailed <==> !c.isOpen
    ensures flush == Sent ==> !Busy(c)
    ensures flush == Blocked ==> Busy(c) && old(Busy(c))
  {
    hide P.FrameOf, P.IsPacket, Flatten, F.AllPackets, F.Framer.Valid, F.Framer.Contents;
    ghost var delivered, pending := peer.incoming.Delivered(), c.Pending();
    var status := c.Flush();
    assert peer.incoming.Delivered() == delivered;
    flush := if status == OK then Sent else if status == NeedMoreData then Blocked else FlushFailed;
    if c.isOpen { assert pending == [] ==> c.Pending() == []; }
  }

  method ReadSlot(c: TcpConnection, peer: TcpConnection, out: array<byte>, parse: seq<byte> -> Request)
      returns (recv: RecvResult)
    requires c.Valid() && peer.Valid() && H.Linked(c, peer) && c.isOpen && out !in c.Repr() + peer.Repr()
    modifies c, c.incoming, c.framer, c.framer.ring, c.framer.ring.buffer, c.recvBuffer, out
    ensures c.Valid() && peer.Valid() && c.queued == old(c.queued)
    ensures recv == RecvFailed <==> !c.isOpen
    ensures c.isOpen ==> (Busy(c) <==> old(Busy(c)))
    ensures match recv
      case Received(r) => |c.received| == |old(c.received)| + 1 && c.received[..|old(c.received)|] == old(c.received)
                          && parse(c.received[|old(c.received)|]) == r
      case _ => c.received == old(c.received)
  {
    hide P.FrameOf, P.IsPacket, Flatten, F.AllPackets, F.Framer.Valid, F.Framer.Contents;
    var status, len, _ := c.RecvPacket(out);
    recv := if status == OK then Received(parse(out[..len])) else if status == NeedMoreData then Nothing
        else RecvFailed;
  }

  method QueueSlot(c: TcpConnection, peer: TcpConnection, f: Framing) returns (ok: bool)
    requires c.Valid() && peer.Valid() && H.Linked(c, peer) && c.isOpen && !Busy(c)
    modifies c, c.sendQueue
    ensures c.Valid() && peer.Valid() && c.isOpen && c.received == old(c.received)
    ensures ok <==> Packs(f)
    ensures c.queued == old(c.queued) + (if ok then [Bytes(f)] else [])
    ensures Busy(c) <==> ok
  {
    hide P.FrameOf, P.IsPacket, P.Validate, P.WellFormed, P.PackStatus, Flatten, F.AllPackets, F.Framer.Valid,
      F.Framer.Contents;
    var status := c.QueuePacket(f.header, f.body);
    ok := status == OK;
    if ok { assert |c.Pending()| == |Bytes(f)|; } else { assert |c.Pending()| == 0; }
  }

  method CloseSlot(c: TcpConnection, peer: TcpConnection)
    requires c.Valid() && peer.Valid() && H.Linked(c, peer)
    modifies c, c.framer, c.framer.ring
    ensures c.Valid() && peer.Valid() && !c.isOpen && c.queued == old(c.queued) && c.received == old(c.received)
  {
    hide P.FrameOf, P.IsPacket, Flatten, F.AllPackets, F.Framer.Valid, F.Framer.Contents;
    c.SenderSettled();
    c.ReceiverSettled();
    c.Close();
  }

  /** Give a connection what was logged for it between `d` and `e`, and close it if the server did. */
  method Deliver(c: TcpConnection, peer: TcpConnection, ghost d: Client, e: Client, given: seq<Packet>,
      f: Packet -> Framing)
      returns (carried: bool)
    requires c.Valid() && peer.Valid() && H.Linked(c, peer) && Carried(d, e, given)
    requires c.isOpen ==> Mirrors(c, d)
    requires !c.isOpen ==> given == [] && !e.isOpen
    modifies c.Repr()
    ensures c.Valid() && peer.Valid() && c.received == old(c.received)
    ensures carried <==> given == [] || Packs(f(given[0]))
    ensures carried ==> Mirrors(c, e) && |given| <= 1 &&
                        c.queued == old(c.queued) + (if given == [] then [] else [Bytes(f(given[0]))])
    ensures !carried ==> c.queued == old(c.queued)
  {
    hide TcpConnection.Valid;
    carried := true;
    if given != [] {
      carried := QueueSlot(c, peer, f(given[0]));
      if !carried {
        return;
      }
    }
    if c.isOpen && !e.isOpen {
      CloseSlot(c, peer);
    }
  }

  // ----- one event of the server -----

  /** What an event logs for a slot. */
  function GivenIn(s: Server, e: Event, i: Slot): seq<Packet>
  {
    var t := Step(s, e);
    if s.log <= t.log then SlotPackets(t.log[|s.log|..], i) else []
  }

  /** What an event reads from a slot. */
  function AskedIn(s: Server, e: Event, i: Slot): seq<Request>
  {
    if e.Turn? && e.i == i && SubmittedIn(s, e) != [] then [SubmittedIn(s, e)[0].request] else []
  }

  /** The same event, except that the connection decides how a turn of its own slot goes. */
  predicate SameEvent(e: Event, f: Event, i: Slot)
  {
    e == f || (e.Turn? && f.Turn? && e.i == i && f.i == i)
  }

  lemma CloseGivesNothing(s: Server, i: Slot)
    ensures s.log <= CloseClient(s, i).log && SlotPackets(CloseClient(s, i).log[|s.log|..], i) == []
    ensures !CloseClient(s, i).clients[i].isOpen
  {
    hide ClearCallsFrom, Carried;
    var c := s.clients[i];
    var userId := if c.authenticated then c.userId else 0;
    var s1 := if c.isOpen then s.(clients := s.clients[i := c.(isOpen := false, pending := None)]) else s;
    var s2 := ClearCallsFor(ClearTransfersFor(s1, userId), userId);
    MovesRefl(LinesOf(s1), []);
    ClearCallsMoves(ClearTransfersFor(s1, userId), userId, 0, []);
    assert CarriedAt(LinesOf(s1), LinesOf(s2), i);
    ClosedGetsNothing(s1.clients[i], s2.clients[i], SlotPackets(s2.log[|s1.log|..], i));
  }

  lemma ClosedGetsNothing(c: Client, d: Client, given: seq<Packet>)
    requires Carried(c, d, given) && !c.isOpen
    ensures given == []
  {
  }

  /** What an event does to an open connection: what it logs is carried, and a failure closes it at once. */
  lemma EventGives(s: Server, e: Event, i: Slot)
    requires s.clients[i].isOpen
    ensures s.log <= Step(s, e).log && GivenIn(s, e, i) == SlotPackets(Step(s, e).log[|s.log|..], i)
    ensures Carried(AfterFlush(s, e).clients[i], Step(s, e).clients[i], GivenIn(s, e, i))
    ensures e.Turn? && e.i == i && (e.io.flush == FlushFailed || e.io.recv == RecvFailed) ==>
              GivenIn(s, e, i) == [] && !Step(s, e).clients[i].isOpen
  {
    hide Moves, Carried, CloseClient, Dispatch, AcceptClients;
    if e.Arrive? {
      AcceptKeepsOpen(s, e.n);
      ArriveGives(s.clients[i], s.log, i);
    } else {
      StepMoves(s, e);
      MovesAt(LinesOf(AfterFlush(s, e)), LinesOf(Step(s, e)), SubmittedIn(s, e), i);
      if e.Turn? && e.i == i {
        CloseGivesNothing(s, i);
        CloseGivesNothing(AfterFlush(s, e), i);
      }
    }
  }

  lemma ArriveGives(c: Client, log: seq<Entry>, i: nat)
    requires c.isOpen
    ensures Carried(c, c, SlotPackets(log[|log|..], i))
  {
  }

  lemma MovesAt(a: Lines, b: Lines, sent: seq<Submission>, i: nat)
    requires Moves(a, b, sent) && i < |a.clients|
    ensures a.log <= b.log && |a.clients| == |b.clients| && CarriedAt(a, b, i)
  {
  }

  /** The flush and the read of a turn, done on the connection. */
  method TurnOver(c: TcpConnection, peer: TcpConnection, out: array<byte>, parse: seq<byte> -> Request, ghost d: Client)
      returns (io: ClientIo)
    requires c.Valid() && peer.Valid() && H.Linked(c, peer) && out !in c.Repr() + peer.Repr()
    requires c.isOpen && Mirrors(c, d)
    modifies c, c.outgoing, c.incoming, c.framer, c.framer.ring, c.framer.ring.buffer, c.recvBuffer, out
    ensures c.Valid() && peer.Valid() && c.queued == old(c.queued)
    ensures c.isOpen ==> Mirrors(c, if io.flush == Sent then d.(pending := None) else d)
    ensures !c.isOpen <==> io.flush == FlushFailed || io.recv == RecvFailed
    ensures AllRequests(parse, c.received) == AllRequests(parse, old(c.received)) +
              (if io.flush != FlushFailed && io.recv.Received? then [io.recv.request] else [])
  {
    hide TcpConnection.Valid, AllRequests;
    ghost var before := c.received;
    var flush := FlushSlot(c, peer);
    var recv := Nothing;
    if flush != FlushFailed {
      recv := ReadSlot(c, peer, out, parse);
    }
    io := ClientIo(flush, recv);
    RequestsRead(parse, before, c.received, if recv.Received? then [recv.request] else []);
  }

  lemma RequestsRead(parse: seq<byte> -> Request, before: seq<seq<byte>>, after: seq<seq<byte>>, read: seq<Request>)
    requires |after| == |before| + |read| && after[..|before|] == before && |read| <= 1
    requires read != [] ==> parse(after[|before|]) == read[0]
    ensures AllRequests(parse, after) == AllRequests(parse, before) + read
  {
    assert forall k :: 0 <= k < |before| ==> after[k] == after[..|before|][k];
  }

  /** One event, with the turn of slot `i` done on its connection. */
  method StepOver(s: Server, i: Slot, planned: Event, c: TcpConnection, peer: TcpConnection, out: array<byte>,
      parse: seq<byte> -> Request, f: Packet -> Framing) returns (e: Event, carried: bool)
    requires c.Valid() && peer.Valid() && H.Linked(c, peer) && out !in c.Repr() + peer.Repr()
    requires s.clients[i].isOpen && Mirrors(c, s.clients[i])
    modifies c.Repr(), c.outgoing, c.incoming, out
    ensures c.Valid() && peer.Valid() && SameEvent(planned, e, i)
    ensures AllRequests(parse, c.received) == AllRequests(parse, old(c.received)) + AskedIn(s, e, i)
    ensures var given := GivenIn(s, e, i);
      && (carried <==> given == [] || Packs(f(given[0])))
      && (carried ==> Mirrors(c, Step(s, e).clients[i]) && |given| <= 1 &&
                      c.queued == old(c.queued) + (if given == [] then [] else [Bytes(f(given[0]))]))
      && (!carried ==> c.queued == old(c.queued))
  {
    hide TcpConnection.Valid, Step, Carried, GivenIn, AllRequests;
    e := planned;
    if planned.Turn? && planned.i == i {
      var io := TurnOver(c, peer, out, parse, s.clients[i]);
      e := Turn(i, io);
    }
    EventGives(s, e, i);
    carried := Deliver(c, peer, AfterFlush(s, e).clients[i], Step(s, e).clients[i], GivenIn(s, e, i), f);
  }

  // ----- the life of a connection -----

  /** What a run logs for a slot, and what it reads from it. */
  function Given(s: Server, events: seq<Event>, i: Slot): seq<Packet>
    decreases |events|
  {
    if events == [] then [] else GivenIn(s, events[0], i) + Given(Step(s, events[0]), events[1..], i)
  }

  function Asked(s: Server, events: seq<Event>, i: Slot): seq<Request>
    decreases |events|
  {
    if events == [] then [] else AskedIn(s, events[0], i) + Asked(Step(s, events[0]), events[1..], i)
  }

  lemma {:induction false} RunSnoc(s: Server, events: seq<Event>, e: Event, i: Slot)
    ensures Run(s, events + [e]) == Step(Run(s, events), e)
    ensures Given(s, events + [e], i) == Given(s, events, i) + GivenIn(Run(s, events), e, i)
    ensures Asked(s, events + [e], i) == Asked(s, events, i) + AskedIn(Run(s, events), e, i)
    decreases |events|
  {
    hide Step, GivenIn, AskedIn;
    if events == [] {
      assert [e][1..] == [];
    } else {
      var s1, rest := Step(s, events[0]), events[1..];
      assert (events + [e])[1..] == rest + [e];
      RunSnoc(s1, rest, e, i);
      Reassociate(GivenIn(s, events[0], i), Given(s1, rest, i), GivenIn(Run(s, events), e, i));
      Reassociate(AskedIn(s, events[0], i), Asked(s1, rest, i), AskedIn(Run(s, events), e, i));
    }
  }

  /** A run in which every event finds the slot open logs for it exactly what its log entries say. */
  lemma {:induction false} GivenIsLogged(s: Server, events: seq<Event>, i: Slot)
    requires forall k :: 0 <= k < |events| ==> Run(s, events[..k]).clients[i].isOpen
    ensures s.log <= Run(s, events).log && SlotPackets(Run(s, events).log[|s.log|..], i) == Given(s, events, i)
    decreases |events|
  {
    hide Step, Carried, Run, Given, GivenIn, Asked, SlotPackets, AfterFlush;
    if events == [] {
      NothingGiven(s, i);
    } else {
      var n := |events| - 1;
      var before, last := events[..n], events[n];
      forall k | 0 <= k < n ensures Run(s, before[..k]).clients[i].isOpen {
        assert before[..k] == events[..k];
      }
      GivenIsLogged(s, before, i);
      var s1, t := Run(s, before), Run(s, events);
      assert before + [last] == events;
      RunSnoc(s, before, last, i);
      EventGives(s1, last, i);
      LogGrows(s.log, s1.log, t.log, i);
    }
  }

  lemma NothingGiven(s: Server, i: Slot)
    ensures Run(s, []) == s && Given(s, [], i) == SlotPackets(s.log[|s.log|..], i)
  {
    assert s.log[|s.log|..] == [];
  }

  lemma LogGrows(a: seq<Entry>, b: seq<Entry>, c: seq<Entry>, i: Slot)
    requires a <= b <= c
    ensures SlotPackets(c[|a|..], i) == SlotPackets(b[|a|..], i) + SlotPackets(c[|b|..], i)
  {
    assert c[|a|..] == b[|a|..] + c[|b|..];
    SlotPacketsAppend(b[|a|..], c[|b|..], i);
  }

  datatype Act = AtServer(event: Event) | AtPeer(op: H.Event)

  function ServerEvents(plan: seq<Act>): seq<Event>
  {
    if plan == [] then []
    else
      var last := plan[|plan| - 1];
      ServerEvents(plan[..|plan| - 1]) + (if last.AtServer? then [last.event] else [])
  }

  /** The first events of a plan, as the connection lets them happen. */
  predicate IsPlayed(events: seq<Event>, planned: seq<Event>, i: Slot)
  {
    |events| <= |planned| && forall k :: 0 <= k < |events| ==> SameEvent(planned[k], events[k], i)
  }

  lemma PlanStep(plan: seq<Act>, n: nat)
    requires n < |plan|
    ensures ServerEvents(plan[..n + 1]) == ServerEvents(plan[..n]) + (if plan[n].AtServer? then [plan[n].event] else [])
  {
    assert plan[..n + 1][..n] == plan[..n];
  }

  /** One more act of the plan, played as `more`. */
  lemma PlayedOn(events: seq<Event>, more: seq<Event>, plan: seq<Act>, n: nat, i: Slot)
    requires n < |plan| && IsPlayed(events, ServerEvents(plan[..n]), i)
    requires more != [] ==>
      && |more| == 1 && plan[n].AtServer? && SameEvent(plan[n].event, more[0], i)
      && |events| == |ServerEvents(plan[..n])|
    ensures IsPlayed(events + more, ServerEvents(plan[..n + 1]), i) && IsPlayed(events + more, ServerEvents(plan), i)
    ensures more != [] || plan[n].AtPeer? ==>
      |ServerEvents(plan[..n + 1])| - |events + more| == |ServerEvents(plan[..n])| - |events|
  {
    hide ServerEvents, SameEvent;
    PlanStep(plan, n);
    PlanRest(plan, n + 1);
  }

  lemma AllBytesSnoc(frame: (nat, Packet) -> Framing, told: seq<Packet>, given: seq<Packet>)
    requires |given| <= 1
    ensures AllBytes(frame, told + given)
         == AllBytes(frame, told) + (if given == [] then [] else [Bytes(frame(|told|, given[0]))])
  {
  }

  /** The connection and the server's table agree, and so do what was queued and what was logged, what was
      received and what was read; or a packet was logged that cannot be packed. */
  ghost predicate InStep(s0: Server, i: Slot, events: seq<Event>, c: TcpConnection, parse: seq<byte> -> Request,
      frame: (nat, Packet) -> Framing, carried: bool)
    reads c
  {
    var told := Given(s0, events, i);
    && AllRequests(parse, c.received) == Asked(s0, events, i)
    && (forall k :: 0 <= k < |events| ==> Run(s0, events[..k]).clients[i].isOpen)
    && (carried ==> Mirrors(c, Run(s0, events).clients[i]) && c.queued == AllBytes(frame, told))
    && (!carried ==> c.queued <= AllBytes(frame, told) && CannotPack(frame, told))
  }

  predicate CannotPack(frame: (nat, Packet) -> Framing, told: seq<Packet>)
  {
    exists k :: 0 <= k < |told| && !Packs(frame(k, told[k]))
  }

  lemma PrefixesOpen(s0: Server, events: seq<Event>, e: Event, i: Slot)
    requires Run(s0, events).clients[i].isOpen
    requires forall k :: 0 <= k < |events| ==> Run(s0, events[..k]).clients[i].isOpen
    ensures forall k :: 0 <= k < |events + [e]| ==> Run(s0, (events + [e])[..k]).clients[i].isOpen
  {
    forall k | 0 <= k < |events + [e]| ensures Run(s0, (events + [e])[..k]).clients[i].isOpen {
      if k < |events| { assert (events + [e])[..k] == events[..k]; } else { assert (events + [e])[..k] == events; }
    }
  }

  /** One more event of the run. */
  method PlayEvent(s0: Server, i: Slot, events: seq<Event>, planned: Event, told: seq<Packet>, c: TcpConnection,
      peer: TcpConnection, out: array<byte>, parse: seq<byte> -> Request, frame: (nat, Packet) -> Framing)
      returns (e: Event, carried: bool)
    requires c.Valid() && peer.Valid() && H.Linked(c, peer) && out !in c.Repr() + peer.Repr()
    requires InStep(s0, i, events, c, parse, frame, true) && Run(s0, events).clients[i].isOpen
    requires told == Given(s0, events, i)
    modifies c.Repr(), c.outgoing, c.incoming, out
    ensures c.Valid() && peer.Valid() && SameEvent(planned, e, i)
    ensures InStep(s0, i, events + [e], c, parse, frame, carried)
  {
    hide TcpConnection.Valid, Step, GivenIn, AskedIn, Run, Given, Asked, Packs;
    var s := Run(s0, events);
    e, carried := StepOver(s, i, planned, c, peer, out, parse, p => frame(|told|, p));
    RunSnoc(s0, events, e, i);
    PrefixesOpen(s0, events, e, i);
    ghost var given := GivenIn(s, e, i);
    if carried { AllBytesSnoc(frame, told, given); } else { Unpacked(frame, told, given); }
  }

  lemma Unpacked(frame: (nat, Packet) -> Framing, told: seq<Packet>, given: seq<Packet>)
    requires given != [] && !Packs(frame(|told|, given[0]))
    ensures AllBytes(frame, told) <= AllBytes(frame, told + given) && CannotPack(frame, told + given)
  {
    assert (told + given)[|told|] == given[0];
  }

  /** From the moment a connection is accepted, whatever else happens at the server and whatever the network
      does: the requests the server reads from it are a prefix of the packets its peer queued, and the peer
      receives a prefix of the packets the server logged for it, in order and byte for byte. Every packet
      the server counts as queued is taken by the connection, unless it cannot be packed at all; and once a
      direction is drained, the prefix is everything. */
  method Live(s0: Server, i: Slot, plan: seq<Act>, c: TcpConnection, peer: TcpConnection, out: array<byte>,
      peerOut: array<byte>, parse: seq<byte> -> Request, frame: (nat, Packet) -> Framing)
      returns (events: seq<Event>, carried: bool)
    requires c.Valid() && peer.Valid() && H.Linked(c, peer)
    requires out !in c.Repr() + peer.Repr() && peerOut !in c.Repr() + peer.Repr()
    requires c.queued == c.received == peer.queued == peer.received == []
    requires s0.clients[i].isOpen && Mirrors(c, s0.clients[i])
    modifies c.Repr(), peer.Repr(), c.outgoing, c.incoming, out, peerOut
    ensures c.Valid() && peer.Valid() && c.framer.Valid() && c.incoming.Valid() && peer.framer.Valid()
        && peer.incoming.Valid()
    ensures H.Fifo(c, peer) && H.Fifo(peer, c)
    ensures IsPlayed(events, ServerEvents(plan), i)
    ensures var t := Run(s0, events);
      && (carried && t.clients[i].isOpen ==> |events| == |ServerEvents(plan)|)
      && s0.log <= t.log
      && var told := SlotPackets(t.log[|s0.log|..], i);
      && (carried ==> Mirrors(c, t.clients[i]) && c.queued == AllBytes(frame, told))
      && (!carried ==> CannotPack(frame, told))
      && peer.received <= AllBytes(frame, told)
    ensures Asked(s0, events, i) == AllRequests(parse, c.received) && c.received <= peer.queued
  {
    hide TcpConnection.Valid, Run, Given, Asked, SlotPackets, CannotPack, ServerEvents, IsPlayed, AllBytes, AllRequests;
    events, carried := [], true;
    PlayedNone(plan, i);
    StartsInStep(s0, i, c, parse, frame);
    for n := 0 to |plan|
      invariant c.Valid() && peer.Valid() && InStep(s0, i, events, c, parse, frame, true)
      invariant IsPlayed(events, ServerEvents(plan[..n]), i)
      invariant Run(s0, events).clients[i].isOpen ==> |events| == |ServerEvents(plan[..n])|
    {
      ghost var before := events;
      match plan[n] {
      case AtPeer(op) =>
        H.Perform(peer, c, op, peerOut);
        PlayedOn(before, [], plan, n, i);
        assert before + [] == before;
      case AtServer(planned) =>
        if Run(s0, events).clients[i].isOpen {
          var e;
          e, carried := PlayEvent(s0, i, events, planned, Given(s0, events, i), c, peer, out, parse, frame);
          events := events + [e];
          PlayedOn(before, [e], plan, n, i);
          if !carried {
            break;
          }
        } else {
          PlayedOn(before, [], plan, n, i);
          assert before + [] == before;
        }
      }
    }
    assert plan[..|plan|] == plan;
    GivenIsLogged(s0, events, i);
    H.FifoBothWays(c, peer);
  }

  lemma PlayedNone(plan: seq<Act>, i: Slot)
    ensures ServerEvents(plan[..0]) == [] && IsPlayed([], ServerEvents(plan[..0]), i)
  {
  }

  lemma StartsInStep(s0: Server, i: Slot, c: TcpConnection, parse: seq<byte> -> Request,
      frame: (nat, Packet) -> Framing)
    requires c.queued == c.received == [] && Mirrors(c, s0.clients[i])
    ensures InStep(s0, i, [], c, parse, frame, true)
  {
  }

  lemma {:induction false} PlanRest(plan: seq<Act>, n: nat)
    requires n <= |plan|
    ensures ServerEvents(plan[..n]) <= ServerEvents(plan)
    decreases |plan|
  {
    if n == |plan| {
      assert plan[..n] == plan;
    } else {
      var rest := plan[..|plan| - 1];
      PlanRest(rest, n);
      assert rest[..n] == plan[..n];
    }
  }
}
