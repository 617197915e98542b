/** What the turns of the server put on each connection, and where what it tells others of comes from. */
module Traffic {
  import opened Wire
  import opened Server
  import opened ServerSteps
  import S = Storage

  /** A request and the user logged in on the connection it came from. */
  datatype Submission = Submission(user: nat, request: Request)

  /** The submission is what the packet tells its addressee of, with the submitted contents; a hang-up without
      a signal may also be the server's own. */
  predicate Tells(p: Packet, x: Submission)
  {
    match p
    case ChatNotify(_, _, from, to, content) =>
      x.user == from && x.request.Chat? && x.request.receiver == to && x.request.content == content
    case GroupNotify(id, _, from, _, content) =>
      x.user == from && x.request.GroupSend? && x.request.conversationId == id && x.request.content == content
    case CallNotify(op, id, from, to, _, signal) =>
      && x.user == from && x.request.CallRequest? && x.request.op == op
      && (if op == Invite then x.request.peerId == to else x.request.callId == id && x.request.signal == signal)
    case FileStart(_, _, _, from, to, name, size, crc) =>
      && x.user == from && x.request.StartFile? && x.request.receiver == to && x.request.fileName == name
      && x.request.fileSize == size && x.request.crc32 == crc
    case FileChunk(id, index, from, _, data) => x == Submission(from, SendChunk(id, index, data))
    case FileComplete(id, from, _) => x == Submission(from, CompleteFile(id))
    case _ => true
  }

  predicate IsTold(p: Packet)
  {
    !p.Reply? && !p.UserList? && !p.HeartbeatReply? && !(p.CallNotify? && p.op == Hangup && p.signal == NO_SIGNAL)
  }

  predicate ComesFrom(p: Packet, sent: seq<Submission>)
  {
    IsTold(p) ==> exists k :: 0 <= k < |sent| && Tells(p, sent[k])
  }

  lemma ComesFromIt(p: Packet, x: Submission)
    requires Tells(p, x)
    ensures ComesFrom(p, [x])
  {
    assert Tells(p, [x][0]);
  }

  /** The packets logged for one slot, in order. */
  function SlotPackets(log: seq<Entry>, i: nat): seq<Packet>
    decreases |log|
  {
    if log == [] then []
    else (if log[0].slot == i then [log[0].packet] else []) + SlotPackets(log[1..], i)
  }

  lemma {:induction false} SlotPacketsAppend(a: seq<Entry>, b: seq<Entry>, i: nat)
    ensures SlotPackets(a + b, i) == SlotPackets(a, i) + SlotPackets(b, i)
    decreases |a|
  {
    if a == [] {
      assert a + b == b;
    } else {
      SlotPacketsAppend(a[1..], b, i);
      assert (a + b)[1..] == a[1..] + b;
    }
  }

  /** The packet, if any, that a connection's send slot holds. */
  function Held(c: Client): seq<Packet>
  {
    if c.pending.Some? then [c.pending.value] else []
  }

  /** A connection was given some packets: at most one packet and only into a free slot, where it stays while the
      connection does; a closed connection is given nothing and stays closed. */
  predicate Carried(c: Client, d: Client, given: seq<Packet>)
  {
    && |Held(c) + given| <= 1
    && (!c.isOpen ==> given == [] && !d.isOpen)
    && (d.isOpen ==> Held(d) == Held(c) + given)
  }

  datatype Lines = Lines(clients: seq<Client>, log: seq<Entry>)

  function LinesOf(s: Server): Lines { Lines(s.clients, s.log) }

  /** From `a` to `b` every connection has carried what was logged for it, and others are told only of what is
      in `sent`. */
  predicate Moves(a: Lines, b: Lines, sent: seq<Submission>)
  {
    && a.log <= b.log && |a.clients| == |b.clients|
    && (forall k :: |a.log| <= k < |b.log| ==> ComesFrom(b.log[k].packet, sent))
    && (forall j :: 0 <= j < |a.clients| ==> CarriedAt(a, b, j))
  }

  predicate CarriedAt(a: Lines, b: Lines, j: nat)
    requires a.log <= b.log && |a.clients| == |b.clients| && j < |a.clients|
  {
    Carried(a.clients[j], b.clients[j], SlotPackets(b.log[|a.log|..], j))
  }

  lemma MovesTrans(a: Lines, b: Lines, c: Lines, sent: seq<Submission>)
    requires Moves(a, b, sent) && Moves(b, c, sent)
    ensures Moves(a, c, sent)
  {
    hide Carried, ComesFrom, SlotPackets;
    forall k | |a.log| <= k < |c.log| ensures ComesFrom(c.log[k].packet, sent) {
      if k < |b.log| { assert c.log[k] == b.log[k]; }
    }
    forall j | 0 <= j < |a.clients| ensures CarriedAt(a, c, j) {
      assert CarriedAt(a, b, j) && CarriedAt(b, c, j);
      assert c.log[|a.log|..] == b.log[|a.log|..] + c.log[|b.log|..];
      SlotPacketsAppend(b.log[|a.log|..], c.log[|b.log|..], j);
      CarriedTrans(a.clients[j], b.clients[j], c.clients[j], SlotPackets(b.log[|a.log|..], j),
          SlotPackets(c.log[|b.log|..], j));
    }
  }

  lemma CarriedTrans(c: Client, d: Client, e: Client, first: seq<Packet>, more: seq<Packet>)
    requires Carried(c, d, first) && Carried(d, e, more)
    ensures Carried(c, e, first + more)
  {
    Reassociate(Held(c), first, more);
  }

  /** Nothing is logged; connections may close, and who is logged in on them may change. */
  lemma SilentMoves(a: Lines, b: Lines, sent: seq<Submission>)
    requires a.log == b.log && |a.clients| == |b.clients|
    requires forall j :: 0 <= j < |a.clients| ==>
               !b.clients[j].isOpen || (a.clients[j].isOpen && a.clients[j].pending == b.clients[j].pending)
    ensures Moves(a, b, sent)
  {
    forall j | 0 <= j < |a.clients| ensures CarriedAt(a, b, j) {
      assert b.log[|a.log|..] == [];
      assert !b.clients[j].isOpen || a.clients[j].isOpen;
    }
  }

  lemma MovesRefl(a: Lines, sent: seq<Submission>)
    ensures Moves(a, a, sent)
  {
    hide Moves;
    SilentMoves(a, a, sent);
  }

  lemma QueueMoves(s: Server, i: Slot, p: Packet, sent: seq<Submission>)
    requires ComesFrom(p, sent)
    ensures Moves(LinesOf(s), LinesOf(Queue(s, i, p).server), sent)
  {
    var o := Queue(s, i, p);
    if o.status == OK {
      var t := o.server;
      assert t.log[|s.log|..] == [EntryFor(s, i, p)];
      forall j | 0 <= j < MAX_CLIENTS ensures CarriedAt(LinesOf(s), LinesOf(t), j) {
        OneEntry(EntryFor(s, i, p), j);
      }
    } else {
      MovesRefl(LinesOf(s), sent);
    }
  }

  lemma OneEntry(e: Entry, j: nat)
    ensures SlotPackets([e], j) == if e.slot == j then [e.packet] else []
  {
    assert [e][1..] == [];
  }

  lemma QueueAfter(a: Lines, s: Server, i: Slot, p: Packet, sent: seq<Submission>)
    requires Moves(a, LinesOf(s), sent) && ComesFrom(p, sent)
    ensures Moves(a, LinesOf(Queue(s, i, p).server), sent)
  {
    hide Queue, Moves;
    QueueMoves(s, i, p, sent);
    MovesTrans(a, LinesOf(s), LinesOf(Queue(s, i, p).server), sent);
  }

  // ----- closing -----

  lemma {:induction false} ClearCallsMoves(s: Server, userId: nat, k: nat, sent: seq<Submission>)
    requires k <= MAX_CLIENTS
    ensures Moves(LinesOf(s), LinesOf(ClearCallsFrom(s, userId, k)), sent)
    decreases MAX_CLIENTS - k
  {
    hide Queue, Moves;
    MovesRefl(LinesOf(s), sent);
    if k == MAX_CLIENTS {
    } else {
      if s.calls[k].active && InCall(s.calls[k], userId) {
        var c := s.calls[k];
        var peerId := PeerOf(c, userId);
        var peer := FindUser(s.clients, peerId);
        var hangup := CallNotify(Hangup, c.id, userId, peerId, c.media, NO_SIGNAL);
        assert ComesFrom(hangup, sent);
        if peer < MAX_CLIENTS { QueueMoves(s, peer, hangup, sent); }
        var s1 := DropCall(s, k, userId);
        ClearCallsMoves(s1, userId, k + 1, sent);
        MovesTrans(LinesOf(s), LinesOf(s1), LinesOf(ClearCallsFrom(s1, userId, k + 1)), sent);
      } else {
        ClearCallsMoves(s, userId, k + 1, sent);
      }
    }
  }

  lemma CloseMoves(s: Server, i: Slot, sent: seq<Submission>)
    ensures Moves(LinesOf(s), LinesOf(CloseClient(s, i)), sent)
  {
    hide Moves, ClearCallsFrom;
    var c := s.clients[i];
    var userId := if c.authenticated then c.userId else 0;
    var s1 := if c.isOpen then s.(clients := s.clients[i := c.(isOpen := false, pending := None)]) else s;
    var s2 := ClearCallsFor(ClearTransfersFor(s1, userId), userId);
    SilentMoves(LinesOf(s), LinesOf(s1), sent);
    MovesRefl(LinesOf(s1), sent);
    ClearCallsMoves(ClearTransfersFor(s1, userId), userId, 0, sent);
    MovesTrans(LinesOf(s), LinesOf(s1), LinesOf(s2), sent);
    var t := s2.(clients := s2.clients[i := NO_CLIENT]);
    SilentMoves(LinesOf(s2), LinesOf(t), sent);
    MovesTrans(LinesOf(s), LinesOf(s2), LinesOf(t), sent);
  }

  lemma CloseAfter(a: Lines, s: Server, i: Slot, sent: seq<Submission>)
    requires Moves(a, LinesOf(s), sent)
    ensures Moves(a, LinesOf(CloseClient(s, i)), sent)
  {
    hide CloseClient, Moves;
    CloseMoves(s, i, sent);
    MovesTrans(a, LinesOf(s), LinesOf(CloseClient(s, i)), sent);
  }

  lemma {:induction false} KickMoves(s: Server, i: Slot, userId: nat, k: nat, sent: seq<Submission>)
    requires k <= MAX_CLIENTS
    ensures Moves(LinesOf(s), LinesOf(KickOthersFrom(s, i, userId, k)), sent)
    decreases MAX_CLIENTS - k
  {
    hide Moves, CloseClient;
    MovesRefl(LinesOf(s), sent);
    if k == MAX_CLIENTS {
    } else {
      CloseMoves(s, k, sent);
      var s1 := if k != i && IsUser(s.clients[k], userId) then CloseClient(s, k) else s;
      KickMoves(s1, i, userId, k + 1, sent);
      MovesTrans(LinesOf(s), LinesOf(s1), LinesOf(KickOthersFrom(s1, i, userId, k + 1)), sent);
    }
  }

  lemma AuthenticateMoves(s: Server, i: Slot, userId: nat, username: string, sent: seq<Submission>)
    ensures Moves(LinesOf(s), LinesOf(Authenticate(s, i, userId, username)), sent)
  {
    hide Moves, KickOthersFrom;
    var s1, t := KickOthersFrom(s, i, userId, 0), Authenticate(s, i, userId, username);
    KickMoves(s, i, userId, 0, sent);
    SilentMoves(LinesOf(s1), LinesOf(t), sent);
    MovesTrans(LinesOf(s), LinesOf(s1), LinesOf(t), sent);
  }

  // ----- the handlers -----

  /** What the handlers do with connections, besides logging in: queue replies, and notifies of the request. */
  lemma Queues(a: Lines, x: Submission)
    ensures Moves(a, a, [x])
    ensures forall s: Server, i: Slot, p: Packet {:trigger Queue(s, i, p)} ::
              Moves(a, LinesOf(s), [x]) && (!IsTold(p) || Tells(p, x)) ==> Moves(a, LinesOf(Queue(s, i, p).server), [x])
  {
    hide Moves, Queue, Tells, IsTold;
    MovesRefl(a, [x]);
    forall s: Server, i: Slot, p: Packet | Moves(a, LinesOf(s), [x]) && (!IsTold(p) || Tells(p, x))
      ensures Moves(a, LinesOf(Queue(s, i, p).server), [x])
    {
      if IsTold(p) { ComesFromIt(p, x); }
      QueueAfter(a, s, i, p, [x]);
    }
  }

  function From(s: Server, i: Slot, r: Request): Submission { Submission(s.clients[i].userId, r) }

  lemma AuthMoves(s: Server, i: Slot, r: Request)
    requires r.Register? || r.Login?
    ensures Moves(LinesOf(s), LinesOf(Dispatch(s, i, r).server), [From(s, i, r)])
  {
    hide Moves, Authenticate, Queue, S.CreateAccount, S.UpdateLastLogin, S.FindAccountByName;
    Queues(LinesOf(s), From(s, i, r));
    forall s0: Server, userId: nat, username: string | LinesOf(s0) == LinesOf(s)
      ensures Moves(LinesOf(s), LinesOf(Authenticate(s0, i, userId, username)), [From(s, i, r)])
    {
      AuthenticateMoves(s0, i, userId, username, [From(s, i, r)]);
    }
  }

  lemma {:induction false} FanOutMoves(a: Lines, s: Server, i: Slot, members: seq<nat>, conversationId: nat,
        messageId: nat, content: string, x: Submission)
    requires Moves(a, LinesOf(s), [x])
    requires x.user == s.clients[i].userId && x.request.GroupSend?
    requires x.request.conversationId == conversationId && x.request.content == content
    ensures Moves(a, LinesOf(FanOut(s, i, members, conversationId, messageId, content)), [x])
    decreases |members|
  {
    hide Moves, Queue;
    if members == [] {
    } else {
      var sender, member := s.clients[i].userId, members[0];
      var peer := FindUser(s.clients, member);
      var p := GroupNotify(conversationId, messageId, sender, member, content);
      var s1 := if member == sender || peer == MAX_CLIENTS then s else Queue(s, peer, p).server;
      if s1 != s {
        ComesFromIt(p, x);
        QueueAfter(a, s, peer, p, [x]);
        SameUser(s, peer, p, i);
      }
      FanOutMoves(a, s1, i, members[1..], conversationId, messageId, content, x);
    }
  }

  lemma SameUser(s: Server, j: Slot, p: Packet, i: Slot)
    ensures Queue(s, j, p).server.clients[i].userId == s.clients[i].userId
  {
  }

  lemma MessagesMove(s: Server, i: Slot, r: Request)
    requires r.Chat? || r.GroupCreate? || r.GroupSend?
    ensures Moves(LinesOf(s), LinesOf(Dispatch(s, i, r).server), [From(s, i, r)])
  {
    hide Moves, Queue, FanOut, S.StorePrivateMessage, S.CreateGroup, S.StoreGroupMessage, S.ListGroupMembers;
    var x := From(s, i, r);
    Queues(LinesOf(s), x);
    if r.GroupSend? {
      forall s0: Server, p: Packet ensures Queue(s0, i, p).server.clients[i].userId == s0.clients[i].userId {
        SameUser(s0, i, p, i);
      }
      forall s0: Server, members: seq<nat>, m: nat
        | Moves(LinesOf(s), LinesOf(s0), [x]) && s0.clients[i].userId == x.user
        ensures Moves(LinesOf(s), LinesOf(FanOut(s0, i, members, r.conversationId, m, r.content)), [x])
      {
        FanOutMoves(LinesOf(s), s0, i, members, r.conversationId, m, r.content, x);
      }
    }
  }

  lemma FilesMove(s: Server, i: Slot, r: Request)
    requires r.StartFile? || r.CompleteFile?
    ensures Moves(LinesOf(s), LinesOf(Dispatch(s, i, r).server), [From(s, i, r)])
  {
    hide Moves, Queue, S.StoreFileTransfer, S.CompleteFileTransfer;
    Queues(LinesOf(s), From(s, i, r));
  }

  lemma ChunkMoves(s: Server, i: Slot, r: Request)
    requires r.SendChunk?
    ensures Moves(LinesOf(s), LinesOf(Dispatch(s, i, r).server), [From(s, i, r)])
  {
    hide Moves, Queue;
    Queues(LinesOf(s), From(s, i, r));
  }

  lemma ForwardMoves(a: Lines, s: Server, i: Slot, k: Slot, op: CallOp, callId: nat, signal: Signal, x: Submission)
    requires Moves(a, LinesOf(s), [x]) && x.user == s.clients[i].userId && s.calls[k].id == callId && op != Invite
    requires x.request.CallRequest? && x.request.op == op && x.request.callId == callId && x.request.signal == signal
    ensures Moves(a, LinesOf(Forward(s, i, k, op, callId, signal).server), [x])
  {
    hide Moves, Queue;
    Queues(a, x);
  }

  lemma InviteMoves(s: Server, i: Slot, peerId: nat, media: string, x: Submission)
    requires x.user == s.clients[i].userId && x.request.CallRequest? && x.request.op == Invite
    requires x.request.peerId == peerId
    ensures Moves(LinesOf(s), LinesOf(HandleInvite(s, i, peerId, media).server), [x])
  {
    hide Moves, Queue, HasActiveCall;
    Queues(LinesOf(s), x);
  }

  lemma CallMoves(s: Server, i: Slot, r: Request)
    requires r.CallRequest?
    ensures Moves(LinesOf(s), LinesOf(HandleCall(s, i, r.op, r.callId, r.peerId, r.media, r.signal).server),
        [From(s, i, r)])
  {
    hide Moves, Queue, HandleInvite, Forward;
    var x := From(s, i, r);
    Queues(LinesOf(s), x);
    if r.op == Invite {
      InviteMoves(s, i, r.peerId, r.media, x);
    } else {
      var k := FindCall(s.calls, r.callId);
      if k < MAX_CLIENTS {
        ForwardMoves(LinesOf(s), s, i, k, r.op, r.callId, r.signal, x);
        var accepted := s.(calls := s.calls[k := s.calls[k].(accepted := true)]);
        ForwardMoves(LinesOf(s), accepted, i, k, r.op, r.callId, r.signal, x);
      }
    }
  }

  /** A request puts on each connection at most one packet, into a free slot, and tells others of nothing but
      itself, with the submitted contents. */
  lemma DispatchMoves(s: Server, i: Slot, r: Request)
    ensures Moves(LinesOf(s), LinesOf(Dispatch(s, i, r).server), [From(s, i, r)])
  {
    hide Moves, Queue, HandleRegister, HandleLogin, HandleChat, HandleGroupCreate, HandleGroupSend, HandleFileStart,
      HandleFileChunk, HandleFileComplete, HandleCall, OnlineBelow;
    Queues(LinesOf(s), From(s, i, r));
    if r.Register? || r.Login? { AuthMoves(s, i, r); }
    if r.Chat? || r.GroupCreate? || r.GroupSend? { MessagesMove(s, i, r); }
    if r.StartFile? || r.CompleteFile? { FilesMove(s, i, r); }
    if r.SendChunk? { ChunkMoves(s, i, r); }
    if r.CallRequest? { CallMoves(s, i, r); }
  }

  /** Only a chunk request relays file data. */
  lemma DispatchQuiet(s: Server, i: Slot, r: Request)
    requires !r.SendChunk?
    ensures var t := Dispatch(s, i, r).server;
      s.log <= t.log && forall k :: |s.log| <= k < |t.log| ==> !t.log[k].packet.FileChunk?
  {
    hide Dispatch, CarriedAt;
    DispatchMoves(s, i, r);
    var t, sent := Dispatch(s, i, r).server, [Submission(s.clients[i].userId, r)];
    forall k | |s.log| <= k < |t.log| ensures !t.log[k].packet.FileChunk? {
      assert ComesFrom(t.log[k].packet, sent);
    }
  }

  // ----- the events of a run -----

  /** The request dispatched in an event, with the user it is taken to come from. */
  function SubmittedIn(s: Server, e: Event): seq<Submission>
  {
    if e.Turn? && s.clients[e.i].isOpen && e.io.flush != FlushFailed && e.io.recv.Received?
    then [Submission(s.clients[e.i].userId, e.io.recv.request)]
    else []
  }

  function Submitted(s: Server, events: seq<Event>): seq<Submission>
    decreases |events|
  {
    if events == [] then [] else SubmittedIn(s, events[0]) + Submitted(Step(s, events[0]), events[1..])
  }

  /** The state in which a turn reads: its connection's slot is free if it could be flushed. */
  function AfterFlush(s: Server, e: Event): Server
  {
    if e.Turn? && s.clients[e.i].isOpen && e.io.flush == Sent
    then s.(clients := s.clients[e.i := s.clients[e.i].(pending := None)]) else s
  }

  lemma TurnMoves(s: Server, i: Slot, io: ClientIo)
    ensures Moves(LinesOf(AfterFlush(s, Turn(i, io))), LinesOf(Serve(s, i, io)), SubmittedIn(s, Turn(i, io)))
  {
    hide Moves, Dispatch, CloseClient;
    var sent := SubmittedIn(s, Turn(i, io));
    var s1 := AfterFlush(s, Turn(i, io));
    MovesRefl(LinesOf(s1), sent);
    CloseMoves(s, i, sent);
    CloseMoves(s1, i, sent);
    if io.recv.Received? {
      var r := io.recv.request;
      DispatchMoves(s1, i, r);
      if s.clients[i].isOpen && io.flush != FlushFailed { CloseAfter(LinesOf(s1), Dispatch(s1, i, r).server, i, sent); }
    }
  }

  /** Accepting logs nothing and leaves the open connections alone. */
  lemma {:induction false} AcceptKeepsOpen(s: Server, arrivals: nat)
    ensures AcceptClients(s, arrivals).log == s.log
    ensures forall j :: 0 <= j < MAX_CLIENTS && s.clients[j].isOpen ==>
        AcceptClients(s, arrivals).clients[j] == s.clients[j]
    decreases arrivals
  {
    var k := FindClosed(s.clients);
    if k < MAX_CLIENTS && arrivals > 0 {
      AcceptKeepsOpen(s.(clients := s.clients[k := NO_CLIENT.(isOpen := true)]), arrivals - 1);
    }
  }

  lemma StepMoves(s: Server, e: Event)
    requires !e.Arrive?
    ensures Moves(LinesOf(AfterFlush(s, e)), LinesOf(Step(s, e)), SubmittedIn(s, e))
  {
    hide Moves, Serve;
    MovesRefl(LinesOf(s), []);
    if e.Turn? { TurnMoves(s, e.i, e.io); }
  }

  /** `more` continues `log`, and what it tells others of comes from `sent`. */
  predicate Traced(log: seq<Entry>, more: seq<Entry>, sent: seq<Submission>)
  {
    log <= more && forall k :: |log| <= k < |more| ==> ComesFrom(more[k].packet, sent)
  }

  lemma TracedTrans(a: seq<Entry>, b: seq<Entry>, c: seq<Entry>, early: seq<Submission>, late: seq<Submission>)
    requires Traced(a, b, early) && Traced(b, c, late)
    ensures Traced(a, c, early + late)
  {
    hide ComesFrom;
    forall k | |a| <= k < |c| ensures ComesFrom(c[k].packet, early + late) {
      if k < |b| { assert c[k] == b[k]; }
      MoreSent(c[k].packet, early, late);
    }
  }

  lemma MoreSent(p: Packet, early: seq<Submission>, late: seq<Submission>)
    ensures ComesFrom(p, early) || ComesFrom(p, late) ==> ComesFrom(p, early + late)
  {
    hide Tells;
    var sent := early + late;
    if k :| 0 <= k < |early| && Tells(p, early[k]) { assert sent[k] == early[k]; }
    if k :| 0 <= k < |late| && Tells(p, late[k]) { assert sent[|early| + k] == late[k]; }
  }

  lemma StepTraced(s: Server, e: Event)
    ensures Traced(s.log, Step(s, e).log, SubmittedIn(s, e))
  {
    hide Step, ComesFrom;
    if e.Arrive? {
      ArriveIsAccept(s, e);
      AcceptKeepsOpen(s, e.n);
    } else {
      StepMoves(s, e);
    }
  }

  lemma ArriveIsAccept(s: Server, e: Event)
    requires e.Arrive?
    ensures Step(s, e) == AcceptClients(s, e.n)
  {
  }

  /** Over any run, nobody is told of anything but what somebody submitted: every text, file, chunk and signal
      that is relayed is in a request of the user it is said to come from. */
  lemma {:induction false} NotifiesAreSubmitted(s: Server, events: seq<Event>)
    ensures Traced(s.log, Run(s, events).log, Submitted(s, events))
    decreases |events|
  {
    hide Step, Traced, SubmittedIn;
    if events == [] {
      TracedRefl(s.log);
    } else {
      var s1 := Step(s, events[0]);
      StepTraced(s, events[0]);
      NotifiesAreSubmitted(s1, events[1..]);
      TracedTrans(s.log, s1.log, Run(s1, events[1..]).log, SubmittedIn(s, events[0]), Submitted(s1, events[1..]));
    }
  }

  lemma TracedRefl(log: seq<Entry>)
    ensures Traced(log, log, [])
  {
  }
}
