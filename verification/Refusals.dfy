/** Exactly when a request costs its sender the connection. */
module Refusals {
  import opened Wire
  import opened Server
  import opened ServerLaws
  import opened ServerSteps
  import opened Delivery
  import opened Presence
  import S = Storage

  // ----- what has to be queued for somebody else -----

  /** The user that a request's handler must reach before it answers, and whether the notify fits a packet. */
  datatype Must = Must(user: nat, fits: bool)

  function MustStart(s: Server, i: Slot, r: Request): Option<Must>
    requires r.StartFile?
  {
    var sender := s.clients[i].userId;
    var m := S.Message(0, 0, sender, r.receiver, S.CONTENT_FILE, r.content, 0, 0, 0);
    if r.receiver == 0 || r.receiver == sender || r.fileSize == 0 || r.fileSize > MAX_FILE_SIZE
       || !S.StringIsValid(r.fileName, S.MAX_FILE_NAME_LEN, false) || FindUser(s.clients, r.receiver) == MAX_CLIENTS
       || FindFreeTransfer(s.transfers) == MAX_CLIENTS
       || S.StoreFileTransfer(s.store, m, r.fileName, r.fileSize, r.crc32).status != OK
    then None else Some(Must(r.receiver, true))
  }

  function MustChunk(s: Server, i: Slot, r: Request): Option<Must>
    requires r.SendChunk?
  {
    var k := FindTransfer(s.transfers, r.transferId);
    if |r.data| == 0 || |r.data| > FILE_CHUNK_SIZE || k == MAX_CLIENTS then None
    else
      var t := s.transfers[k];
      if t.sender != s.clients[i].userId || t.bytesSeen + |r.data| > t.fileSize || r.index != t.nextChunk
         || FindUser(s.clients, t.receiver) == MAX_CLIENTS then None
      else Some(Must(t.receiver, true))
  }

  function MustInvite(s: Server, i: Slot, peerId: nat, media: string): Option<Must>
  {
    var sender := s.clients[i].userId;
    if peerId == 0 || peerId == sender || (media != "" && media != "audio")
       || HasActiveCall(s.calls, sender) || HasActiveCall(s.calls, peerId)
       || FindUser(s.clients, peerId) == MAX_CLIENTS || FindFreeCall(s.calls) == MAX_CLIENTS
    then None else Some(Must(peerId, true))
  }

  function MustRelay(s: Server, i: Slot, op: CallOp, callId: nat, signal: Signal): Option<Must>
  {
    var sender, k := s.clients[i].userId, FindCall(s.calls, callId);
    if k == MAX_CLIENTS || op == OtherCallOp then None
    else
      var c := s.calls[k];
      var peerId := PeerOf(c, sender);
      if (if op == Accept then sender != c.callee else !InCall(c, sender))
         || ((op == Offer || op == Answer) && signal.sdp == "") || (op == Ice && signal.candidate == "")
         || FindUser(s.clients, peerId) == MAX_CLIENTS
      then None else Some(Must(peerId, Fits(CallNotify(op, c.id, sender, peerId, c.media, signal))))
  }

  function MustTell(s: Server, i: Slot, r: Request): Option<Must>
  {
    if !s.clients[i].authenticated then None
    else
      match r
      case StartFile(_, _, _, _, _) => MustStart(s, i, r)
      case SendChunk(_, _, _) => MustChunk(s, i, r)
      case CallRequest(op, id, peer, media, signal) =>
        if op == Invite then MustInvite(s, i, peer, media) else MustRelay(s, i, op, id, signal)
      case _ => None
  }

  predicate Reachable(s: Server, must: Option<Must>)
  {
    must.Some? ==> must.value.fits && CanBeTold(s.clients, must.value.user)
  }

  /** Logging slot `i` in as `userId` kicks that user's other connection, and the user's call is with the
      one who is logged in on slot `i`: the hang-up fills the slot that the reply needs. */
  predicate HangsUpOnItself(s: Server, i: Slot, userId: nat)
  {
    && (exists j :: 0 <= j < MAX_CLIENTS && j != i && IsUser(s.clients[j], userId))
    && (exists k ::
          0 <= k < MAX_CLIENTS && IsCallOf(s.calls[k], userId) && IsUser(s.clients[i], PeerOf(s.calls[k], userId)))
  }

  predicate IsCallOf(c: Call, userId: nat) { c.active && InCall(c, userId) }

  /** The condition, in terms of the state and the request before the dispatch. */
  predicate Succeeds(s: Server, i: Slot, r: Request)
  {
    && IsReady(s.clients[i])
    && Reachable(s, MustTell(s, i, r))
    && (LoginAs(s.store, r).Some? ==> !HangsUpOnItself(s, i, LoginAs(s.store, r).value))
  }

  // ----- queueing, in terms of statuses -----

  predicate IsOutcome(o: Outcome, ok: bool)
  {
    o.status == if ok then OK else BufferTooSmall
  }

  lemma QueueStatus(s: Server, i: Slot, p: Packet)
    requires s.clients[i].isOpen
    ensures IsOutcome(Queue(s, i, p), IsReady(s.clients[i]) && Fits(p))
  {
  }

  /** Queueing for another user leaves slot `i` as it is. */
  lemma QueueElsewhere(s: Server, j: Slot, p: Packet, i: Slot)
    requires i != j
    ensures Queue(s, j, p).server.clients[i] == s.clients[i]
  {
  }

  lemma PlainRequest(s: Server, i: Slot, r: Request)
    requires s.clients[i].isOpen
    requires r.Chat? || r.GroupCreate? || r.GroupSend? || r.CompleteFile?
    requires r.CompleteFile? ==> Inv(s)
    ensures IsOutcome(Dispatch(s, i, r), IsReady(s.clients[i]))
  {
    hide Inv, Queue, FanOut, S.StorePrivateMessage, S.CreateGroup, S.StoreGroupMessage, S.ListGroupMembers,
      S.CompleteFileTransfer, S.StringIsValid;
    forall t: Server, p: Packet | t.clients[i] == s.clients[i]
      ensures IsOutcome(Queue(t, i, p), IsReady(s.clients[i]) && Fits(p))
    {
      QueueStatus(t, i, p);
    }
    if r.CompleteFile? {
      var k := FindTransfer(s.transfers, r.transferId);
      if k < MAX_CLIENTS && s.transfers[k].sender == s.clients[i].userId {
        TransferRecord(s, k);
        var t := s.transfers[k];
        var peer := FindUser(s.clients, t.receiver);
        if peer < MAX_CLIENTS { QueueElsewhere(s, peer, FileComplete(t.id, t.sender, t.receiver), i); }
      }
    }
  }

  /** Tell somebody else, and only then answer. */
  lemma TellThenReply(s: Server, i: Slot, peer: Slot, p: Packet)
    requires s.clients[i].isOpen && s.clients[peer].isOpen && peer != i
    ensures IsOutcome(Queue(s, peer, p), IsReady(s.clients[peer]) && Fits(p))
    ensures Queue(s, peer, p).server.clients[i] == s.clients[i]
  {
    QueueStatus(s, peer, p);
  }

  lemma StartStatus(s: Server, i: Slot, r: Request)
    requires s.clients[i].isOpen && r.StartFile?
    ensures IsOutcome(HandleFileStart(s, i, r.receiver, r.fileName, r.fileSize, r.crc32, r.content),
                      IsReady(s.clients[i]) && Reachable(s, MustStart(s, i, r)))
  {
    hide Queue, S.StoreFileTransfer, S.StringIsValid;
    forall t: Server, p: Packet | t.clients[i] == s.clients[i]
      ensures IsOutcome(Queue(t, i, p), IsReady(s.clients[i]) && Fits(p))
    {
      QueueStatus(t, i, p);
    }
    var peer := FindUser(s.clients, r.receiver);
    if peer < MAX_CLIENTS && r.receiver != s.clients[i].userId {
      forall t: Server, p: Packet | t.clients == s.clients
        ensures IsOutcome(Queue(t, peer, p), IsReady(s.clients[peer]) && Fits(p))
            && Queue(t, peer, p).server.clients[i] == s.clients[i]
      {
        TellThenReply(t, i, peer, p);
      }
    }
  }

  lemma ChunkStatus(s: Server, i: Slot, r: Request)
    requires Inv(s) && s.clients[i].isOpen && r.SendChunk?
    ensures IsOutcome(HandleFileChunk(s, i, r.transferId, r.index, r.data),
                      IsReady(s.clients[i]) && Reachable(s, MustChunk(s, i, r)))
  {
    hide Inv, Queue;
    forall t: Server, p: Packet | t.clients[i] == s.clients[i]
      ensures IsOutcome(Queue(t, i, p), IsReady(s.clients[i]) && Fits(p))
    {
      QueueStatus(t, i, p);
    }
    var k := FindTransfer(s.transfers, r.transferId);
    if k < MAX_CLIENTS && s.transfers[k].sender == s.clients[i].userId {
      TransferRecord(s, k);
      var t := s.transfers[k];
      var peer := FindUser(s.clients, t.receiver);
      if peer < MAX_CLIENTS { TellThenReply(s, i, peer, FileChunk(t.id, r.index, t.sender, t.receiver, r.data)); }
    }
  }

  lemma InviteStatus(s: Server, i: Slot, peerId: nat, media: string)
    requires s.clients[i].isOpen
    ensures IsOutcome(HandleInvite(s, i, peerId, media),
                      IsReady(s.clients[i]) && Reachable(s, MustInvite(s, i, peerId, media)))
  {
    hide Queue, HasActiveCall;
    forall t: Server, p: Packet | t.clients[i] == s.clients[i]
      ensures IsOutcome(Queue(t, i, p), IsReady(s.clients[i]) && Fits(p))
    {
      QueueStatus(t, i, p);
    }
    var peer := FindUser(s.clients, peerId);
    if peer < MAX_CLIENTS && peerId != s.clients[i].userId {
      forall t: Server, p: Packet | t.clients == s.clients
        ensures IsOutcome(Queue(t, peer, p), IsReady(s.clients[peer]) && Fits(p))
            && Queue(t, peer, p).server.clients[i] == s.clients[i]
      {
        TellThenReply(t, i, peer, p);
      }
    }
  }

  lemma ForwardStatus(s: Server, i: Slot, k: Slot, op: CallOp, callId: nat, signal: Signal)
    requires s.clients[i].isOpen
    requires PeerOf(s.calls[k], s.clients[i].userId) != 0
        && PeerOf(s.calls[k], s.clients[i].userId) != s.clients[i].userId
    ensures var peerId := PeerOf(s.calls[k], s.clients[i].userId);
      var p := CallNotify(op, s.calls[k].id, s.clients[i].userId, peerId, s.calls[k].media, signal);
      IsOutcome(Forward(s, i, k, op, callId, signal),
                IsReady(s.clients[i]) && (FindUser(s.clients, peerId) < MAX_CLIENTS ==>
                    Fits(p) && CanBeTold(s.clients, peerId)))
  {
    hide Queue;
    forall t: Server, p: Packet | t.clients[i] == s.clients[i]
      ensures IsOutcome(Queue(t, i, p), IsReady(s.clients[i]) && Fits(p))
    {
      QueueStatus(t, i, p);
    }
    var c, sender := s.calls[k], s.clients[i].userId;
    var peerId := PeerOf(c, sender);
    var peer := FindUser(s.clients, peerId);
    if peer < MAX_CLIENTS { TellThenReply(s, i, peer, CallNotify(op, c.id, sender, peerId, c.media, signal)); }
  }

  lemma RelayStatus(s: Server, i: Slot, op: CallOp, callId: nat, peerId: nat, media: string, signal: Signal)
    requires Inv(s) && s.clients[i].isOpen && s.clients[i].userId != 0 && op != Invite
    ensures IsOutcome(HandleCall(s, i, op, callId, peerId, media, signal),
                      IsReady(s.clients[i]) && Reachable(s, MustRelay(s, i, op, callId, signal)))
  {
    hide Inv, Queue, Forward, Fits, CanBeTold;
    forall ids: seq<nat>, status: Status
      ensures IsOutcome(Respond(s, i, CallGroup, status, ids), IsReady(s.clients[i]))
    {
      ReplyStatus(s, i, Reply(CallGroup, status, ids));
    }
    var k := FindCall(s.calls, callId);
    if k < MAX_CLIENTS {
      CallPartiesDiffer(s, k);
      if InCall(s.calls[k], s.clients[i].userId) {
        ForwardStatus(s, i, k, op, callId, signal);
        ForwardStatus(s.(calls := s.calls[k := s.calls[k].(accepted := true)]), i, k, op, callId, signal);
      }
    }
  }

  lemma ReplyStatus(s: Server, i: Slot, p: Packet)
    requires s.clients[i].isOpen && !p.CallNotify?
    ensures IsOutcome(Queue(s, i, p), IsReady(s.clients[i]))
  {
  }

  // ----- logging in -----

  /** A hang-up always fits a packet: the media of a stored call is at most 16 characters on the wire. */
  lemma HangupFits(c: Call, from: nat, to: nat)
    ensures Fits(CallNotify(Hangup, c.id, from, to, c.media, NO_SIGNAL))
  {
  }

  /** Ending a user's calls fills slot `i` if and only if one of them is with the user there. */
  lemma {:induction false} ClearCallsFills(s: Server, userId: nat, k: nat, i: Slot)
    requires k <= MAX_CLIENTS && IsReady(s.clients[i])
    ensures ClearCallsFrom(s, userId, k).clients[i].pending.None? <==>
              forall j :: k <= j < MAX_CLIENTS ==>
                  !(IsCallOf(s.calls[j], userId) && FindUser(s.clients, PeerOf(s.calls[j], userId)) == i)
    decreases MAX_CLIENTS - k
  {
    hide DropCall, FindUser;
    if k == MAX_CLIENTS {
    } else if IsCallOf(s.calls[k], userId) {
      var s1 := DropCall(s, k, userId);
      DropCallFills(s, k, userId, i);
      DropCallExact(s, k, userId);
      if s1.clients[i].pending.None? {
        forall j ensures k < j < MAX_CLIENTS ==>
          (FindUser(s1.clients, PeerOf(s1.calls[j], userId)) == i <==>
              FindUser(s.clients, PeerOf(s.calls[j], userId)) == i)
        {
          if k < j < MAX_CLIENTS { SamePlace(s.clients, s1.clients, PeerOf(s.calls[j], userId)); }
        }
        ClearCallsFills(s1, userId, k + 1, i);
      } else {
        ClearCallsStaysFull(s1, userId, k + 1, i);
      }
    } else {
      ClearCallsFills(s, userId, k + 1, i);
    }
  }

  lemma SamePlace(cs: seq<Client>, ds: seq<Client>, userId: nat)
    requires SameClients(cs, ds)
    ensures FindUser(cs, userId) == FindUser(ds, userId)
  {
    var a, b := FindUser(cs, userId), FindUser(ds, userId);
    if a < |cs| { assert SameClient(cs[a], ds[a]); }
    if b < |ds| { assert SameClient(cs[b], ds[b]); }
  }

  lemma DropCallFills(s: Server, k: Slot, userId: nat, i: Slot)
    requires IsReady(s.clients[i])
    ensures var t := DropCall(s, k, userId);
      && (t.clients[i].pending.None? <==> FindUser(s.clients, PeerOf(s.calls[k], userId)) != i)
      && t.clients[i].isOpen
  {
    HangupFits(s.calls[k], userId, PeerOf(s.calls[k], userId));
  }

  lemma {:induction false} ClearCallsStaysFull(s: Server, userId: nat, k: nat, i: Slot)
    requires k <= MAX_CLIENTS && s.clients[i].pending.Some?
    ensures ClearCallsFrom(s, userId, k).clients[i].pending.Some?
    decreases MAX_CLIENTS - k
  {
    if k == MAX_CLIENTS {
    } else if s.calls[k].active && InCall(s.calls[k], userId) {
      ClearCallsStaysFull(DropCall(s, k, userId), userId, k + 1, i);
    } else {
      ClearCallsStaysFull(s, userId, k + 1, i);
    }
  }

  /** Closing the other connection of `userId` fills slot `i` exactly when the user there is its peer. */
  lemma CloseFills(s: Server, j: Slot, i: Slot, userId: nat)
    requires Inv(s) && i != j && IsUser(s.clients[j], userId) && IsReady(s.clients[i])
    ensures CloseClient(s, j).clients[i].pending.None? <==>
              forall k :: 0 <= k < MAX_CLIENTS ==>
                  !(IsCallOf(s.calls[k], userId) && IsUser(s.clients[i], PeerOf(s.calls[k], userId)))
  {
    hide Inv, ClearCallsFrom, FindUser;
    var s1 := s.(clients := s.clients[j := s.clients[j].(isOpen := false, pending := None)]);
    var s2 := ClearTransfersFor(s1, userId);
    LoggedInIsUser(s, j);
    ClearCallsFills(s2, userId, 0, i);
    ClientsOfInv(s);
    forall k | 0 <= k < MAX_CLIENTS && IsCallOf(s.calls[k], userId)
      ensures FindUser(s2.clients, PeerOf(s.calls[k], userId)) == i <==>
          IsUser(s.clients[i], PeerOf(s.calls[k], userId))
    {
      CallPartiesDiffer(s, k);
      FoundAt(s.clients, s2.clients, s.nextSession, j, i, PeerOf(s.calls[k], userId));
    }
  }

  lemma FoundAt(cs: seq<Client>, ds: seq<Client>, next: nat, j: nat, i: nat, userId: nat)
    requires ClientsOk(cs, next) && j < |cs| && i < |cs| && i != j
    requires ds == cs[j := cs[j].(isOpen := false, pending := None)]
    ensures FindUser(ds, userId) == i <==> IsUser(cs[i], userId)
  {
    if IsUser(cs[i], userId) {
      ApartUsers(cs, next, i);
      assert IsUser(ds[i], userId);
      forall k | 0 <= k < |ds| && k != i ensures !IsUser(ds[k], userId) {
        assert !IsUser(cs[k], userId);
      }
    }
  }

  lemma {:induction false} KickNobody(s: Server, i: Slot, userId: nat, k: nat)
    requires k <= MAX_CLIENTS && forall j :: k <= j < MAX_CLIENTS && j != i ==> !IsUser(s.clients[j], userId)
    ensures KickOthersFrom(s, i, userId, k) == s
    decreases MAX_CLIENTS - k
  {
    if k == MAX_CLIENTS {
    } else {
      KickNobody(s, i, userId, k + 1);
    }
  }

  /** At most one other connection has the user, so the kicks close that one or none. */
  lemma {:induction false} KickOne(s: Server, i: Slot, userId: nat, k: nat, j: Slot)
    requires Inv(s) && k <= j && j != i && IsUser(s.clients[j], userId)
    ensures KickOthersFrom(s, i, userId, k) == CloseClient(s, j)
    decreases MAX_CLIENTS - k
  {
    hide Inv, CloseClient;
    ClientsOfInv(s);
    ApartUsers(s.clients, s.nextSession, j);
    if k < j {
      KickOne(s, i, userId, k + 1, j);
    } else {
      CloseExact(s, j, 0);
      VacatedUsers(s.clients, CloseClient(s, j).clients, j, userId);
      KickNobody(CloseClient(s, j), i, userId, k + 1);
    }
  }

  lemma VacatedUsers(cs: seq<Client>, ds: seq<Client>, j: nat, userId: nat)
    requires Vacated(cs, ds, j) && forall k :: 0 <= k < |cs| && k != j ==> !IsUser(cs[k], userId)
    ensures forall k :: 0 <= k < |ds| ==> !IsUser(ds[k], userId)
  {
    forall k | 0 <= k < |ds| ensures !IsUser(ds[k], userId) {
      if k != j { assert SameClient(cs[k], ds[k]); }
    }
  }

  /** The slot of a connection that logs in is free for the reply unless it was busy or is hung up on. */
  lemma AuthenticatedReady(s: Server, i: Slot, userId: nat, username: string)
    requires Inv(s) && s.clients[i].isOpen
    ensures Authenticate(s, i, userId, username).clients[i].isOpen
    ensures IsReady(Authenticate(s, i, userId, username).clients[i]) <==>
        IsReady(s.clients[i]) && !HangsUpOnItself(s, i, userId)
  {
    hide Inv, CloseClient;
    KickOthersKeeps(s, i, userId, 0);
    if j :| 0 <= j < MAX_CLIENTS && j != i && IsUser(s.clients[j], userId) {
      KickOne(s, i, userId, 0, j);
      if IsReady(s.clients[i]) { CloseFills(s, j, i, userId); } else { CloseStaysFull(s, j, i); }
    } else {
      KickNobody(s, i, userId, 0);
    }
  }

  lemma CloseStaysFull(s: Server, j: Slot, i: Slot)
    requires i != j && s.clients[i].pending.Some?
    ensures CloseClient(s, j).clients[i].pending.Some?
  {
    hide ClearCallsFrom;
    var c := s.clients[j];
    var userId := if c.authenticated then c.userId else 0;
    var s1 := if c.isOpen then s.(clients := s.clients[j := c.(isOpen := false, pending := None)]) else s;
    ClearCallsStaysFull(ClearTransfersFor(s1, userId), userId, 0, i);
  }

  lemma LoginStatus(s: Server, i: Slot, r: Request)
    requires Inv(s) && s.clients[i].isOpen && LoginAs(s.store, r).Some?
    ensures IsOutcome(Dispatch(s, i, r), IsReady(s.clients[i]) && !HangsUpOnItself(s, i, LoginAs(s.store, r).value))
    ensures Dispatch(s, i, r).server.clients[i].isOpen
  {
    hide Inv, Dispatch, Authenticate, LoginAs, HangsUpOnItself;
    var store, username, ids := LoginShape(s, i, r);
    var userId := LoginAs(s.store, r).value;
    AuthenticatedReady(s.(store := store), i, userId, username);
    StoreIsAside(s, store, i, userId);
    ReplyStatus(Authenticate(s.(store := store), i, userId, username), i, Reply(AuthGroup, OK, ids));
  }

  lemma StoreIsAside(s: Server, store: S.Store, i: Slot, userId: nat)
    ensures HangsUpOnItself(s.(store := store), i, userId) <==> HangsUpOnItself(s, i, userId)
  {
  }

  // ----- every request -----

  /** A dispatch succeeds exactly under this condition, and otherwise reports a full slot or packet. */
  lemma DispatchSucceedsIff(s: Server, i: Slot, r: Request)
    requires Inv(s) && s.clients[i].isOpen
    ensures IsOutcome(Dispatch(s, i, r), Succeeds(s, i, r))
    ensures Dispatch(s, i, r).server.clients[i].isOpen
  {
    hide Inv, IsOutcome, HandleChat, HandleGroupCreate, HandleGroupSend, HandleFileStart, HandleFileChunk,
      HandleFileComplete,
      HandleInvite, Queue, OnlineBelow, LoginAs, HangsUpOnItself, MustStart, MustChunk, MustInvite, MustRelay, Calm,
          CanBeTold;
    if LoginAs(s.store, r).Some? {
      LoginIsAuth(s.store, r);
      LoginStatus(s, i, r);
    } else {
      DispatchCalm(s, i, r);
      StaysOpen(s, Dispatch(s, i, r).server, i);
      forall t: Server, p: Packet | t.clients == s.clients && !p.CallNotify?
        ensures IsOutcome(Queue(t, i, p), IsReady(s.clients[i]))
      {
        ReplyStatus(t, i, p);
      }
      if r.Register? || r.Login? { FailedLogin(s, i, r); }
      if s.clients[i].authenticated {
        LoggedInIsUser(s, i);
        if r.Chat? || r.GroupCreate? || r.GroupSend? || r.CompleteFile? { PlainRequest(s, i, r); }
        if r.StartFile? { StartStatus(s, i, r); }
        if r.SendChunk? { ChunkStatus(s, i, r); }
        if r.CallRequest? {
          if r.op == Invite { InviteStatus(s, i, r.peerId, r.media); }
          else { RelayStatus(s, i, r.op, r.callId, r.peerId, r.media, r.signal); }
        }
      }
    }
  }

  lemma LoginIsAuth(st: S.Store, r: Request)
    requires LoginAs(st, r).Some?
    ensures r.Register? || r.Login?
  {
  }

  lemma StaysOpen(s: Server, t: Server, i: Slot)
    requires Calm(s, t) && s.clients[i].isOpen
    ensures t.clients[i].isOpen
  {
    assert SameClient(s.clients[i], t.clients[i]);
  }

  lemma FailedLogin(s: Server, i: Slot, r: Request)
    requires (r.Register? || r.Login?) && LoginAs(s.store, r).None? && s.clients[i].isOpen
    ensures IsOutcome(Dispatch(s, i, r), IsReady(s.clients[i]))
  {
    hide Queue, Authenticate, S.CreateAccount, S.FindAccountByName, S.UpdateLastLogin, S.StringIsValid;
    forall t: Server, p: Packet | t.clients == s.clients && !p.CallNotify?
      ensures IsOutcome(Queue(t, i, p), IsReady(s.clients[i]))
    {
      ReplyStatus(t, i, p);
    }
  }

  /** So a connection that is read survives its turn exactly when what it asked for could be answered and
      everybody who had to be told could be told: a busy peer costs the sender the connection. */
  lemma TurnSurvivesIff(s: Server, i: Slot, flush: FlushResult, r: Request)
    requires Inv(s) && s.clients[i].isOpen && flush != FlushFailed
    ensures var s1 := if flush == Sent then s.(clients := s.clients[i := s.clients[i].(pending := None)]) else s;
      Serve(s, i, ClientIo(flush, Received(r))).clients[i].isOpen <==> Succeeds(s1, i, r)
  {
    hide Inv, Dispatch, CloseClient, Succeeds;
    var s1 := if flush == Sent then s.(clients := s.clients[i := s.clients[i].(pending := None)]) else s;
    FlushedOk(s, i);
    DispatchSucceedsIff(s1, i, r);
    CloseLogs(Dispatch(s1, i, r).server, i);
  }

  /** A transfer that cannot be announced leaves its message, its delivery and its file record in the store,
      its id spent and its slot empty. */
  lemma UnannouncedStartRemains(s: Server, i: Slot, r: Request)
    requires s.clients[i].isOpen && r.StartFile? && MustStart(s, i, r).Some? && !CanBeTold(s.clients, r.receiver)
    ensures var m := S.Message(0, 0, s.clients[i].userId, r.receiver, S.CONTENT_FILE, r.content, 0, 0, 0);
      var out := S.StoreFileTransfer(s.store, m, r.fileName, r.fileSize, r.crc32);
      && HandleFileStart(s, i, r.receiver, r.fileName, r.fileSize, r.crc32, r.content)
           == Outcome(s.(store := out.store, nextTransfer := s.nextTransfer + 1,
                         transfers := s.transfers[FindFreeTransfer(s.transfers) := NO_TRANSFER]), BufferTooSmall)
      && |out.store.files| == |s.store.files| + 1
  {
    hide Queue, S.StringIsValid, S.StorePrivateMessage;
    var k, peer := FindFreeTransfer(s.transfers), FindUser(s.clients, r.receiver);
    forall t: Server, p: Packet | t.clients == s.clients && !p.CallNotify?
      ensures Queue(t, peer, p) == Outcome(t, BufferTooSmall)
    {
      QueueBusy(t, peer, p);
    }
    FilesAside(s.store, S.Message(0, 0, s.clients[i].userId, r.receiver, S.CONTENT_FILE, r.content, 0, 0, 0));
  }

  lemma FilesAside(st: S.Store, m: S.Message)
    ensures S.StorePrivateMessage(st, m).store.files == st.files
  {
  }
}
