/** When the parties of a call or a transfer are online between the turns of a pass. */
module Presence {
  import opened Wire
  import opened Server
  import opened ServerLaws
  import opened ServerSteps
  import S = Storage
  import L = StorageLaws
  import T = ServerTheorems

  // ----- both parties online -----

  predicate CallUp(c: Call, clients: seq<Client>)
  {
    c.active ==> IsOnline(clients, c.caller) && IsOnline(clients, c.callee)
  }

  predicate TransferUp(t: Transfer, clients: seq<Client>)
  {
    t.active ==> IsOnline(clients, t.sender) && IsOnline(clients, t.receiver)
  }

  /** Both parties of every active call and of every active transfer are online. */
  ghost predicate BothOnline(s: Server)
  {
    && (forall k :: 0 <= k < MAX_CLIENTS ==> CallUp(s.calls[k], s.clients))
    && (forall k :: 0 <= k < MAX_CLIENTS ==> TransferUp(s.transfers[k], s.clients))
  }

  lemma OnlineIff(clients: seq<Client>, userId: nat)
    ensures IsOnline(clients, userId) <==> userId != 0 && exists k :: 0 <= k < |clients| && IsUser(clients[k], userId)
  {
  }

  /** Who is logged in where decides who is online. */
  lemma SameOnline(cs: seq<Client>, ds: seq<Client>, userId: nat)
    requires SameClients(cs, ds)
    ensures IsOnline(cs, userId) <==> IsOnline(ds, userId)
  {
    hide IsOnline;
    OnlineIff(cs, userId);
    OnlineIff(ds, userId);
    forall k | 0 <= k < |cs| ensures IsUser(cs[k], userId) <==> IsUser(ds[k], userId) {
      assert SameClient(cs[k], ds[k]);
    }
  }

  // ----- handlers that log nobody in -----

  /** The same parties, nobody, or two online users. */
  predicate CallCalm(c: Call, d: Call, clients: seq<Client>)
  {
    || !d.active
    || (c.active && d.caller == c.caller && d.callee == c.callee)
    || (IsOnline(clients, d.caller) && IsOnline(clients, d.callee))
  }

  predicate TransferCalm(t: Transfer, u: Transfer, clients: seq<Client>)
  {
    || !u.active
    || (t.active && u.sender == t.sender && u.receiver == t.receiver)
    || (IsOnline(clients, u.sender) && IsOnline(clients, u.receiver))
  }

  /** From `s` to `t` nobody came or went, and every call and transfer is old or between online users. */
  ghost predicate Calm(s: Server, t: Server)
  {
    && SameClients(s.clients, t.clients)
    && (forall k :: 0 <= k < MAX_CLIENTS ==> CallCalm(s.calls[k], t.calls[k], s.clients))
    && (forall k :: 0 <= k < MAX_CLIENTS ==> TransferCalm(s.transfers[k], t.transfers[k], s.clients))
  }

  lemma CalmKeepsUp(s: Server, t: Server)
    requires Calm(s, t) && BothOnline(s)
    ensures BothOnline(t)
  {
    hide IsOnline, SameClients;
    forall userId: nat ensures IsOnline(s.clients, userId) <==> IsOnline(t.clients, userId) {
      SameOnline(s.clients, t.clients, userId);
    }
    forall k | 0 <= k < MAX_CLIENTS ensures CallUp(t.calls[k], t.clients) && TransferUp(t.transfers[k], t.clients) {
      assert CallUp(s.calls[k], s.clients) && TransferUp(s.transfers[k], s.clients);
    }
  }

  lemma CalmRefl(s: Server)
    ensures Calm(s, s)
  {
    hide IsOnline;
    SameClientsRefl(s.clients);
  }

  lemma CalmQueue(s: Server, t: Server, i: Slot, p: Packet)
    requires Calm(s, t)
    ensures Calm(s, Queue(t, i, p).server)
  {
    hide Queue, SameClients, CallCalm, TransferCalm;
    QueueFrame(t, i, p);
    SameClientsTrans(s.clients, t.clients, Queue(t, i, p).server.clients);
  }

  lemma CalmStore(s: Server, t: Server, store: S.Store)
    requires Calm(s, t)
    ensures Calm(s, t.(store := store))
  {
    hide SameClients, CallCalm, TransferCalm;
  }

  lemma CalmCall(s: Server, t: Server, k: Slot, c: Call, next: nat)
    requires Calm(s, t) && CallCalm(s.calls[k], c, s.clients)
    ensures Calm(s, t.(calls := t.calls[k := c], nextCall := next))
  {
    hide SameClients, CallCalm, TransferCalm;
  }

  lemma CalmTransfer(s: Server, t: Server, k: Slot, u: Transfer, next: nat)
    requires Calm(s, t) && TransferCalm(s.transfers[k], u, s.clients)
    ensures Calm(s, t.(transfers := t.transfers[k := u], nextTransfer := next))
  {
    hide SameClients, CallCalm, TransferCalm;
  }

  lemma {:induction false} CalmFanOut(s: Server, t: Server, i: Slot, members: seq<nat>, conversationId: nat,
        messageId: nat, content: string)
    requires Calm(s, t)
    ensures Calm(s, FanOut(t, i, members, conversationId, messageId, content))
    decreases |members|
  {
    hide Calm, Queue;
    if members == [] {
    } else {
      var sender, member := t.clients[i].userId, members[0];
      var peer := FindUser(t.clients, member);
      var p := GroupNotify(conversationId, messageId, sender, member, content);
      if member == sender || peer == MAX_CLIENTS {
        CalmFanOut(s, t, i, members[1..], conversationId, messageId, content);
      } else {
        CalmQueue(s, t, peer, p);
        CalmFanOut(s, Queue(t, peer, p).server, i, members[1..], conversationId, messageId, content);
      }
    }
  }

  lemma MessagesCalm(s: Server, i: Slot, r: Request)
    requires r.Chat? || r.GroupCreate? || r.GroupSend?
    ensures Calm(s, Dispatch(s, i, r).server)
  {
    hide Calm, Queue, FanOut, S.StorePrivateMessage, S.CreateGroup, S.StoreGroupMessage, S.ListGroupMembers;
    CalmRefl(s);
    forall store: S.Store ensures Calm(s, s.(store := store)) { CalmStore(s, s, store); }
    forall t: Server, j: Slot, p: Packet | Calm(s, t) ensures Calm(s, Queue(t, j, p).server) { CalmQueue(s, t, j, p); }
    forall t: Server, members: seq<nat>, c: nat, m: nat, text: string | Calm(s, t)
      ensures Calm(s, FanOut(t, i, members, c, m, text))
    {
      CalmFanOut(s, t, i, members, c, m, text);
    }
  }

  lemma LoggedInIsOnline(s: Server, i: Slot)
    requires Inv(s) && s.clients[i].isOpen && s.clients[i].authenticated
    ensures IsOnline(s.clients, s.clients[i].userId)
  {
    hide IsOnline, TablesOk;
    assert ClientOk(s.clients[i], s.nextSession);
    OnlineIff(s.clients, s.clients[i].userId);
    assert IsUser(s.clients[i], s.clients[i].userId);
  }

  lemma BeginCalm(s: Server, t: Server, i: Slot, peer: Slot, k: Slot, u: Transfer)
    requires Calm(s, t) && IsOnline(s.clients, u.sender) && IsOnline(s.clients, u.receiver)
    ensures Calm(s, BeginTransfer(t, i, peer, k, u).server)
  {
    hide Calm, Queue, IsOnline;
    CalmTransfer(s, t, k, u, t.nextTransfer + 1);
    var t1 := t.(nextTransfer := t.nextTransfer + 1, transfers := t.transfers[k := u]);
    CalmTransfer(s, t1, k, NO_TRANSFER, t1.nextTransfer);
    forall t: Server, j: Slot, p: Packet | Calm(s, t) ensures Calm(s, Queue(t, j, p).server) { CalmQueue(s, t, j, p); }
  }

  lemma StartCalm(s: Server, i: Slot, receiver: nat, fileName: string, fileSize: nat, crc32: bv32, content: string)
    requires IsOnline(s.clients, s.clients[i].userId)
    ensures Calm(s, HandleFileStart(s, i, receiver, fileName, fileSize, crc32, content).server)
  {
    hide Calm, Queue, BeginTransfer, S.StoreFileTransfer, S.StringIsValid;
    CalmRefl(s);
    forall store: S.Store ensures Calm(s, s.(store := store)) { CalmStore(s, s, store); }
    forall p: Packet ensures Calm(s, Queue(s, i, p).server) { CalmQueue(s, s, i, p); }
    forall t: Server, peer: Slot, k: Slot, u: Transfer
      | Calm(s, t) && IsOnline(s.clients, u.sender) && IsOnline(s.clients, u.receiver)
      ensures Calm(s, BeginTransfer(t, i, peer, k, u).server)
    {
      BeginCalm(s, t, i, peer, k, u);
    }
  }

  lemma ChunkCalm(s: Server, i: Slot, transferId: nat, index: nat, data: seq<byte>)
    ensures Calm(s, HandleFileChunk(s, i, transferId, index, data).server)
  {
    hide Calm, Queue, IsOnline;
    CalmRefl(s);
    forall t: Server, j: Slot, p: Packet | Calm(s, t) ensures Calm(s, Queue(t, j, p).server) { CalmQueue(s, t, j, p); }
    var k := FindTransfer(s.transfers, transferId);
    if k < MAX_CLIENTS {
      var u := s.transfers[k];
      CalmTransfer(s, s, k, NO_TRANSFER, s.nextTransfer);
      var peer := FindUser(s.clients, u.receiver);
      if peer < MAX_CLIENTS {
        var told := Queue(s, peer, FileChunk(u.id, index, u.sender, u.receiver, data)).server;
        CalmTransfer(s, told, k, AfterChunk(u, data), told.nextTransfer);
      }
    }
  }

  lemma CompleteCalm(s: Server, i: Slot, transferId: nat)
    ensures Calm(s, HandleFileComplete(s, i, transferId).server)
  {
    hide Calm, Queue, IsOnline, S.CompleteFileTransfer;
    CalmRefl(s);
    forall t: Server, j: Slot, p: Packet | Calm(s, t) ensures Calm(s, Queue(t, j, p).server) { CalmQueue(s, t, j, p); }
    forall t: Server, store: S.Store | Calm(s, t) ensures Calm(s, t.(store := store)) { CalmStore(s, t, store); }
    var k := FindTransfer(s.transfers, transferId);
    if k < MAX_CLIENTS {
      forall t: Server | Calm(s, t) ensures Calm(s, t.(transfers := t.transfers[k := NO_TRANSFER])) {
        CalmTransfer(s, t, k, NO_TRANSFER, t.nextTransfer);
      }
    }
  }

  lemma InviteCalm(s: Server, i: Slot, peerId: nat, media: string)
    requires IsOnline(s.clients, s.clients[i].userId)
    ensures Calm(s, HandleInvite(s, i, peerId, media).server)
  {
    hide Calm, Queue, HasActiveCall;
    CalmRefl(s);
    forall t: Server, j: Slot, p: Packet | Calm(s, t) ensures Calm(s, Queue(t, j, p).server) { CalmQueue(s, t, j, p); }
    var k := FindFreeCall(s.calls);
    if k < MAX_CLIENTS && peerId != 0 && FindUser(s.clients, peerId) < MAX_CLIENTS {
      var c := Call(true, s.nextCall, s.clients[i].userId, peerId, false, "audio");
      CalmCall(s, s, k, c, s.nextCall + 1);
      var s1 := s.(nextCall := s.nextCall + 1, calls := s.calls[k := c]);
      CalmCall(s, s1, k, NO_CALL, s1.nextCall);
    }
  }

  lemma ForwardCalm(s: Server, t: Server, i: Slot, k: Slot, op: CallOp, callId: nat, signal: Signal)
    requires Calm(s, t)
    ensures Calm(s, Forward(t, i, k, op, callId, signal).server)
  {
    hide Calm, Queue, IsOnline;
    forall t: Server, j: Slot, p: Packet | Calm(s, t) ensures Calm(s, Queue(t, j, p).server) { CalmQueue(s, t, j, p); }
    forall t: Server | Calm(s, t) ensures Calm(s, t.(calls := t.calls[k := NO_CALL])) {
      CalmCall(s, t, k, NO_CALL, t.nextCall);
    }
  }

  lemma CallCalms(s: Server, i: Slot, op: CallOp, callId: nat, peerId: nat, media: string, signal: Signal)
    requires IsOnline(s.clients, s.clients[i].userId)
    ensures Calm(s, HandleCall(s, i, op, callId, peerId, media, signal).server)
  {
    hide Calm, Queue, HandleInvite, Forward, IsOnline;
    CalmRefl(s);
    InviteCalm(s, i, peerId, media);
    forall p: Packet ensures Calm(s, Queue(s, i, p).server) { CalmQueue(s, s, i, p); }
    var k := FindCall(s.calls, callId);
    if k < MAX_CLIENTS {
      ForwardCalm(s, s, i, k, op, callId, signal);
      var accepted := s.calls[k].(accepted := true);
      CalmCall(s, s, k, accepted, s.nextCall);
      ForwardCalm(s, s.(calls := s.calls[k := accepted]), i, k, Accept, callId, signal);
    }
  }

  // ----- logging in -----

  /** The account that a request logs its connection in as, if it does. */
  function LoginAs(st: S.Store, r: Request): Option<nat>
  {
    match r
    case Register(username, nickname, hash, salt) =>
      var out := S.CreateAccount(st, username, nickname, hash, salt);
      if out.status == OK then Some(out.id) else None
    case Login(username, hash) =>
      var k := S.FindAccountByName(st, username);
      if S.StringIsValid(username, S.MAX_USERNAME_LEN, false) && k < |st.accounts| && st.accounts[k].enabled
         && hash == st.accounts[k].passwordHash then Some(st.accounts[k].userId) else None
    case _ => None
  }

  lemma DispatchCalm(s: Server, i: Slot, r: Request)
    requires Inv(s) && s.clients[i].isOpen && LoginAs(s.store, r).None?
    ensures Calm(s, Dispatch(s, i, r).server)
  {
    hide Calm, Queue, Inv, IsOnline, HandleChat, HandleGroupCreate, HandleGroupSend, HandleFileStart, HandleFileChunk,
      HandleFileComplete, HandleCall, OnlineBelow, S.UpdateLastLogin;
    CalmRefl(s);
    forall p: Packet ensures Calm(s, Queue(s, i, p).server) { CalmQueue(s, s, i, p); }
    if s.clients[i].authenticated { LoggedInIsOnline(s, i); }
    if r.Register? { FailedRegister(s, i, r); }
    if r.Chat? || r.GroupCreate? || r.GroupSend? { MessagesCalm(s, i, r); }
    if s.clients[i].authenticated {
      if r.StartFile? { StartCalm(s, i, r.receiver, r.fileName, r.fileSize, r.crc32, r.content); }
      if r.SendChunk? { ChunkCalm(s, i, r.transferId, r.index, r.data); }
      if r.CompleteFile? { CompleteCalm(s, i, r.transferId); }
      if r.CallRequest? { CallCalms(s, i, r.op, r.callId, r.peerId, r.media, r.signal); }
    }
  }

  lemma FailedRegister(s: Server, i: Slot, r: Request)
    requires r.Register? && LoginAs(s.store, r).None?
    ensures Calm(s, HandleRegister(s, i, r.username, r.nickname, r.hash, r.salt).server)
  {
    hide Calm, Queue, S.CreateAccount, Authenticate;
    var out := S.CreateAccount(s.store, r.username, r.nickname, r.hash, r.salt);
    CalmRefl(s);
    CalmStore(s, s, out.store);
    CalmQueue(s, s.(store := out.store), i, Reply(AuthGroup, out.status, []));
  }

  // ----- closing a connection -----

  /** Clearing a user's calls clears those it is in and no other. */
  lemma {:induction false} ClearCallsExact(s: Server, userId: nat, k: nat, j: Slot)
    requires k <= MAX_CLIENTS
    ensures var t := ClearCallsFrom(s, userId, k);
      t.calls[j] == (if k <= j && s.calls[j].active && InCall(s.calls[j], userId) then NO_CALL else s.calls[j])
    ensures SameClients(s.clients, ClearCallsFrom(s, userId, k).clients)
        && ClearCallsFrom(s, userId, k).transfers == s.transfers
    decreases MAX_CLIENTS - k
  {
    hide SameClients, DropCall;
    SameClientsRefl(s.clients);
    if k == MAX_CLIENTS {
    } else if s.calls[k].active && InCall(s.calls[k], userId) {
      var s1 := DropCall(s, k, userId);
      DropCallExact(s, k, userId);
      ClearCallsExact(s1, userId, k + 1, j);
      SameClientsTrans(s.clients, s1.clients, ClearCallsFrom(s1, userId, k + 1).clients);
    } else {
      ClearCallsExact(s, userId, k + 1, j);
    }
  }

  lemma DropCallExact(s: Server, k: Slot, userId: nat)
    ensures var t := DropCall(s, k, userId);
      SameClients(s.clients, t.clients) && t.calls == s.calls[k := NO_CALL] && t.transfers == s.transfers
  {
    hide Queue, SameClients;
    SameClientsRefl(s.clients);
    var c := s.calls[k];
    var peer := FindUser(s.clients, PeerOf(c, userId));
    if peer < MAX_CLIENTS {
      QueueFrame(s, peer, CallNotify(Hangup, c.id, userId, PeerOf(c, userId), c.media, NO_SIGNAL));
    }
  }

  /** The user whose calls and transfers go when a slot is closed; 0 for nobody. */
  function UserAt(c: Client): nat { if c.authenticated then c.userId else 0 }

  /** Slot `i` is vacated, its user's calls and transfers are cleared, and nothing else changes but send slots. */
  lemma CloseExact(s: Server, i: Slot, k: Slot)
    ensures var t, u := CloseClient(s, i), UserAt(s.clients[i]);
      && Vacated(s.clients, t.clients, i)
      && t.calls[k] == (if s.calls[k].active && InCall(s.calls[k], u) then NO_CALL else s.calls[k])
      && t.transfers[k] == (if u != 0 && InTransfer(s.transfers[k], u) then NO_TRANSFER else s.transfers[k])
  {
    hide SameClients, ClearCallsFrom;
    var c, u := s.clients[i], UserAt(s.clients[i]);
    var s1 := if c.isOpen then s.(clients := s.clients[i := c.(isOpen := false, pending := None)]) else s;
    var s2 := ClearTransfersFor(s1, u);
    ClearCallsExact(s2, u, 0, k);
    SameClientsRefl(s2.clients);
    var s3 := ClearCallsFor(s2, u);
    VacatedBy(s.clients, s3.clients, i, c);
  }

  lemma VacatedBy(cs: seq<Client>, ds: seq<Client>, i: nat, c: Client)
    requires i < |cs| && (SameClients(cs, ds) || SameClients(cs[i := c.(isOpen := false, pending := None)], ds))
    ensures Vacated(cs, ds[i := NO_CLIENT], i)
  {
    var es := cs[i := c.(isOpen := false, pending := None)];
    if !SameClients(cs, ds) {
      forall k | 0 <= k < |cs| && k != i ensures SameClient(cs[k], ds[k]) {
        assert SameClient(es[k], ds[k]);
      }
    }
  }

  /** Nobody but the user of a vacated slot goes offline, and nobody comes online. */
  lemma VacatedOnline(cs: seq<Client>, ds: seq<Client>, i: nat, userId: nat)
    requires Vacated(cs, ds, i)
    ensures IsOnline(ds, userId) ==> IsOnline(cs, userId)
    ensures userId != UserAt(cs[i]) && IsOnline(cs, userId) ==> IsOnline(ds, userId)
  {
    hide IsOnline;
    OnlineIff(cs, userId);
    OnlineIff(ds, userId);
    forall k | 0 <= k < |cs| && k != i ensures IsUser(cs[k], userId) <==> IsUser(ds[k], userId) {
      assert SameClient(cs[k], ds[k]);
    }
  }

  /** Closing a connection leaves no call and no transfer behind that a party has left. */
  lemma CloseKeepsUp(s: Server, i: Slot)
    requires BothOnline(s)
    ensures BothOnline(CloseClient(s, i))
  {
    hide CloseClient, IsOnline, Vacated;
    var t := CloseClient(s, i);
    forall k | 0 <= k < MAX_CLIENTS ensures CallUp(t.calls[k], t.clients) && TransferUp(t.transfers[k], t.clients) {
      CloseExact(s, i, k);
      var c, u := s.calls[k], s.transfers[k];
      assert CallUp(c, s.clients) && TransferUp(u, s.clients);
      VacatedOnline(s.clients, t.clients, i, c.caller);
      VacatedOnline(s.clients, t.clients, i, c.callee);
      VacatedOnline(s.clients, t.clients, i, u.sender);
      VacatedOnline(s.clients, t.clients, i, u.receiver);
      NobodyIsZero(s.clients, c, u);
    }
  }

  lemma NobodyIsZero(clients: seq<Client>, c: Call, u: Transfer)
    requires CallUp(c, clients) && TransferUp(u, clients)
    ensures c.active ==> c.caller != 0 && c.callee != 0
    ensures u.active ==> u.sender != 0 && u.receiver != 0
  {
  }

  // ----- logging in again -----

  /** Call `c`, or transfer `t`, has `user` as a party and not `other`. */
  predicate CallWithout(c: Call, user: nat, other: nat)
  {
    c.active && InCall(c, user) && !InCall(c, other)
  }

  predicate TransferWithout(t: Transfer, user: nat, other: nat)
  {
    InTransfer(t, user) && !InTransfer(t, other)
  }

  /** The user of slot `i` is in a call or a transfer that does not also involve `other`. */
  predicate Engaged(s: Server, user: nat, other: nat)
  {
    || (exists k :: 0 <= k < MAX_CLIENTS && CallWithout(s.calls[k], user, other))
    || (exists k :: 0 <= k < MAX_CLIENTS && TransferWithout(s.transfers[k], user, other))
  }

  /** Logging slot `i` in as `userId` takes another user away from a call or a transfer. */
  predicate Strands(s: Server, i: Slot, userId: nat)
  {
    s.clients[i].authenticated && s.clients[i].userId != userId && Engaged(s, s.clients[i].userId, userId)
  }

  /** Kicks clear only calls and transfers of the user who is kicked. */
  lemma {:induction false} KickSpares(s: Server, i: Slot, userId: nat, k: nat, j: Slot)
    requires k <= MAX_CLIENTS
    ensures var t := KickOthersFrom(s, i, userId, k);
      && (t.calls[j] == s.calls[j] || (!t.calls[j].active && InCall(s.calls[j], userId)))
      && (t.transfers[j] == s.transfers[j] || (!t.transfers[j].active && InTransfer(s.transfers[j], userId)))
      && (BothOnline(s) ==> BothOnline(t))
    decreases MAX_CLIENTS - k
  {
    hide CloseClient, BothOnline;
    if k == MAX_CLIENTS {
    } else if k != i && IsUser(s.clients[k], userId) {
      CloseExact(s, k, j);
      if BothOnline(s) { CloseKeepsUp(s, k); }
      KickSpares(CloseClient(s, k), i, userId, k + 1, j);
    } else {
      KickSpares(s, i, userId, k + 1, j);
    }
  }

  /** From `s1` to `t` slot `i` changes hands and nothing else. */
  predicate Rebound(cs: seq<Client>, ds: seq<Client>, i: nat, userId: nat)
  {
    i < |cs| == |ds| && ds == cs[i := ds[i]] && IsUser(ds[i], userId)
  }

  lemma ReboundOnline(cs: seq<Client>, ds: seq<Client>, i: nat, userId: nat, user: nat)
    requires Rebound(cs, ds, i, userId) && cs[i].isOpen
    requires forall k :: 0 <= k < |cs| && k != i && cs[i].authenticated ==> !IsUser(cs[k], cs[i].userId)
    ensures IsOnline(ds, user) <==>
              user != 0 && (user == userId || (IsOnline(cs, user) && !(cs[i].authenticated && user == cs[i].userId)))
  {
    hide IsOnline;
    OnlineIff(cs, user);
    OnlineIff(ds, user);
    if user == userId { assert IsUser(ds[i], user); }
    forall k | 0 <= k < |cs| && k != i ensures ds[k] == cs[k] {
    }
  }

  lemma ApartUsers(cs: seq<Client>, next: nat, i: nat)
    requires ClientsOk(cs, next) && i < |cs| && cs[i].authenticated
    ensures forall k :: 0 <= k < |cs| && k != i ==> !IsUser(cs[k], cs[i].userId)
  {
    forall k | 0 <= k < |cs| && k != i ensures !IsUser(cs[k], cs[i].userId) {
      assert if k < i then Apart(cs[k], cs[i]) else Apart(cs[i], cs[k]);
    }
  }

  /** After the kicks a user who is nowhere else is in nothing. */
  lemma EngagedAfterKicks(s: Server, s1: Server, i: Slot, user: nat, userId: nat)
    requires BothOnline(s1) && !IsOnline(s1.clients, userId) && userId != 0
    requires forall j: Slot :: (s1.calls[j] == s.calls[j] || (!s1.calls[j].active && InCall(s.calls[j], userId)))
    requires forall j: Slot ::
        (s1.transfers[j] == s.transfers[j] || (!s1.transfers[j].active && InTransfer(s.transfers[j], userId)))
    ensures Engaged(s, user, userId) <==> Engaged(s1, user, userId)
    ensures forall j: Slot :: s1.calls[j].active ==> !InCall(s1.calls[j], userId)
    ensures forall j: Slot :: s1.transfers[j].active ==> !InTransfer(s1.transfers[j], userId)
  {
    hide IsOnline;
    forall j: Slot
      ensures CallWithout(s.calls[j], user, userId) <==> CallWithout(s1.calls[j], user, userId)
      ensures TransferWithout(s.transfers[j], user, userId) <==> TransferWithout(s1.transfers[j], user, userId)
    {
      assert CallUp(s1.calls[j], s1.clients) && TransferUp(s1.transfers[j], s1.clients);
    }
    forall j: Slot
      ensures s1.calls[j].active ==> !InCall(s1.calls[j], userId)
      ensures s1.transfers[j].active ==> !InTransfer(s1.transfers[j], userId)
    {
      assert CallUp(s1.calls[j], s1.clients) && TransferUp(s1.transfers[j], s1.clients);
    }
  }

  /** A user other than `spared` has left a call or a transfer that `spared` is not in. */
  predicate Stranded(s: Server, user: nat, spared: nat)
  {
    !IsOnline(s.clients, user) && Engaged(s, user, spared)
  }

  lemma StrandedIsDown(s: Server, user: nat, spared: nat)
    requires Stranded(s, user, spared)
    ensures !BothOnline(s)
  {
    hide IsOnline;
    if k :| 0 <= k < MAX_CLIENTS && CallWithout(s.calls[k], user, spared) {
      assert !CallUp(s.calls[k], s.clients);
    } else {
      var k :| 0 <= k < MAX_CLIENTS && TransferWithout(s.transfers[k], user, spared);
      assert !TransferUp(s.transfers[k], s.clients);
    }
  }

  lemma StrandedStays(s: Server, i: Slot, user: nat)
    requires Stranded(s, user, UserAt(s.clients[i]))
    ensures Stranded(CloseClient(s, i), user, UserAt(s.clients[i]))
  {
    hide IsOnline, CloseClient, Vacated;
    var t, w := CloseClient(s, i), UserAt(s.clients[i]);
    CloseExact(s, i, 0);
    VacatedOnline(s.clients, t.clients, i, user);
    if k :| 0 <= k < MAX_CLIENTS && CallWithout(s.calls[k], user, w) {
      CloseExact(s, i, k);
      assert CallWithout(t.calls[k], user, w);
    } else {
      var k :| 0 <= k < MAX_CLIENTS && TransferWithout(s.transfers[k], user, w);
      CloseExact(s, i, k);
      assert TransferWithout(t.transfers[k], user, w);
    }
  }

  lemma StrandedQueue(s: Server, i: Slot, p: Packet, user: nat, spared: nat)
    requires Stranded(s, user, spared)
    ensures Stranded(Queue(s, i, p).server, user, spared)
  {
    hide IsOnline, Queue;
    QueueFrame(s, i, p);
    SameOnline(s.clients, Queue(s, i, p).server.clients, user);
  }

  /** Logging in keeps both parties online exactly unless it strands somebody. */
  lemma AuthenticateUpIff(s: Server, i: Slot, userId: nat, username: string)
    requires Inv(s) && BothOnline(s) && s.clients[i].isOpen && IsIdentity(userId, username)
    ensures var t := Authenticate(s, i, userId, username);
      && UserAt(t.clients[i]) == userId
      && (Strands(s, i, userId) ==> Stranded(t, s.clients[i].userId, userId))
      && (!Strands(s, i, userId) ==> BothOnline(t))
  {
    hide IsOnline, Inv, KickOthersFrom, Engaged;
    var s1, t := KickOthersFrom(s, i, userId, 0), Authenticate(s, i, userId, username);
    KickOthersKeeps(s, i, userId, 0);
    AuthenticateKeeps(s, i, userId, username);
    forall j: Slot
      ensures s1.calls[j] == s.calls[j] || (!s1.calls[j].active && InCall(s.calls[j], userId))
      ensures s1.transfers[j] == s.transfers[j] || (!s1.transfers[j].active && InTransfer(s.transfers[j], userId))
      ensures BothOnline(s1)
    {
      KickSpares(s, i, userId, 0, j);
    }
    KickSpares(s, i, userId, 0, 0);
    ClientsOfInv(s1);
    if s1.clients[i].authenticated { ApartUsers(s1.clients, s1.nextSession, i); }
    forall user: nat
      ensures IsOnline(t.clients, user) <==>
                user != 0 && (user == userId
                    || (IsOnline(s1.clients, user) && !(s.clients[i].authenticated && user == s.clients[i].userId)))
    {
      ReboundOnline(s1.clients, t.clients, i, userId, user);
    }
    forall user: nat ensures IsOnline(s1.clients, user) ==> user != 0 {
      OnlineIff(s1.clients, user);
    }
    if s.clients[i].authenticated { LoggedInIsUser(s, i); }
    if s.clients[i].authenticated && s.clients[i].userId != userId {
      NowhereElse(s1.clients, i, userId);
      EngagedAfterKicks(s, s1, i, s.clients[i].userId, userId);
      ReboundUpIff(s1, t, s.clients[i].userId, userId);
    } else {
      ReboundUp(s1, t);
    }
  }

  lemma ClientsOfInv(s: Server)
    requires Inv(s)
    ensures ClientsOk(s.clients, s.nextSession)
  {
    hide TablesOk, ClientsOk;
  }

  lemma NowhereElse(cs: seq<Client>, i: nat, userId: nat)
    requires i < |cs| && !IsUser(cs[i], userId) && forall k :: 0 <= k < |cs| && k != i ==> !IsUser(cs[k], userId)
    ensures !IsOnline(cs, userId)
  {
    hide IsOnline;
    OnlineIff(cs, userId);
  }

  lemma ReboundUp(s: Server, t: Server)
    requires BothOnline(s) && t.calls == s.calls && t.transfers == s.transfers
    requires forall user: nat :: IsOnline(s.clients, user) ==> IsOnline(t.clients, user)
    ensures BothOnline(t)
  {
    hide IsOnline;
    forall k | 0 <= k < MAX_CLIENTS ensures CallUp(t.calls[k], t.clients) && TransferUp(t.transfers[k], t.clients) {
      assert CallUp(s.calls[k], s.clients) && TransferUp(s.transfers[k], s.clients);
    }
  }

  lemma ReboundUpIff(s: Server, t: Server, user: nat, userId: nat)
    requires BothOnline(s) && t.calls == s.calls && t.transfers == s.transfers
    requires forall u: nat :: IsOnline(s.clients, u) && u != user ==> IsOnline(t.clients, u)
    requires !IsOnline(t.clients, user) && user != 0
    requires forall j: Slot :: s.calls[j].active ==> !InCall(s.calls[j], userId)
    requires forall j: Slot :: s.transfers[j].active ==> !InTransfer(s.transfers[j], userId)
    ensures Engaged(s, user, userId) ==> Stranded(t, user, userId)
    ensures !Engaged(s, user, userId) ==> BothOnline(t)
  {
    hide IsOnline;
    if !Engaged(s, user, userId) {
      forall k | 0 <= k < MAX_CLIENTS ensures CallUp(t.calls[k], t.clients) && TransferUp(t.transfers[k], t.clients) {
        assert CallUp(s.calls[k], s.clients) && TransferUp(s.transfers[k], s.clients);
        assert !CallWithout(s.calls[k], user, userId) && !TransferWithout(s.transfers[k], user, userId);
      }
    }
  }

  // ----- one turn -----

  /** A turn that logs in, seen as a login followed by its reply. */
  lemma LoginShape(s: Server, i: Slot, r: Request) returns (store: S.Store, username: string, ids: seq<nat>)
    requires Inv(s) && LoginAs(s.store, r).Some?
    ensures var userId := LoginAs(s.store, r).value;
      && IsIdentity(userId, username) && Inv(s.(store := store))
      && Dispatch(s, i, r) == Respond(Authenticate(s.(store := store), i, userId, username), i, AuthGroup, OK, ids)
  {
    hide Inv, Authenticate, Respond, L.StoreOk, S.CreateAccount, S.UpdateLastLogin;
    StoreOfInv(s);
    if r.Register? {
      var out := S.CreateAccount(s.store, r.username, r.nickname, r.hash, r.salt);
      L.CreateAccountKeeps(s.store, r.username, r.nickname, r.hash, r.salt);
      CreatedIsIdentity(s.store, r.username, r.nickname, r.hash, r.salt);
      CreatedKeepsFiles(s.store, r);
      StoreChange(s, out.store);
      store, username := out.store, r.username;
    } else {
      var k := S.FindAccountByName(s.store, r.username);
      AccountIdInRange(s.store, k);
      var userId := s.store.accounts[k].userId;
      L.UpdateLastLoginKeeps(s.store, userId, 0);
      LoginKeepsFiles(s.store, userId);
      store, username := S.UpdateLastLogin(s.store, userId, 0).store, r.username;
      StoreChange(s, store);
    }
    var t := Authenticate(s.(store := store), i, LoginAs(s.store, r).value, username);
    ids := [LoginAs(s.store, r).value, t.clients[i].sessionId];
  }

  lemma CreatedKeepsFiles(st: S.Store, r: Request)
    requires r.Register?
    ensures S.CreateAccount(st, r.username, r.nickname, r.hash, r.salt).store.files == st.files
  {
  }

  lemma LoginKeepsFiles(st: S.Store, userId: nat)
    ensures S.UpdateLastLogin(st, userId, 0).store.files == st.files
  {
  }

  /** The turn dispatches a request that logs a connection in as another user, away from a call or transfer. */
  predicate Relogin(s: Server, i: Slot, io: ClientIo)
  {
    && s.clients[i].isOpen && io.flush != FlushFailed && io.recv.Received?
    && LoginAs(s.store, io.recv.request).Some?
    && Strands(s, i, LoginAs(s.store, io.recv.request).value)
  }

  lemma DispatchUpIff(s: Server, i: Slot, r: Request)
    requires Inv(s) && BothOnline(s) && s.clients[i].isOpen
    ensures var t, login := Dispatch(s, i, r).server, LoginAs(s.store, r);
      if login.Some? && Strands(s, i, login.value)
      then Stranded(t, s.clients[i].userId, login.value) && UserAt(t.clients[i]) == login.value
      else BothOnline(t)
  {
    hide Inv, BothOnline, Dispatch, Stranded, Engaged, Authenticate, LoginAs;
    var login := LoginAs(s.store, r);
    if login.None? {
      DispatchCalm(s, i, r);
      CalmKeepsUp(s, Dispatch(s, i, r).server);
    } else {
      var store, username, ids := LoginShape(s, i, r);
      var s0 := s.(store := store);
      StoreKeepsUp(s, store);
      AuthenticateUpIff(s0, i, login.value, username);
      var t := Authenticate(s0, i, login.value, username);
      ReplyKeepsUp(t, i, Reply(AuthGroup, OK, ids), s.clients[i].userId, login.value);
    }
  }

  lemma StoreKeepsUp(s: Server, store: S.Store)
    requires BothOnline(s)
    ensures BothOnline(s.(store := store))
    ensures forall i: Slot, userId: nat :: Strands(s.(store := store), i, userId) <==> Strands(s, i, userId)
  {
    hide IsOnline;
  }

  lemma ReplyKeepsUp(t: Server, i: Slot, p: Packet, user: nat, spared: nat)
    ensures var u := Queue(t, i, p).server;
      && (BothOnline(t) ==> BothOnline(u))
      && (Stranded(t, user, spared) ==> Stranded(u, user, spared))
      && UserAt(u.clients[i]) == UserAt(t.clients[i])
  {
    hide BothOnline, Stranded, Calm;
    CalmRefl(t);
    CalmQueue(t, t, i, p);
    if BothOnline(t) { CalmKeepsUp(t, Queue(t, i, p).server); }
    if Stranded(t, user, spared) { StrandedQueue(t, i, p, user, spared); }
  }

  lemma FlushKeepsUp(s: Server, i: Slot)
    requires BothOnline(s)
    ensures var t := s.(clients := s.clients[i := s.clients[i].(pending := None)]);
      s.clients[i].isOpen ==> BothOnline(t) && forall userId: nat :: Strands(t, i, userId) <==> Strands(s, i, userId)
  {
    hide IsOnline, BothOnline;
    var t := s.(clients := s.clients[i := s.clients[i].(pending := None)]);
    if s.clients[i].isOpen {
      assert Calm(s, t);
      CalmKeepsUp(s, t);
    }
  }

  /** The exact condition: when both parties of every call and transfer are online before a turn, they are
      afterwards, unless and only unless the turn logs a connection in as another user while its old user
      is in a call or a transfer with somebody else. */
  lemma TurnKeepsBothOnlineIff(s: Server, i: Slot, io: ClientIo)
    requires Inv(s) && BothOnline(s)
    ensures BothOnline(Serve(s, i, io)) <==> !Relogin(s, i, io)
  {
    hide Inv, BothOnline, Dispatch, CloseClient, Stranded, LoginAs, Strands;
    CloseKeepsUp(s, i);
    if s.clients[i].isOpen && io.flush != FlushFailed {
      FlushKeepsUp(s, i);
      FlushedOk(s, i);
      var s1 := if io.flush == Sent then s.(clients := s.clients[i := s.clients[i].(pending := None)]) else s;
      CloseKeepsUp(s1, i);
      if io.recv.Received? {
        DispatchUpIff(s1, i, io.recv.request);
        var t, login := Dispatch(s1, i, io.recv.request).server, LoginAs(s1.store, io.recv.request);
        if login.Some? && Strands(s1, i, login.value) {
          StrandedStays(t, i, s.clients[i].userId);
          StrandedIsDown(t, s.clients[i].userId, login.value);
          StrandedIsDown(CloseClient(t, i), s.clients[i].userId, login.value);
        } else {
          CloseKeepsUp(t, i);
        }
      }
    }
  }

  // ----- one pass -----

  lemma {:induction false} AcceptKeepsUp(s: Server, arrivals: nat)
    requires Inv(s) && BothOnline(s)
    ensures BothOnline(AcceptClients(s, arrivals))
    decreases arrivals
  {
    hide Inv, BothOnline, IsOnline;
    var k := FindClosed(s.clients);
    if k == MAX_CLIENTS {
    } else {
      FilledKeepsUp(s, k, false);
      FilledKeepsUp(s, k, true);
      ClosedSlotFilled(s, k, true);
      if arrivals > 0 { AcceptKeepsUp(s.(clients := s.clients[k := NO_CLIENT.(isOpen := true)]), arrivals - 1); }
    }
  }

  lemma FilledKeepsUp(s: Server, k: Slot, open: bool)
    requires Inv(s) && BothOnline(s) && !s.clients[k].isOpen
    ensures BothOnline(s.(clients := s.clients[k := NO_CLIENT.(isOpen := open)]))
  {
    hide TablesOk, IsOnline, BothOnline;
    var t := s.(clients := s.clients[k := NO_CLIENT.(isOpen := open)]);
    forall user: nat ensures IsOnline(s.clients, user) ==> IsOnline(t.clients, user) {
      OnlineIff(s.clients, user);
      OnlineIff(t.clients, user);
      if j :| 0 <= j < MAX_CLIENTS && IsUser(s.clients[j], user) { assert t.clients[j] == s.clients[j]; }
    }
    ReboundUp(s, t);
  }

  /** No turn of the pass, from slot `k` on, takes a user away from a call or a transfer. */
  predicate NoRelogin(s: Server, ios: seq<ClientIo>, k: nat)
    requires k <= MAX_CLIENTS == |ios|
    decreases MAX_CLIENTS - k
  {
    k == MAX_CLIENTS || (!Relogin(s, k, ios[k]) && NoRelogin(Serve(s, k, ios[k]), ios, k + 1))
  }

  lemma {:induction false} TurnsKeepUp(s: Server, ios: seq<ClientIo>, k: nat)
    requires Inv(s) && BothOnline(s) && k <= MAX_CLIENTS == |ios| && NoRelogin(s, ios, k)
    ensures BothOnline(ServeFrom(s, ios, k))
    decreases MAX_CLIENTS - k
  {
    hide Inv, BothOnline, Serve, Relogin;
    if k == MAX_CLIENTS {
    } else {
      TurnKeepsBothOnlineIff(s, k, ios[k]);
      ServeKeeps(s, k, ios[k]);
      TurnsKeepUp(Serve(s, k, ios[k]), ios, k + 1);
    }
  }

  /** The two sweeps find nothing to do exactly when everybody concerned is online. */
  lemma SweepsIdleIff(s: Server)
    ensures SweepCalls(SweepTransfers(s)) == s <==> BothOnline(s)
  {
    hide IsOnline;
    var t := SweepCalls(SweepTransfers(s));
    if BothOnline(s) {
      assert forall k :: 0 <= k < MAX_CLIENTS ==>
          CallUp(s.calls[k], s.clients) && TransferUp(s.transfers[k], s.clients);
      assert t.calls == s.calls && t.transfers == s.transfers;
    }
    if t == s {
      forall k | 0 <= k < MAX_CLIENTS ensures CallUp(s.calls[k], s.clients) && TransferUp(s.transfers[k], s.clients) {
        assert t.calls[k] == SweptCall(s.clients, s.calls[k])
            && t.transfers[k] == SweptTransfer(s.clients, s.transfers[k]);
      }
    }
  }

  /** Every pass ends with both parties of every call and transfer online, and its sweeps are needed for
      that only when one of its turns has taken a user away from a call or a transfer by logging in again. */
  lemma PassEndsUp(s: Server, p: T.Pass)
    requires T.IsPass(p)
    ensures BothOnline(RunOnce(s, p.arrivals, p.ios))
    ensures Inv(s) && BothOnline(s) && NoRelogin(AcceptClients(s, p.arrivals), p.ios, 0) ==>
              RunOnce(s, p.arrivals, p.ios) == ServeFrom(AcceptClients(s, p.arrivals), p.ios, 0)
  {
    hide Inv, IsOnline, AcceptClients, ServeFrom, NoRelogin;
    T.PassLeavesBothOnline(s, p);
    var accepted := AcceptClients(s, p.arrivals);
    if Inv(s) && BothOnline(s) && NoRelogin(accepted, p.ios, 0) {
      AcceptKeeps(s, p.arrivals);
      AcceptKeepsUp(s, p.arrivals);
      TurnsKeepUp(accepted, p.ios, 0);
      SweepsIdleIff(ServeFrom(accepted, p.ios, 0));
    }
  }

  lemma StartUp()
    ensures BothOnline(START)
  {
    hide IsOnline;
  }

  lemma {:induction false} PassesKeepUp(s: Server, passes: seq<T.Pass>)
    requires Inv(s) && BothOnline(s) && forall k :: 0 <= k < |passes| ==> T.IsPass(passes[k])
    ensures Inv(T.AfterPasses(s, passes)) && BothOnline(T.AfterPasses(s, passes))
    decreases |passes|
  {
    hide Inv, BothOnline, RunOnce;
    if passes == [] {
    } else {
      var p := passes[0];
      assert T.IsPass(p);
      T.PassKeeps(s, p);
      PassEndsUp(s, p);
      PassesKeepUp(RunOnce(s, p.arrivals, p.ios), passes[1..]);
    }
  }

  /** However many passes a server has made since it started, its invariant holds, both parties of every call
      and transfer are online, and the sweeps of the next pass change nothing unless one of that pass's turns
      takes a user away from a call or a transfer by logging in again. */
  lemma PassBoundariesAreUp(passes: seq<T.Pass>, next: T.Pass)
    requires T.IsPass(next) && forall k :: 0 <= k < |passes| ==> T.IsPass(passes[k])
    ensures var s := T.AfterPasses(START, passes);
      && Inv(s) && BothOnline(s)
      && (NoRelogin(AcceptClients(s, next.arrivals), next.ios, 0) ==>
            RunOnce(s, next.arrivals, next.ios) == ServeFrom(AcceptClients(s, next.arrivals), next.ios, 0))
  {
    hide Inv, BothOnline, T.AfterPasses, RunOnce, NoRelogin;
    StartOk();
    StartUp();
    PassesKeepUp(START, passes);
    PassEndsUp(T.AfterPasses(START, passes), next);
  }
}
