/** A run of the server is a run of its storage, and what is announced is what is stored. */
module Histories {
  import opened Wire
  import opened Server
  import opened ServerTraces
  import opened ServerLaws
  import opened ServerSteps
  import opened Delivery
  import opened CallEffects
  import opened FileEffects
  import opened Traffic
  import S = Storage
  import L = StorageLaws
  import T = ServerTheorems
  import E = EndToEnd

  // ----- the storage operation of a request -----

  lemma OneOp(st: S.Store, op: L.Op)
    ensures L.Run(st, [op]) == L.Apply(st, op).store && L.Run(st, []) == st
  {
    assert [op][1..] == [];
  }

  lemma {:induction false} OpsAppend(st: S.Store, a: seq<L.Op>, b: seq<L.Op>)
    ensures L.Run(st, a + b) == L.Run(L.Run(st, a), b)
    decreases |a|
  {
    hide L.Apply;
    if a == [] {
      assert a + b == b;
    } else {
      assert (a + b)[1..] == a[1..] + b;
      OpsAppend(L.Apply(st, a[0]).store, a[1..], b);
    }
  }

  lemma {:induction false} KickStore(s: Server, i: Slot, userId: nat, k: nat)
    requires k <= MAX_CLIENTS
    ensures KickOthersFrom(s, i, userId, k).store == s.store
    decreases MAX_CLIENTS - k
  {
    hide CloseClient;
    if k == MAX_CLIENTS {
    } else {
      CloseLogs(s, k);
      KickStore(if k != i && IsUser(s.clients[k], userId) then CloseClient(s, k) else s, i, userId, k + 1);
    }
  }

  lemma AuthenticateStore(s: Server, i: Slot, userId: nat, username: string)
    ensures Authenticate(s, i, userId, username).store == s.store
  {
    hide KickOthersFrom;
    KickStore(s, i, userId, 0);
  }

  lemma {:induction false} FanOutStore(s: Server, i: Slot, members: seq<nat>, conversationId: nat, messageId: nat,
        content: string)
    ensures FanOut(s, i, members, conversationId, messageId, content).store == s.store
    decreases |members|
  {
    hide Queue;
    if members == [] {
    } else {
      var peer := FindUser(s.clients, members[0]);
      var p := GroupNotify(conversationId, messageId, s.clients[i].userId, members[0], content);
      if peer < MAX_CLIENTS { QueueFrame(s, peer, p); }
      var s1 := if members[0] == s.clients[i].userId || peer == MAX_CLIENTS then s else Queue(s, peer, p).server;
      FanOutStore(s1, i, members[1..], conversationId, messageId, content);
    }
  }

  lemma QueueStore()
    ensures forall s: Server, i: Slot, p: Packet {:trigger Queue(s, i, p)} :: Queue(s, i, p).server.store == s.store
  {
  }

  lemma OwnStore(i: Slot)
    ensures forall s: Server, userId: nat, username: string {:trigger Authenticate(s, i, userId, username)} ::
              Authenticate(s, i, userId, username).store == s.store
    ensures forall s: Server, members: seq<nat>, c: nat, m: nat, text: string
              {:trigger FanOut(s, i, members, c, m, text)} ::
              FanOut(s, i, members, c, m, text).store == s.store
  {
    hide Authenticate, FanOut;
    forall s: Server, userId: nat, username: string ensures Authenticate(s, i, userId, username).store == s.store {
      AuthenticateStore(s, i, userId, username);
    }
    forall s: Server, members: seq<nat>, c: nat, m: nat, text: string
      ensures FanOut(s, i, members, c, m, text).store == s.store
    {
      FanOutStore(s, i, members, c, m, text);
    }
  }

  /** The operation that a request may perform. */
  function OpOf(s: Server, i: Slot, r: Request): L.Op
  {
    var user := s.clients[i].userId;
    match r
    case Register(u, n, h, salt) => L.OpCreateAccount(u, n, h, salt)
    case Login(u, _) =>
      var k := S.FindAccountByName(s.store, u);
      L.OpUpdateLastLogin(if k < |s.store.accounts| then s.store.accounts[k].userId else 0, 0)
    case Chat(to, text, id) => L.OpStorePrivate(S.Message(0, 0, user, to, 1, text, id, 0, 0))
    case GroupCreate(name, ids) => L.OpCreateGroup(name, user, ids)
    case GroupSend(c, text, id) => L.OpStoreGroup(S.Message(0, c, user, 0, 1, text, id, 0, 0))
    case StartFile(to, name, size, crc, content) =>
      L.OpStoreFile(S.Message(0, 0, user, to, 2, content, 0, 0, 0), name, size, crc)
    case CompleteFile(t) =>
      var k := FindTransfer(s.transfers, t);
      L.OpCompleteFile(if k < |s.transfers| then s.transfers[k].storageId else 0)
    case _ => L.OpCompleteFile(0)
  }

  lemma LoginStore(s: Server, i: Slot, r: Request)
    requires r.Register? || r.Login?
    ensures var t := Dispatch(s, i, r).server; t.store == s.store || t.store == L.Apply(s.store, OpOf(s, i, r)).store
  {
    hide Queue, Authenticate, S.CreateAccount, S.UpdateLastLogin, S.FindAccountByName;
    QueueStore();
    OwnStore(i);
  }

  lemma MessageStore(s: Server, i: Slot, r: Request)
    requires r.Chat? || r.GroupCreate? || r.GroupSend?
    ensures var t := Dispatch(s, i, r).server; t.store == s.store || t.store == L.Apply(s.store, OpOf(s, i, r)).store
  {
    hide Queue, FanOut, S.StorePrivateMessage, S.CreateGroup, S.StoreGroupMessage, S.ListGroupMembers;
    QueueStore();
    OwnStore(i);
  }

  lemma FileStore(s: Server, i: Slot, r: Request)
    requires r.StartFile? || r.CompleteFile?
    ensures var t := Dispatch(s, i, r).server; t.store == s.store || t.store == L.Apply(s.store, OpOf(s, i, r)).store
  {
    hide Queue, S.StoreFileTransfer, S.CompleteFileTransfer;
    QueueStore();
  }

  lemma ChunkStore(s: Server, i: Slot, r: Request)
    requires r.SendChunk?
    ensures Dispatch(s, i, r).server.store == s.store
  {
    hide Queue;
    QueueStore();
  }

  lemma ForwardStore(s: Server, i: Slot, k: Slot, op: CallOp, callId: nat, signal: Signal)
    ensures Forward(s, i, k, op, callId, signal).server.store == s.store
  {
    hide Queue;
    QueueStore();
  }

  lemma InviteStore(s: Server, i: Slot, peerId: nat, media: string)
    ensures HandleInvite(s, i, peerId, media).server.store == s.store
  {
    hide Queue, HasActiveCall;
    QueueStore();
  }

  lemma CallStore(s: Server, i: Slot, r: Request)
    requires r.CallRequest?
    ensures Dispatch(s, i, r).server.store == s.store
  {
    hide Queue, Forward, HandleInvite;
    QueueStore();
    InviteStore(s, i, r.peerId, r.media);
    var k := FindCall(s.calls, r.callId);
    if k < MAX_CLIENTS {
      ForwardStore(s, i, k, r.op, r.callId, r.signal);
      ForwardStore(s.(calls := s.calls[k := s.calls[k].(accepted := true)]), i, k, r.op, r.callId, r.signal);
    }
  }

  lemma OtherStore(s: Server, i: Slot, r: Request)
    requires !r.Register? && !r.Login? && !r.Chat? && !r.GroupCreate? && !r.GroupSend?
    requires !r.StartFile? && !r.CompleteFile? && !r.SendChunk? && !r.CallRequest?
    ensures Dispatch(s, i, r).server.store == s.store
  {
    hide Queue, OnlineBelow;
    QueueStore();
  }

  /** A request performs one storage operation or none. */
  lemma DispatchStore(s: Server, i: Slot, r: Request)
    ensures var t := Dispatch(s, i, r).server; t.store == s.store || t.store == L.Apply(s.store, OpOf(s, i, r)).store
  {
    hide Dispatch, L.Apply, OpOf;
    if r.Register? || r.Login? { LoginStore(s, i, r); }
    else if r.Chat? || r.GroupCreate? || r.GroupSend? { MessageStore(s, i, r); }
    else if r.StartFile? || r.CompleteFile? { FileStore(s, i, r); }
    else if r.SendChunk? { ChunkStore(s, i, r); }
    else if r.CallRequest? { CallStore(s, i, r); }
    else { OtherStore(s, i, r); }
  }

  lemma {:induction false} AcceptStore(s: Server, arrivals: nat)
    ensures AcceptClients(s, arrivals).store == s.store
    decreases arrivals
  {
    var k := FindClosed(s.clients);
    if k < MAX_CLIENTS && arrivals > 0 {
      AcceptStore(s.(clients := s.clients[k := NO_CLIENT.(isOpen := true)]), arrivals - 1);
    }
  }

  lemma StepStore(s: Server, e: Event) returns (ops: seq<L.Op>)
    ensures Step(s, e).store == L.Run(s.store, ops)
  {
    hide Dispatch, CloseClient, AcceptClients, L.Apply, L.Run, OpOf;
    ops := [];
    OneOp(s.store, L.OpCompleteFile(0));
    if e.Arrive? { AcceptStore(s, e.n); }
    if e.Turn? {
      CloseLogs(s, e.i);
      var s1 := AfterFlush(s, e);
      CloseLogs(s1, e.i);
      if e.io.recv.Received? {
        var r := e.io.recv.request;
        DispatchStore(s1, e.i, r);
        OneOp(s.store, OpOf(s1, e.i, r));
        CloseLogs(Dispatch(s1, e.i, r).server, e.i);
        if Step(s, e).store != s.store { ops := [OpOf(s1, e.i, r)]; }
      }
    }
  }

  /** Whatever is done at the server, its tables are those of a run of storage operations. */
  lemma {:induction false} StoreIsRun(s: Server, events: seq<Event>) returns (ops: seq<L.Op>)
    ensures Run(s, events).store == L.Run(s.store, ops)
    decreases |events|
  {
    hide Step, L.Run;
    if events == [] {
      ops := [];
      OneOp(s.store, L.OpCompleteFile(0));
    } else {
      var first := StepStore(s, events[0]);
      var rest := StoreIsRun(Step(s, events[0]), events[1..]);
      ops := first + rest;
      OpsAppend(s.store, first, rest);
    }
  }

  /** So whatever is done at the server before the first request and between requests, paging through a pair's
      history visits every message the pair had at the first request, once each, newest first. */
  lemma HistoryOverRuns(events: seq<Event>, between: seq<seq<L.Op>>, a: nat, b: nat, c: nat, limit: nat, capacity: nat)
    requires L.Talks(T.After(events).store, a, b, c) && 0 < limit <= capacity
    requires |T.After(events).store.messages| <= |between|
    ensures var st := T.After(events).store;
      var all := L.Follow(L.Snapshots(st, between), a, b, 0, limit, capacity);
      && L.Descends(all)
      && (forall m: S.Message :: m in all <==> m in st.messages && m.conversationId == c)
  {
    hide L.Run, L.Follow, L.Snapshots, L.Talks, L.Descends, Run;
    var ops := StoreIsRun(START, events);
    L.PaginationOverRuns(ops, between, a, b, c, limit, capacity);
  }

  // ----- what a start announces -----

  /** The announced message and delivery are rows of the store, from and for the announced users. */
  predicate IsNamed(p: Packet, st: S.Store)
  {
    p.FileStart? ==>
      && 1 <= p.messageId <= |st.messages| && 1 <= p.deliveryId <= |st.deliveries|
      && st.messages[p.messageId - 1].sender == p.from && st.messages[p.messageId - 1].receiver == p.to
      && st.deliveries[p.deliveryId - 1].messageId == p.messageId && st.deliveries[p.deliveryId - 1].receiver == p.to
  }

  ghost predicate StartsNamed(log: seq<Entry>, st: S.Store)
  {
    forall k :: 0 <= k < |log| ==> IsNamed(log[k].packet, st)
  }

  lemma StillNamed(p: Packet, s: S.Store, t: S.Store)
    requires IsNamed(p, s) && L.Evolves(s, t)
    ensures IsNamed(p, t)
  {
    if p.FileStart? { assert L.SameDelivery(s.deliveries[p.deliveryId - 1], t.deliveries[p.deliveryId - 1]); }
  }

  /** Everything new in the log is named by the store. */
  ghost predicate NewNamed(log: seq<Entry>, t: Server)
  {
    log <= t.log && forall k :: |log| <= k < |t.log| ==> IsNamed(t.log[k].packet, t.store)
  }

  lemma AnswerNamed(log: seq<Entry>, t: Server, i: Slot, p: Packet)
    requires NewNamed(log, t) && !p.FileStart?
    ensures NewNamed(log, Answered(t, i, p).server)
  {
  }

  lemma StartNamed(s: Server, i: Slot, r: Request)
    requires Inv(s) && s.clients[i].isOpen && r.StartFile?
    ensures NewNamed(s.log, Dispatch(s, i, r).server)
  {
    hide Inv, Dispatch, Storing, S.StoreFileTransfer, FindUser, IsStart, L.StoreOk, NewNamed, Answered;
    OldNamed(s);
    if !s.clients[i].authenticated {
      NotLoggedIn(s, i, r);
      AnswerNamed(s.log, s, i, Reply(FileGroup, InvalidState, []));
    } else {
      StartRefused(s, i, r);
      forall status: Status ensures NewNamed(s.log, Answered(s, i, Reply(FileGroup, status, [])).server) {
        AnswerNamed(s.log, s, i, Reply(FileGroup, status, []));
      }
      var k, j := FindFreeTransfer(s.transfers), FindUser(s.clients, r.receiver);
      if IsStart(s, i, r) && k < MAX_CLIENTS && j < MAX_CLIENTS && Storing(s, i, r).status == OK {
        FirstIdle(s, k);
        StartedNamed(s, i, r, k, j);
      } else {
        PlaceOf(s, r.receiver, 0);
        FirstIdle(s, 0);
      }
    }
  }

  lemma OldNamed(s: Server)
    ensures NewNamed(s.log, s)
  {
  }

  lemma NotLoggedIn(s: Server, i: Slot, r: Request)
    requires s.clients[i].isOpen && !s.clients[i].authenticated && r.StartFile?
    ensures Dispatch(s, i, r) == Answered(s, i, Reply(FileGroup, InvalidState, []))
  {
  }

  lemma StartedNamed(s: Server, i: Slot, r: Request, k: Slot, j: Slot)
    requires Inv(s) && r.StartFile? && CanStart(s, i, r, k, j)
    ensures NewNamed(s.log, Dispatch(s, i, r).server)
  {
    hide Inv, Dispatch, Storing, S.StoreFileTransfer, FindUser, IsStart, L.StoreOk, Answered;
    StoredIds(s, i, r);
    if s.clients[j].pending.Some? {
      StartToBusy(s, i, r, k, j);
    } else {
      StartExact(s, i, r, k, j);
      var notify := FileStart(s.nextTransfer, |s.store.messages| + 1, |s.store.deliveries| + 1, s.clients[i].userId,
                              r.receiver, r.fileName, r.fileSize, r.crc32);
      var told := s.(clients := s.clients[j := s.clients[j].(pending := Some(notify))], store := Storing(s, i, r).store,
                     transfers := s.transfers[k := NewTransfer(s, i, r)], nextTransfer := s.nextTransfer + 1,
                     log := s.log + [Entry(j, r.receiver, notify)]);
      AnswerNamed(s.log, told, i,
                  Reply(FileGroup, OK, [s.nextTransfer, |s.store.messages| + 1, |s.store.deliveries| + 1]));
    }
  }

  lemma TurnNamed(s: Server, e: Event)
    requires Inv(s)
    ensures NewNamed(s.log, Step(s, e))
  {
    hide Inv, Dispatch, CloseClient, NewNamed, Step;
    var t := Step(s, e);
    if e.Turn? && SubmittedIn(s, e) != [] && e.io.recv.request.StartFile? {
      var r := e.io.recv.request;
      var s1 := AfterFlush(s, e);
      FlushedOk(s, e.i);
      StartNamed(s1, e.i, r);
      StartTurnNamed(s, e);
    } else {
      StepTraced(s, e);
      NothingStarted(s.log, t, SubmittedIn(s, e));
    }
  }

  lemma StartTurnNamed(s: Server, e: Event)
    requires e.Turn? && SubmittedIn(s, e) != []
        && NewNamed(s.log, Dispatch(AfterFlush(s, e), e.i, e.io.recv.request).server)
    ensures NewNamed(s.log, Step(s, e))
  {
    hide Dispatch, CloseClient, IsNamed;
    var told := Dispatch(AfterFlush(s, e), e.i, e.io.recv.request).server;
    CloseLogs(told, e.i);
    var closed := CloseClient(told, e.i);
    forall k | |told.log| <= k < |closed.log| ensures IsNamed(closed.log[k].packet, closed.store) {
      HangupIsNamed(closed.log[k].packet, closed.store);
    }
  }

  lemma HangupIsNamed(p: Packet, st: S.Store)
    requires p.CallNotify?
    ensures IsNamed(p, st)
  {
  }

  lemma NothingStarted(log: seq<Entry>, t: Server, sent: seq<Submission>)
    requires Traced(log, t.log, sent) && forall k :: 0 <= k < |sent| ==> !sent[k].request.StartFile?
    ensures NewNamed(log, t)
  {
    forall k | |log| <= k < |t.log| ensures IsNamed(t.log[k].packet, t.store) {
      assert ComesFrom(t.log[k].packet, sent);
    }
  }

  lemma {:induction false} StaysNamed(s: Server, events: seq<Event>)
    requires Inv(s) && StartsNamed(s.log, s.store)
    ensures StartsNamed(Run(s, events).log, Run(s, events).store)
    decreases |events|
  {
    hide Inv, Step, IsNamed, L.StoreOk, L.Evolves, L.Run;
    if events == [] {
    } else {
      var t := Step(s, events[0]);
      TurnNamed(s, events[0]);
      var ops := StepStore(s, events[0]);
      StoreOfInv(s);
      L.RunKeeps(s.store, ops);
      forall k | 0 <= k < |t.log| ensures IsNamed(t.log[k].packet, t.store) {
        if k < |s.log| { StillNamed(s.log[k].packet, s.store, t.store); }
      }
      StepKeeps(s, events[0]);
      StaysNamed(t, events[1..]);
    }
  }

  lemma StepKeeps(s: Server, e: Event)
    requires Inv(s)
    ensures Inv(Step(s, e))
  {
    hide Inv, Step;
    RunKeeps(s, [e]);
    T.RunOne(s, e);
  }

  /** Over any run, every file that was announced was announced under the numbers of a stored message and of its
      delivery, from the sender and for the receiver; and so says every transfer in progress. */
  lemma AnnouncedIsStored(events: seq<Event>)
    ensures var s := T.After(events);
      && StartsNamed(s.log, s.store)
      && forall k: Slot :: s.transfers[k].active ==> IsNamed(StartOf(s.transfers[k]), s.store)
  {
    hide Inv, IsNamed, StartOf, Run;
    StartOk();
    StaysNamed(START, events);
    T.AfterOk(events);
    var s := T.After(events);
    forall k: Slot | s.transfers[k].active ensures IsNamed(StartOf(s.transfers[k]), s.store) {
      var n := TransferStart(s, k);
    }
  }

  lemma TransferStart(s: Server, k: Slot) returns (n: nat)
    requires Inv(s) && s.transfers[k].active
    ensures n < |s.log| && s.log[n].packet == StartOf(s.transfers[k])
  {
    hide ClientsOk, CallsOk, LogOk, FileTracesOk, RecordsOk, L.StoreOk, FileTrace, Relayed;
    var trace := FileTrace(s.log, s.transfers[k].id);
    assert TransferOk(s.transfers[k], s.nextTransfer, s.store.files, trace);
    n := E.FileEntry(s.log, s.transfers[k].id, 0);
  }
}
