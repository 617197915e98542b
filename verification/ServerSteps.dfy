/** Every event at the server keeps the invariant, so every run does. */
module ServerSteps {
  import opened Wire
  import opened Server
  import opened ServerTraces
  import opened ServerLaws
  import S = Storage
  import L = StorageLaws

  // ----- closing a connection -----

  /** Only send slots, call slots and the log differ. */
  predicate OnlyCalls(s: Server, t: Server)
  {
    && SameClients(s.clients, t.clients)
    && t == s.(clients := t.clients, calls := t.calls, log := t.log)
  }

  lemma DropCallKeeps(s: Server, k: Slot, userId: nat)
    requires TablesOk(s) && s.calls[k].active && InCall(s.calls[k], userId)
    ensures TablesOk(DropCall(s, k, userId)) && OnlyCalls(s, DropCall(s, k, userId))
  {
    hide CallsOk, TransfersOk, LogOk, SameClients, Queue;
    var c := s.calls[k];
    var peerId := PeerOf(c, userId);
    var peer := FindUser(s.clients, peerId);
    SameClientsRefl(s.clients);
    if peer < MAX_CLIENTS {
      var p := CallNotify(Hangup, c.id, userId, peerId, c.media, NO_SIGNAL);
      QueueFrame(s, peer, p);
      if Queue(s, peer, p).status == OK {
        var e := EntryFor(s, peer, p);
        CallsRelay(s.calls, s.nextCall, s.log, k, e);
        TransfersIgnore(s.transfers, s.nextTransfer, s.store.files, s.log, e);
        LogGrows(s.log, e);
      } else {
        ClearCallSlot(s, k);
      }
    } else {
      ClearCallSlot(s, k);
    }
  }

  lemma SameClientsRefl(cs: seq<Client>)
    ensures SameClients(cs, cs)
  {
  }

  lemma {:induction false} ClearCallsFromKeeps(s: Server, userId: nat, k: nat)
    requires TablesOk(s) && k <= MAX_CLIENTS
    ensures TablesOk(ClearCallsFrom(s, userId, k)) && OnlyCalls(s, ClearCallsFrom(s, userId, k))
    decreases MAX_CLIENTS - k
  {
    hide TablesOk, SameClients, DropCall;
    SameClientsRefl(s.clients);
    if k == MAX_CLIENTS {
    } else {
      if s.calls[k].active && InCall(s.calls[k], userId) {
        var s1 := DropCall(s, k, userId);
        DropCallKeeps(s, k, userId);
        ClearCallsFromKeeps(s1, userId, k + 1);
        SameClientsTrans(s.clients, s1.clients, ClearCallsFrom(s1, userId, k + 1).clients);
      } else {
        ClearCallsFromKeeps(s, userId, k + 1);
      }
    }
  }

  lemma ClearTransfersForKeeps(s: Server, userId: nat)
    requires TablesOk(s)
    ensures TablesOk(ClearTransfersFor(s, userId))
  {
    hide CallsOk, TransfersOk, LogOk;
    var t := ClearTransfersFor(s, userId);
    TransfersShrink(s.transfers, t.transfers, s.nextTransfer, s.store.files, s.log);
  }

  /** Slot `i` is vacated; elsewhere only send slots may have been filled. */
  predicate Vacated(cs: seq<Client>, ds: seq<Client>, i: nat)
  {
    |cs| == |ds| && i < |ds| && ds[i] == NO_CLIENT && forall k :: 0 <= k < |cs| && k != i ==> SameClient(cs[k], ds[k])
  }

  lemma CloseClientKeeps(s: Server, i: Slot)
    requires Inv(s)
    ensures var t := CloseClient(s, i);
      && Inv(t) && Vacated(s.clients, t.clients, i)
      && t.nextSession == s.nextSession && t.store == s.store
  {
    hide CallsOk, TransfersOk, LogOk;
    var c := s.clients[i];
    var userId := if c.authenticated then c.userId else 0;
    var s1 := if c.isOpen then s.(clients := s.clients[i := c.(isOpen := false, pending := None)]) else s;
    ClearTransfersForKeeps(s1, userId);
    var s2 := ClearTransfersFor(s1, userId);
    ClearCallsFromKeeps(s2, userId, 0);
    SameClientsRefl(s2.clients);
    var s3 := ClearCallsFor(s2, userId);
    assert OnlyCalls(s2, s3);
    forall k | 0 <= k < MAX_CLIENTS && k != i ensures SameClient(s.clients[k], s3.clients[k]) {
      assert SameClient(s2.clients[k], s3.clients[k]);
    }
    VacatedOk(s.clients, s3.clients[i := NO_CLIENT], i, s.nextSession);
  }

  lemma VacatedOk(cs: seq<Client>, ds: seq<Client>, i: nat, next: nat)
    requires ClientsOk(cs, next) && Vacated(cs, ds, i)
    ensures ClientsOk(ds, next)
  {
    forall k | 0 <= k < |ds| ensures ClientOk(ds[k], next) {
      assert ClientOk(cs[k], next);
    }
    forall k, j | 0 <= k < j < |ds| ensures Apart(ds[k], ds[j]) {
      assert Apart(cs[k], cs[j]);
    }
  }

  // ----- authentication -----

  predicate KickedFrom(cs: seq<Client>, ds: seq<Client>, i: nat, userId: nat, k: nat)
  {
    && |cs| == |ds| && i < |cs| && SameClient(cs[i], ds[i])
    && (forall j :: 0 <= j < |cs| && j != i ==> SameClient(cs[j], ds[j]) || ds[j] == NO_CLIENT)
    && (forall j :: k <= j < |cs| && j != i ==> !IsUser(ds[j], userId))
  }

  lemma {:induction false} KickOthersKeeps(s: Server, i: Slot, userId: nat, k: nat)
    requires Inv(s) && k <= MAX_CLIENTS
    ensures var t := KickOthersFrom(s, i, userId, k);
      && Inv(t) && KickedFrom(s.clients, t.clients, i, userId, k)
      && t.nextSession == s.nextSession && t.store == s.store
    decreases MAX_CLIENTS - k
  {
    hide Inv, CloseClient;
    if k == MAX_CLIENTS {
    } else {
      if k != i && IsUser(s.clients[k], userId) {
        var s1 := CloseClient(s, k);
        CloseClientKeeps(s, k);
        KickOthersKeeps(s1, i, userId, k + 1);
        KickStep(s.clients, s1.clients, KickOthersFrom(s1, i, userId, k + 1).clients, i, userId, k);
      } else {
        KickOthersKeeps(s, i, userId, k + 1);
        KickSkip(s.clients, KickOthersFrom(s, i, userId, k + 1).clients, i, userId, k);
      }
    }
  }

  lemma KickStep(cs: seq<Client>, ds: seq<Client>, es: seq<Client>, i: nat, userId: nat, k: nat)
    requires Vacated(cs, ds, k) && k != i && KickedFrom(ds, es, i, userId, k + 1)
    ensures KickedFrom(cs, es, i, userId, k)
  {
    forall j | 0 <= j < |cs| && j != i ensures SameClient(cs[j], es[j]) || es[j] == NO_CLIENT {
      if j != k { assert SameClient(cs[j], ds[j]); }
    }
  }

  lemma KickSkip(cs: seq<Client>, es: seq<Client>, i: nat, userId: nat, k: nat)
    requires KickedFrom(cs, es, i, userId, k + 1) && k < |cs| && (k == i || !IsUser(cs[k], userId))
    ensures KickedFrom(cs, es, i, userId, k)
  {
  }

  /** Logging in, as the same or as another user, keeps users and sessions apart. */
  lemma AuthenticateKeeps(s: Server, i: Slot, userId: nat, username: string)
    requires Inv(s) && s.clients[i].isOpen && IsIdentity(userId, username)
    ensures var t := Authenticate(s, i, userId, username);
      && Inv(t) && t.clients[i].isOpen && IsUser(t.clients[i], userId) && t.store == s.store
      && (forall k :: 0 <= k < MAX_CLIENTS && k != i ==> !IsUser(t.clients[k], userId))
  {
    hide CallsOk, TransfersOk, LogOk, KickOthersFrom;
    KickOthersKeeps(s, i, userId, 0);
    var s1 := KickOthersFrom(s, i, userId, 0);
    var c := s1.clients[i].(authenticated := true, userId := userId, sessionId := s1.nextSession, username := username);
    var ds := s1.clients[i := c];
    forall k | 0 <= k < MAX_CLIENTS ensures ClientOk(ds[k], s1.nextSession + 1) {
      assert ClientOk(s1.clients[k], s1.nextSession);
    }
    forall k, j | 0 <= k < j < MAX_CLIENTS ensures Apart(ds[k], ds[j]) {
      assert Apart(s1.clients[k], s1.clients[j]);
      assert ClientOk(s1.clients[k], s1.nextSession) && ClientOk(s1.clients[j], s1.nextSession);
      assert k != i ==> !IsUser(s1.clients[k], userId);
      assert j != i ==> !IsUser(s1.clients[j], userId);
    }
  }

  // ----- the store underneath -----

  lemma StoreChange(s: Server, st: S.Store)
    requires Inv(s) && L.StoreOk(st) && s.store.files <= st.files
    requires forall i :: |s.store.files| <= i < |st.files| ==> !st.files[i].completed
    ensures Inv(s.(store := st))
  {
    hide CallsOk, TransfersOk, LogOk, ClientsOk;
    FilesGrow(s.transfers, s.nextTransfer, s.store.files, st.files, s.log);
  }

  lemma RespondKeeps(s: Server, i: Slot, group: Group, status: Status, ids: seq<nat>)
    requires Inv(s)
    ensures Inv(Respond(s, i, group, status, ids).server)
    ensures SameClients(s.clients, Respond(s, i, group, status, ids).server.clients)
  {
    QueueOther(s, i, Reply(group, status, ids));
    QueueFrame(s, i, Reply(group, status, ids));
  }

  lemma StoreOfInv(s: Server)
    requires Inv(s)
    ensures L.StoreOk(s.store)
  {
  }

  lemma RegisterKeeps(s: Server, i: Slot, username: string, nickname: Option<string>, hash: string, salt: string)
    requires Inv(s) && s.clients[i].isOpen
    ensures Inv(HandleRegister(s, i, username, nickname, hash, salt).server)
  {
    hide Inv, Authenticate, Respond, L.StoreOk;
    StoreOfInv(s);
    var out := S.CreateAccount(s.store, username, nickname, hash, salt);
    L.CreateAccountKeeps(s.store, username, nickname, hash, salt);
    CreatedIsIdentity(s.store, username, nickname, hash, salt);
    StoreChange(s, out.store);
    var s0 := s.(store := out.store);
    if out.status != OK {
      RespondKeeps(s0, i, AuthGroup, out.status, []);
    } else {
      AuthenticateKeeps(s0, i, out.id, username);
      var s1 := Authenticate(s0, i, out.id, username);
      RespondKeeps(s1, i, AuthGroup, OK, [out.id, s1.clients[i].sessionId]);
    }
  }

  lemma AccountIdInRange(st: S.Store, k: nat)
    requires L.StoreOk(st) && k < |st.accounts|
    ensures 1 <= st.accounts[k].userId <= S.MAX_ACCOUNTS
  {
  }

  lemma CreatedIsIdentity(st: S.Store, username: string, nickname: Option<string>, hash: string, salt: string)
    requires L.StoreOk(st)
    ensures var out := S.CreateAccount(st, username, nickname, hash, salt);
      out.status == OK ==> IsIdentity(out.id, username)
  {
    L.NextIds(st);
  }

  lemma LoginKeeps(s: Server, i: Slot, username: string, hash: string)
    requires Inv(s) && s.clients[i].isOpen
    ensures Inv(HandleLogin(s, i, username, hash).server)
  {
    hide Inv, Authenticate, Respond, L.StoreOk;
    StoreOfInv(s);
    var k := S.FindAccountByName(s.store, username);
    RespondKeeps(s, i, AuthGroup, InvalidArgument, []);
    RespondKeeps(s, i, AuthGroup, NotFound, []);
    RespondKeeps(s, i, AuthGroup, InvalidState, []);
    if k < |s.store.accounts| && S.StringIsValid(username, S.MAX_USERNAME_LEN, false) {
      var account := s.store.accounts[k];
      AccountIdInRange(s.store, k);
      L.UpdateLastLoginKeeps(s.store, account.userId, 0);
      var s0 := s.(store := S.UpdateLastLogin(s.store, account.userId, 0).store);
      StoreChange(s, s0.store);
      AuthenticateKeeps(s0, i, account.userId, username);
      var s1 := Authenticate(s0, i, account.userId, username);
      RespondKeeps(s1, i, AuthGroup, OK, [account.userId, s1.clients[i].sessionId]);
    }
  }

  lemma QueueKeeps(s: Server, i: Slot, p: Packet)
    requires Inv(s) && !p.CallNotify? && !IsFilePacket(p) && Addressed(EntryFor(s, i, p))
    ensures Inv(Queue(s, i, p).server) && SameClients(s.clients, Queue(s, i, p).server.clients)
  {
    QueueOther(s, i, p);
    QueueFrame(s, i, p);
  }

  lemma FilesKept(st: S.Store, m: S.Message)
    requires L.StoreOk(st)
    ensures var out := S.StorePrivateMessage(st, m);
        L.StoreOk(out.store) && (out.status == OK ==> out.store.files == st.files)
  {
    hide L.StoreOk, S.StorePrivateMessage;
    L.StorePrivateKeeps(st, m);
  }

  lemma ChatKeeps(s: Server, i: Slot, receiver: nat, content: string, clientMessageId: nat)
    requires Inv(s)
    ensures Inv(HandleChat(s, i, receiver, content, clientMessageId).server)
  {
    hide Inv, Respond, Queue, L.StoreOk, S.StorePrivateMessage, SameClients;
    StoreOfInv(s);
    var sender := s.clients[i].userId;
    var m := S.Message(0, 0, sender, receiver, 1, content, clientMessageId, 0, 0);
    var out := S.StorePrivateMessage(s.store, m);
    FilesKept(s.store, m);
    RespondKeeps(s, i, ChatGroup, InvalidArgument, []);
    RespondKeeps(s, i, ChatGroup, out.status, []);
    if out.status == OK {
      StoreChange(s, out.store);
      var s0 := s.(store := out.store);
      RespondKeeps(s0, i, ChatGroup, OK, [out.id, out.deliveryId]);
      var s1 := Respond(s0, i, ChatGroup, OK, [out.id, out.deliveryId]).server;
      var peer := FindUser(s1.clients, receiver);
      if peer < MAX_CLIENTS {
        QueueKeeps(s1, peer, ChatNotify(out.id, out.deliveryId, sender, receiver, content));
      }
    }
  }

  lemma {:induction false} FanOutKeeps(s: Server, i: Slot, members: seq<nat>, conversationId: nat, messageId: nat,
        content: string)
    requires Inv(s)
    ensures Inv(FanOut(s, i, members, conversationId, messageId, content))
    decreases |members|
  {
    hide Inv, Queue;
    if members == [] {
    } else {
      var sender, member := s.clients[i].userId, members[0];
      var peer := FindUser(s.clients, member);
      if member == sender || peer == MAX_CLIENTS {
        FanOutKeeps(s, i, members[1..], conversationId, messageId, content);
      } else {
        var p := GroupNotify(conversationId, messageId, sender, member, content);
        QueueKeeps(s, peer, p);
        FanOutKeeps(Queue(s, peer, p).server, i, members[1..], conversationId, messageId, content);
      }
    }
  }

  lemma GroupCreateKeeps(s: Server, i: Slot, name: string, ids: seq<nat>)
    requires Inv(s)
    ensures Inv(HandleGroupCreate(s, i, name, ids).server)
  {
    hide Inv, Respond, L.StoreOk;
    StoreOfInv(s);
    var out := S.CreateGroup(s.store, name, s.clients[i].userId, ids);
    L.CreateGroupKeeps(s.store, name, s.clients[i].userId, ids);
    StoreChange(s, out.store);
    RespondKeeps(s.(store := out.store), i, ConversationGroup, out.status, if out.status == OK then [out.id] else []);
  }

  lemma GroupSendKeeps(s: Server, i: Slot, conversationId: nat, content: string, clientMessageId: nat)
    requires Inv(s)
    ensures Inv(HandleGroupSend(s, i, conversationId, content, clientMessageId).server)
  {
    hide Inv, Respond, FanOut, L.StoreOk, S.ListGroupMembers;
    StoreOfInv(s);
    var m := S.Message(0, conversationId, s.clients[i].userId, 0, 1, content, clientMessageId, 0, 0);
    var out := S.StoreGroupMessage(s.store, m);
    L.StoreGroupKeeps(s.store, m);
    assert out.store.files == s.store.files;
    RespondKeeps(s, i, ConversationGroup, InvalidArgument, []);
    RespondKeeps(s, i, ConversationGroup, out.status, []);
    if out.status == OK {
      StoreChange(s, out.store);
      var s0 := s.(store := out.store);
      RespondKeeps(s0, i, ConversationGroup, OK, [conversationId, out.id]);
      var s1 := Respond(s0, i, ConversationGroup, OK, [conversationId, out.id]).server;
      var listing := S.ListGroupMembers(out.store, conversationId, S.MAX_GROUP_MEMBERS);
      FanOutKeeps(s1, i, listing.rows, conversationId, out.id, content);
    }
  }

  // ----- file relay -----

  lemma StoredFileMeans(st: S.Store, m: S.Message, fileName: string, fileSize: nat, crc32: bv32)
    requires L.StoreOk(st)
    ensures var out := S.StoreFileTransfer(st, m, fileName, fileSize, crc32);
      && L.StoreOk(out.store)
      && (out.status == OK ==>
            && out.fileId == |st.files| + 1
            && out.store.files == st.files
                + [S.FileRecord(out.fileId, out.id, m.sender, m.receiver, fileName, fileSize, crc32, false)])
  {
    hide S.StorePrivateMessage, L.StoreOk;
    var n := m.(contentType := S.CONTENT_FILE);
    L.StorePrivateKeeps(st, n);
    L.StoreFileKeeps(st, m, fileName, fileSize, crc32);
    L.NextIds(st);
  }

  lemma FileStartKeeps(s: Server, i: Slot, receiver: nat, fileName: string, fileSize: nat, crc32: bv32, content: string)
    requires Inv(s)
    ensures Inv(HandleFileStart(s, i, receiver, fileName, fileSize, crc32, content).server)
  {
    hide Inv, Respond, Queue, L.StoreOk, S.StoreFileTransfer, SameClients;
    StoreOfInv(s);
    var sender := s.clients[i].userId;
    var m := S.Message(0, 0, sender, receiver, S.CONTENT_FILE, content, 0, 0, 0);
    var out := S.StoreFileTransfer(s.store, m, fileName, fileSize, crc32);
    StoredFileMeans(s.store, m, fileName, fileSize, crc32);
    RespondKeeps(s, i, FileGroup, InvalidArgument, []);
    RespondKeeps(s, i, FileGroup, NotFound, []);
    RespondKeeps(s, i, FileGroup, BufferTooSmall, []);
    RespondKeeps(s, i, FileGroup, out.status, []);
    var peer, k := FindUser(s.clients, receiver), FindFreeTransfer(s.transfers);
    if receiver != sender && 1 <= fileSize <= MAX_FILE_SIZE && peer < MAX_CLIENTS && k < MAX_CLIENTS
        && out.status == OK {
      StoreChange(s, out.store);
      var t := Transfer(true, s.nextTransfer, out.fileId, out.id, out.deliveryId, sender, receiver, fileName,
          fileSize, 0, 0, crc32);
      StartKeeps(s.(store := out.store), i, peer, k, t);
    }
  }

  lemma TransfersOfInv(s: Server)
    requires Inv(s)
    ensures TransfersOk(s.transfers, s.nextTransfer, s.store.files, s.log)
  {
    hide TransfersOk;
  }

  /** A packet of a transfer is logged and the transfer table moves on with it. */
  lemma FileQueued(s: Server, clients: seq<Client>, transfers: seq<Transfer>, next: nat, e: Entry)
    requires Inv(s) && SameClients(s.clients, clients) && |transfers| == MAX_CLIENTS
    requires Addressed(e) && !e.packet.CallNotify?
    requires TransfersOk(transfers, next, s.store.files, s.log + [e])
    ensures Inv(s.(clients := clients, transfers := transfers, nextTransfer := next, log := s.log + [e]))
  {
    hide CallsOk, TransfersOk, LogOk, ClientsOk, SameClients;
    CallsIgnore(s.calls, s.nextCall, s.log, e);
    LogGrows(s.log, e);
    SameClientsOk(s.clients, clients, s.nextSession);
  }

  lemma TransfersReplaced(s: Server, transfers: seq<Transfer>, next: nat)
    requires Inv(s) && |transfers| == MAX_CLIENTS && TransfersOk(transfers, next, s.store.files, s.log)
    ensures Inv(s.(transfers := transfers, nextTransfer := next))
  {
    hide CallsOk, TransfersOk, LogOk, ClientsOk;
  }

  /** Installing a transfer and announcing it, or undoing both. */
  lemma StartKeeps(s: Server, i: Slot, peer: Slot, k: Slot, t: Transfer)
    requires Inv(s) && t.active && t.id == s.nextTransfer && t.sender != t.receiver && !s.transfers[k].active
    requires 1 <= t.fileSize <= MAX_FILE_SIZE && t.bytesSeen == t.nextChunk == 0
    requires 1 <= t.storageId <= |s.store.files|
    requires s.store.files[t.storageId - 1].messageId == t.messageId
        && s.store.files[t.storageId - 1].fileSize == t.fileSize
    requires IsUser(s.clients[peer], t.receiver)
    ensures Inv(BeginTransfer(s, i, peer, k, t).server)
  {
    hide Inv, TransfersOk, SameClients, Queue, Respond;
    var s1 := s.(nextTransfer := s.nextTransfer + 1, transfers := s.transfers[k := t]);
    var told := Queue(s1, peer, StartOf(t));
    QueueFrame(s1, peer, StartOf(t));
    TransfersOfInv(s);
    if told.status != OK {
      TransfersSpendId(s.transfers, s.nextTransfer, s.store.files, s.log);
      TransfersShrink(s.transfers, s.transfers[k := NO_TRANSFER], s.nextTransfer + 1, s.store.files, s.log);
      TransfersReplaced(s, s.transfers[k := NO_TRANSFER], s.nextTransfer + 1);
      assert s1.transfers[k := NO_TRANSFER] == s.transfers[k := NO_TRANSFER];
    } else {
      var e := EntryFor(s1, peer, StartOf(t));
      TransfersStart(s.transfers, s.nextTransfer, s.store.files, s.log, k, t, e);
      FileQueued(s, told.server.clients, s.transfers[k := t], s.nextTransfer + 1, e);
      RespondKeeps(told.server, i, FileGroup, OK, [t.id, t.messageId, t.deliveryId]);
    }
  }

  lemma ClearedTransfer(s: Server, k: Slot)
    requires Inv(s)
    ensures Inv(s.(transfers := s.transfers[k := NO_TRANSFER]))
  {
    hide TablesOk, ClientsOk;
    ClearTransferSlot(s, k);
  }

  lemma FileChunkKeeps(s: Server, i: Slot, transferId: nat, index: nat, data: seq<byte>)
    requires Inv(s)
    ensures Inv(HandleFileChunk(s, i, transferId, index, data).server)
  {
    hide Inv, Respond, Queue, SameClients;
    RespondKeeps(s, i, FileGroup, InvalidArgument, []);
    RespondKeeps(s, i, FileGroup, NotFound, []);
    var k := FindTransfer(s.transfers, transferId);
    if k < MAX_CLIENTS {
      var t := s.transfers[k];
      var cleared := s.(transfers := s.transfers[k := NO_TRANSFER]);
      ClearedTransfer(s, k);
      RespondKeeps(cleared, i, FileGroup, InvalidArgument, []);
      RespondKeeps(cleared, i, FileGroup, NotFound, []);
      var peer := FindUser(s.clients, t.receiver);
      if 1 <= |data| <= FILE_CHUNK_SIZE && t.bytesSeen + |data| <= t.fileSize && index == t.nextChunk
          && peer < MAX_CLIENTS {
        ChunkKeeps(s, i, peer, k, data);
      }
    }
  }

  lemma ChunkKeeps(s: Server, i: Slot, peer: Slot, k: Slot, data: seq<byte>)
    requires Inv(s) && s.transfers[k].active && 1 <= |data| <= FILE_CHUNK_SIZE
    requires s.transfers[k].bytesSeen + |data| <= s.transfers[k].fileSize
        && IsUser(s.clients[peer], s.transfers[k].receiver)
    ensures var t := s.transfers[k];
      var told := Queue(s, peer, FileChunk(t.id, t.nextChunk, t.sender, t.receiver, data));
      if told.status != OK then Inv(told.server)
      else
        var s1 := told.server.(transfers := told.server.transfers[k := AfterChunk(t, data)]);
        Inv(Respond(s1, i, FileGroup, OK, [t.id, t.messageId, t.deliveryId]).server)
  {
    hide Inv, TransfersOk, SameClients, Queue, Respond;
    var t := s.transfers[k];
    var p := FileChunk(t.id, t.nextChunk, t.sender, t.receiver, data);
    var told := Queue(s, peer, p);
    QueueFrame(s, peer, p);
    TransfersOfInv(s);
    if told.status == OK {
      var e := EntryFor(s, peer, p);
      TransfersChunk(s.transfers, s.nextTransfer, s.store.files, s.log, k, e, data);
      FileQueued(s, told.server.clients, s.transfers[k := AfterChunk(t, data)], s.nextTransfer, e);
      var s1 := told.server.(transfers := told.server.transfers[k := AfterChunk(t, data)]);
      RespondKeeps(s1, i, FileGroup, OK, [t.id, t.messageId, t.deliveryId]);
    }
  }

  lemma FindFileById(st: S.Store, id: nat)
    requires L.StoreOk(st) && 1 <= id <= |st.files|
    ensures S.FindFile(st, id) == id - 1
  {
    assert L.FileOk(st.files[id - 1], id, st.messages);
    var i := S.FindFile(st, id);
    assert i < |st.files| ==> L.FileOk(st.files[i], i + 1, st.messages);
  }

  lemma FileCompleteKeeps(s: Server, i: Slot, transferId: nat)
    requires Inv(s)
    ensures Inv(HandleFileComplete(s, i, transferId).server)
  {
    hide Inv, WasCarried, S.CompleteFileTransfer, TellCompleted, Respond, SameClients;
    RespondKeeps(s, i, FileGroup, InvalidArgument, []);
    RespondKeeps(s, i, FileGroup, NotFound, []);
    RespondKeeps(s, i, FileGroup, InvalidState, []);
    var k := FindTransfer(s.transfers, transferId);
    if k < MAX_CLIENTS && s.transfers[k].bytesSeen == s.transfers[k].fileSize {
      var t := s.transfers[k];
      var told := TellCompleted(s, t);
      ToldComplete(s, k);
      var stored := told.(store := S.CompleteFileTransfer(told.store, t.storageId).store);
      var cleared := told.(transfers := told.transfers[k := NO_TRANSFER]);
      MarkKeeps(cleared, t.storageId);
      var ids := [t.id, t.messageId, t.deliveryId];
      RespondKeeps(stored.(transfers := stored.transfers[k := NO_TRANSFER]), i, FileGroup, OK, ids);
      ReplyThenClear(stored, i, k, OK, ids);
    }
  }

  /** Replying and clearing a transfer slot commute. */
  lemma ReplyThenClear(s: Server, i: Slot, k: Slot, status: Status, ids: seq<nat>)
    ensures var r := Respond(s, i, FileGroup, status, ids).server;
      r.(transfers := r.transfers[k := NO_TRANSFER])
        == Respond(s.(transfers := s.transfers[k := NO_TRANSFER]), i, FileGroup, status, ids).server
  {
  }

  /** After the completion is queued, or lost because the peer is gone or its slot is busy. */
  lemma ToldComplete(s: Server, k: Slot)
    requires Inv(s) && s.transfers[k].active && s.transfers[k].bytesSeen == s.transfers[k].fileSize
    ensures var t := s.transfers[k];
      var told := TellCompleted(s, t);
      && told.store == s.store && told.transfers == s.transfers
      && Inv(told.(transfers := told.transfers[k := NO_TRANSFER]))
      && 1 <= t.storageId <= |s.store.files| && WasCarried(told.log, s.store.files[t.storageId - 1])
  {
    hide Inv, SameClients, WasCarried, TransfersOk, Queue;
    var t := s.transfers[k];
    var p := FileComplete(t.id, t.sender, t.receiver);
    var peer := FindUser(s.clients, t.receiver);
    TransfersOfInv(s);
    FinishedIsCarried(s.transfers, s.nextTransfer, s.store.files, s.log, k);
    ClearedTransfer(s, k);
    if peer < MAX_CLIENTS {
      var told := Queue(s, peer, p);
      QueueFrame(s, peer, p);
      if told.status == OK {
        CompletionQueued(s, k, told.server.clients, EntryFor(s, peer, p));
      }
    }
  }

  lemma CompletionQueued(s: Server, k: Slot, clients: seq<Client>, e: Entry)
    requires Inv(s) && s.transfers[k].active && s.transfers[k].bytesSeen == s.transfers[k].fileSize
    requires SameClients(s.clients, clients) && Addressed(e)
    requires e.packet == FileComplete(s.transfers[k].id, s.transfers[k].sender, s.transfers[k].receiver)
    requires 1 <= s.transfers[k].storageId <= |s.store.files|
        && WasCarried(s.log, s.store.files[s.transfers[k].storageId - 1])
    ensures Inv(s.(clients := clients, transfers := s.transfers[k := NO_TRANSFER], log := s.log + [e]))
    ensures WasCarried(s.log + [e], s.store.files[s.transfers[k].storageId - 1])
  {
    hide Inv, SameClients, WasCarried, FileTracesOk, TransferSlotsOk, RecordsOk;
    TransfersOfInv(s);
    TransfersComplete(s.transfers, s.nextTransfer, s.store.files, s.log, k, e);
    CarriedSurvives(s.nextTransfer, s.log, e, s.store.files[s.transfers[k].storageId - 1]);
    FileQueued(s, clients, s.transfers[k := NO_TRANSFER], s.nextTransfer, e);
  }

  lemma MarkKeeps(s: Server, fileId: nat)
    requires Inv(s) && 1 <= fileId <= |s.store.files| && WasCarried(s.log, s.store.files[fileId - 1])
    ensures Inv(s.(store := S.CompleteFileTransfer(s.store, fileId).store))
  {
    hide CallsOk, LogOk, ClientsOk, WasCarried, RecordsOk, TransferSlotsOk, FileTracesOk, L.StoreOk;
    FindFileById(s.store, fileId);
    L.CompleteFileKeeps(s.store, fileId);
    TransfersMark(s.transfers, s.nextTransfer, s.store.files, s.log, fileId - 1);
  }

  // ----- calls -----

  lemma CallsOfInv(s: Server)
    requires Inv(s)
    ensures CallsOk(s.calls, s.nextCall, s.log)
  {
    hide CallsOk;
  }

  /** A packet of a call is logged and the call table moves on with it. */
  lemma CallQueued(s: Server, clients: seq<Client>, calls: seq<Call>, next: nat, e: Entry)
    requires Inv(s) && SameClients(s.clients, clients) && |calls| == MAX_CLIENTS
    requires Addressed(e) && !IsFilePacket(e.packet)
    requires CallsOk(calls, next, s.log + [e])
    ensures Inv(s.(clients := clients, calls := calls, nextCall := next, log := s.log + [e]))
  {
    hide CallsOk, TransfersOk, LogOk, ClientsOk, SameClients;
    TransfersIgnore(s.transfers, s.nextTransfer, s.store.files, s.log, e);
    LogGrows(s.log, e);
    SameClientsOk(s.clients, clients, s.nextSession);
  }

  lemma CallsReplaced(s: Server, calls: seq<Call>, next: nat)
    requires Inv(s) && |calls| == MAX_CLIENTS && CallsOk(calls, next, s.log)
    ensures Inv(s.(calls := calls, nextCall := next))
  {
    hide CallsOk, TransfersOk, LogOk, ClientsOk;
  }

  lemma InviteKeeps(s: Server, i: Slot, peerId: nat, media: string)
    requires Inv(s) && s.clients[i].userId != 0
    ensures Inv(HandleInvite(s, i, peerId, media).server)
  {
    hide Inv, CallsOk, SameClients, Respond, Queue, HasActiveCall;
    RespondKeeps(s, i, CallGroup, InvalidArgument, []);
    RespondKeeps(s, i, CallGroup, InvalidState, []);
    RespondKeeps(s, i, CallGroup, NotFound, []);
    RespondKeeps(s, i, CallGroup, BufferTooSmall, []);
    var sender := s.clients[i].userId;
    var peer, k := FindUser(s.clients, peerId), FindFreeCall(s.calls);
    if peerId != 0 && peerId != sender && peer < MAX_CLIENTS && k < MAX_CLIENTS
      && !HasActiveCall(s.calls, sender) && !HasActiveCall(s.calls, peerId) {
      var c := Call(true, s.nextCall, sender, peerId, false, "audio");
      var p := CallNotify(Invite, c.id, sender, peerId, c.media, NO_SIGNAL);
      var s1 := s.(nextCall := s.nextCall + 1, calls := s.calls[k := c]);
      var told := Queue(s1, peer, p);
      QueueFrame(s1, peer, p);
      CallsOfInv(s);
      if told.status != OK {
        CallsSpendId(s.calls, s.nextCall, s.log);
        CallsShrink(s.calls, s.calls[k := NO_CALL], s.nextCall + 1, s.log);
        CallsReplaced(s, s.calls[k := NO_CALL], s.nextCall + 1);
        assert s1.calls[k := NO_CALL] == s.calls[k := NO_CALL];
      } else {
        var e := EntryFor(s1, peer, p);
        CallsInvite(s.calls, s.nextCall, s.log, k, c, e);
        CallQueued(s, told.server.clients, s.calls[k := c], s.nextCall + 1, e);
        RespondKeeps(told.server, i, CallGroup, OK, [c.id]);
      }
    }
  }

  lemma ForwardKeeps(s: Server, i: Slot, k: Slot, op: CallOp, callId: nat, signal: Signal)
    requires Inv(s) && s.calls[k].active && InCall(s.calls[k], s.clients[i].userId)
    requires op != Invite && op != OtherCallOp && (op == Accept ==> s.clients[i].userId == s.calls[k].callee)
    ensures Inv(Forward(s, i, k, op, callId, signal).server)
  {
    hide Inv, CallsOk, SameClients, Respond, Queue;
    var sender, c := s.clients[i].userId, s.calls[k];
    var peerId := PeerOf(c, sender);
    var peer := FindUser(s.clients, peerId);
    var cleared := s.(calls := s.calls[k := NO_CALL]);
    CallsOfInv(s);
    CallsShrink(s.calls, s.calls[k := NO_CALL], s.nextCall, s.log);
    CallsReplaced(s, s.calls[k := NO_CALL], s.nextCall);
    RespondKeeps(s, i, CallGroup, InvalidState, [callId]);
    RespondKeeps(cleared, i, CallGroup, NotFound, [callId]);
    if peer < MAX_CLIENTS {
      var p := CallNotify(op, c.id, sender, peerId, c.media, signal);
      var told := Queue(s, peer, p);
      QueueFrame(s, peer, p);
      if told.status == OK {
        var e := EntryFor(s, peer, p);
        CallsRelay(s.calls, s.nextCall, s.log, k, e);
        var calls := if Terminal(p) then s.calls[k := NO_CALL] else s.calls;
        CallQueued(s, told.server.clients, calls, s.nextCall, e);
        RespondKeeps(s.(clients := told.server.clients, calls := calls, log := s.log + [e]), i, CallGroup, OK,
            [callId]);
      }
    }
  }

  lemma CallPartiesDiffer(s: Server, k: Slot)
    requires Inv(s) && s.calls[k].active
    ensures s.calls[k].caller != 0 && s.calls[k].callee != 0 && s.calls[k].caller != s.calls[k].callee
  {
    hide CallTrace, CallLanguage;
    assert CallOk(s.calls[k], s.nextCall, CallTrace(s.log, s.calls[k].id));
  }

  lemma CallKeeps(s: Server, i: Slot, op: CallOp, callId: nat, peerId: nat, media: string, signal: Signal)
    requires Inv(s) && s.clients[i].userId != 0
    ensures Inv(HandleCall(s, i, op, callId, peerId, media, signal).server)
  {
    hide Inv, Respond, HandleInvite, Forward, SameClients;
    var k := FindCall(s.calls, callId);
    RespondKeeps(s, i, CallGroup, NotFound, [callId]);
    RespondKeeps(s, i, CallGroup, InvalidState, [callId]);
    RespondKeeps(s, i, CallGroup, InvalidArgument, [callId]);
    if op == Invite {
      InviteKeeps(s, i, peerId, media);
    } else if k < MAX_CLIENTS {
      var c := s.calls[k];
      CallPartiesDiffer(s, k);
      if op == Accept {
        if s.clients[i].userId == c.callee {
          var accepted := s.calls[k := c.(accepted := true)];
          CallsOfInv(s);
          CallsShrink(s.calls, accepted, s.nextCall, s.log);
          CallsReplaced(s, accepted, s.nextCall);
          ForwardKeeps(s.(calls := accepted), i, k, Accept, callId, signal);
        }
      } else if op != OtherCallOp && InCall(c, s.clients[i].userId) {
        ForwardKeeps(s, i, k, op, callId, signal);
      }
    }
  }

  // ----- events -----

  lemma LoggedInIsUser(s: Server, i: Slot)
    requires Inv(s) && s.clients[i].authenticated
    ensures s.clients[i].userId != 0
  {
    assert ClientOk(s.clients[i], s.nextSession);
  }

  lemma RefuseKeeps(s: Server, i: Slot, group: Group, status: Status)
    requires Inv(s)
    ensures Inv(Refuse(s, i, group, status).server)
  {
    hide Inv;
    if group == UserGroup { QueueKeeps(s, i, UserList(status, [])); } else { RespondKeeps(s, i, group, status, []); }
  }

  /** Whatever an open connection asks for, the invariant holds afterwards. */
  lemma DispatchKeeps(s: Server, i: Slot, r: Request)
    requires Inv(s) && s.clients[i].isOpen
    ensures Inv(Dispatch(s, i, r).server)
  {
    hide Inv, Refuse, HandleRegister, HandleLogin, HandleChat, HandleGroupCreate, HandleGroupSend, HandleFileStart,
      HandleFileChunk, HandleFileComplete, HandleCall, Queue;
    RefuseKeeps(s, i, GroupOf(r), InvalidState);
    if !NeedsLogin(GroupOf(r)) || s.clients[i].authenticated {
      match r
      case Malformed(g, status) => RefuseKeeps(s, i, g, status);
      case Register(u, n, h, salt) => RegisterKeeps(s, i, u, n, h, salt);
      case Login(u, h) => LoginKeeps(s, i, u, h);
      case OtherAuth => RefuseKeeps(s, i, AuthGroup, InvalidArgument);
      case Chat(to, text, id) => ChatKeeps(s, i, to, text, id);
      case GroupCreate(name, ids) => GroupCreateKeeps(s, i, name, ids);
      case GroupSend(c, text, id) => GroupSendKeeps(s, i, c, text, id);
      case OtherConversation => RefuseKeeps(s, i, ConversationGroup, InvalidArgument);
      case StartFile(to, name, size, crc, content) => FileStartKeeps(s, i, to, name, size, crc, content);
      case SendChunk(t, index, data) => FileChunkKeeps(s, i, t, index, data);
      case CompleteFile(t) => FileCompleteKeeps(s, i, t);
      case OtherFile => RefuseKeeps(s, i, FileGroup, InvalidArgument);
      case OnlineList => QueueKeeps(s, i, UserList(OK, OnlineBelow(s.clients, i, MAX_CLIENTS)));
      case OtherUser => RefuseKeeps(s, i, UserGroup, InvalidArgument);
      case CallRequest(op, id, peer, media, signal) =>
        LoggedInIsUser(s, i);
        CallKeeps(s, i, op, id, peer, media, signal);
      case Heartbeat => QueueKeeps(s, i, HeartbeatReply);
      case Unsupported => RefuseKeeps(s, i, ErrorGroup, UnsupportedField);
    }
  }

  lemma FlushedOk(s: Server, i: Slot)
    requires Inv(s) && s.clients[i].isOpen
    ensures Inv(s.(clients := s.clients[i := s.clients[i].(pending := None)]))
  {
    hide CallsOk, TransfersOk, LogOk;
    SameClientsOk(s.clients, s.clients[i := s.clients[i].(pending := None)], s.nextSession);
  }

  lemma ServeKeeps(s: Server, i: Slot, io: ClientIo)
    requires Inv(s)
    ensures Inv(Serve(s, i, io))
  {
    hide Inv, CloseClient, Dispatch;
    if s.clients[i].isOpen {
      FlushedOk(s, i);
      CloseClientKeeps(s, i);
      var s1 := if io.flush == Sent then s.(clients := s.clients[i := s.clients[i].(pending := None)]) else s;
      CloseClientKeeps(s1, i);
      if io.recv.Received? {
        DispatchKeeps(s1, i, io.recv.request);
        CloseClientKeeps(Dispatch(s1, i, io.recv.request).server, i);
      }
    }
  }

  lemma ClosedSlotFilled(s: Server, k: Slot, open: bool)
    requires Inv(s) && !s.clients[k].isOpen
    ensures Inv(s.(clients := s.clients[k := NO_CLIENT.(isOpen := open)]))
  {
    hide CallsOk, TransfersOk, LogOk;
    var ds := s.clients[k := NO_CLIENT.(isOpen := open)];
    forall i | 0 <= i < MAX_CLIENTS ensures ClientOk(ds[i], s.nextSession) {
      assert ClientOk(s.clients[i], s.nextSession);
    }
    forall i, j | 0 <= i < j < MAX_CLIENTS ensures Apart(ds[i], ds[j]) {
      assert Apart(s.clients[i], s.clients[j]);
    }
  }

  lemma {:induction false} AcceptKeeps(s: Server, arrivals: nat)
    requires Inv(s)
    ensures Inv(AcceptClients(s, arrivals))
    decreases arrivals
  {
    hide Inv;
    var k := FindClosed(s.clients);
    if k == MAX_CLIENTS {
    } else {
      ClosedSlotFilled(s, k, false);
      ClosedSlotFilled(s, k, true);
      if arrivals > 0 {
        AcceptKeeps(s.(clients := s.clients[k := NO_CLIENT.(isOpen := true)]), arrivals - 1);
      }
    }
  }

  lemma SweepKeeps(s: Server)
    requires Inv(s)
    ensures Inv(SweepTransfers(s)) && Inv(SweepCalls(s))
  {
    hide CallsOk, TransfersOk, LogOk, ClientsOk;
    TransfersShrink(s.transfers, SweepTransfers(s).transfers, s.nextTransfer, s.store.files, s.log);
    CallsShrink(s.calls, SweepCalls(s).calls, s.nextCall, s.log);
  }

  datatype Event = Arrive(n: nat) | Turn(i: Slot, io: ClientIo) | DropTransfers | DropCalls

  function Step(s: Server, e: Event): Server
  {
    match e
    case Arrive(n) => AcceptClients(s, n)
    case Turn(i, io) => Serve(s, i, io)
    case DropTransfers => SweepTransfers(s)
    case DropCalls => SweepCalls(s)
  }

  function Run(s: Server, events: seq<Event>): Server
    decreases |events|
  {
    if events == [] then s else Run(Step(s, events[0]), events[1..])
  }

  /** The invariant holds between any two events of any run. */
  lemma {:induction false} RunKeeps(s: Server, events: seq<Event>)
    requires Inv(s)
    ensures Inv(Run(s, events))
    decreases |events|
  {
    hide Inv, Serve, AcceptClients, SweepTransfers, SweepCalls;
    if events == [] {
    } else {
      match events[0] {
        case Arrive(n) => AcceptKeeps(s, n);
        case Turn(i, io) => ServeKeeps(s, i, io);
        case DropTransfers => SweepKeeps(s);
        case DropCalls => SweepKeeps(s);
      }
      RunKeeps(Step(s, events[0]), events[1..]);
    }
  }
}
