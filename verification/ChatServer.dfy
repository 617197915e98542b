/** The server in its own form: slot arrays and counters that requests update in place. Every method is
    proved to act on the whole state as the function of the same name in module Server. */
module ChatServers {
  import opened Wire
  import opened Server
  import M = Server
  import S = Storage
  import opened MemoryStorages

  class ChatServer {
    const clients: array<Client>
    const calls: array<Call>
    const transfers: array<Transfer>
    const storage: MemoryStorage
    var nextSessionId: nat
    var nextCallId: nat
    var nextTransferId: nat
    ghost var log: seq<Entry>

    ghost predicate Valid()
    {
      clients.Length == calls.Length == transfers.Length == MAX_CLIENTS
    }

    ghost function State(): M.Server
      requires Valid()
      reads this, clients, calls, transfers, storage
    {
      RawServer(clients[..], calls[..], transfers[..], nextSessionId, nextCallId, nextTransferId, storage.State(), log)
    }

    constructor ()
      ensures Valid() && fresh(clients) && fresh(calls) && fresh(transfers) && fresh(storage)
      ensures State() == START
    {
      clients := new Client[MAX_CLIENTS](_ => NO_CLIENT);
      calls := new Call[MAX_CLIENTS](_ => NO_CALL);
      transfers := new Transfer[MAX_CLIENTS](_ => NO_TRANSFER);
      storage := new MemoryStorage();
      nextSessionId, nextCallId, nextTransferId := 1, 1, 1;
      log := [];
      new;
      assert clients[..] == Slots(NO_CLIENT) && calls[..] == Slots(NO_CALL) && transfers[..] == Slots(NO_TRANSFER);
    }

    // ----- slots -----

    method SetClient(i: Slot, c: Client)
      requires Valid()
      modifies clients
      ensures State() == old(State()).(clients := old(State()).clients[i := c])
    {
      clients[i] := c;
      assert clients[..] == old(clients[..])[i := c];
    }

    method SetCall(k: Slot, c: Call)
      requires Valid()
      modifies calls
      ensures State() == old(State()).(calls := old(State()).calls[k := c])
    {
      calls[k] := c;
      assert calls[..] == old(calls[..])[k := c];
    }

    method SetTransfer(k: Slot, t: Transfer)
      requires Valid()
      modifies transfers
      ensures State() == old(State()).(transfers := old(State()).transfers[k := t])
    {
      transfers[k] := t;
      assert transfers[..] == old(transfers[..])[k := t];
    }

    // ----- queueing -----

    method Queue(i: Slot, p: Packet) returns (status: Status)
      requires Valid()
      modifies this`log, clients
      ensures Outcome(State(), status) == M.Queue(old(State()), i, p)
    {
      if !Fits(p) {
        return BufferTooSmall;
      }
      if !clients[i].isOpen {
        return InvalidArgument;
      }
      if clients[i].pending.Some? {
        return BufferTooSmall;
      }
      log := log + [Entry(i, clients[i].userId, p)];
      SetClient(i, clients[i].(pending := Some(p)));
      return OK;
    }

    method Respond(i: Slot, group: Group, status: Status, ids: seq<nat>) returns (queued: Status)
      requires Valid()
      modifies this`log, clients
      ensures Outcome(State(), queued) == M.Respond(old(State()), i, group, status, ids)
    {
      queued := Queue(i, Reply(group, status, ids));
    }

    // ----- lookups -----

    method FindUser(userId: nat) returns (i: nat)
      requires Valid()
      ensures i == M.FindUser(State().clients, userId)
    {
      i := 0;
      while i < clients.Length
        invariant i <= clients.Length && forall k :: 0 <= k < i ==> !IsUser(clients[k], userId)
      {
        if clients[i].isOpen && clients[i].authenticated && clients[i].userId == userId { return; }
        i := i + 1;
      }
    }

    method IsOnline(userId: nat) returns (online: bool)
      requires Valid()
      ensures online == M.IsOnline(State().clients, userId)
    {
      if userId == 0 { return false; }
      var i := FindUser(userId);
      return i < clients.Length;
    }

    method FindClosed() returns (i: nat)
      requires Valid()
      ensures i == M.FindClosed(State().clients)
    {
      i := 0;
      while i < clients.Length
        invariant i <= clients.Length && forall k :: 0 <= k < i ==> clients[k].isOpen
      {
        if !clients[i].isOpen { return; }
        i := i + 1;
      }
    }

    method FindFreeCall() returns (i: nat)
      requires Valid()
      ensures i == M.FindFreeCall(State().calls)
    {
      i := 0;
      while i < calls.Length
        invariant i <= calls.Length && forall k :: 0 <= k < i ==> calls[k].active
      {
        if !calls[i].active { return; }
        i := i + 1;
      }
    }

    method FindCall(id: nat) returns (i: nat)
      requires Valid()
      ensures i == M.FindCall(State().calls, id)
    {
      if id == 0 { return calls.Length; }
      i := 0;
      while i < calls.Length
        invariant i <= calls.Length && forall k :: 0 <= k < i ==> !IsCall(calls[k], id)
      {
        if calls[i].active && calls[i].id == id { return; }
        i := i + 1;
      }
    }

    method FindFreeTransfer() returns (i: nat)
      requires Valid()
      ensures i == M.FindFreeTransfer(State().transfers)
    {
      i := 0;
      while i < transfers.Length
        invariant i <= transfers.Length && forall k :: 0 <= k < i ==> transfers[k].active
      {
        if !transfers[i].active { return; }
        i := i + 1;
      }
    }

    method FindTransfer(id: nat) returns (i: nat)
      requires Valid()
      ensures i == M.FindTransfer(State().transfers, id)
    {
      if id == 0 { return transfers.Length; }
      i := 0;
      while i < transfers.Length
        invariant i <= transfers.Length && forall k :: 0 <= k < i ==> !IsTransfer(transfers[k], id)
      {
        if transfers[i].active && transfers[i].id == id { return; }
        i := i + 1;
      }
    }

    method HasActiveCall(userId: nat) returns (busy: bool)
      requires Valid()
      ensures busy == M.HasActiveCall(State().calls, userId)
    {
      if userId == 0 { return false; }
      for i := 0 to calls.Length
        invariant forall k :: 0 <= k < i ==> !(calls[k].active && InCall(calls[k], userId))
      {
        if calls[i].active && InCall(calls[i], userId) {
          assert State().calls[i] == calls[i];
          return true;
        }
      }
      return false;
    }

    // ----- closing a connection -----

    method ClearTransfersFor(userId: nat)
      requires Valid()
      modifies transfers
      ensures State() == M.ClearTransfersFor(old(State()), userId)
    {
      if userId == 0 { return; }
      for i := 0 to transfers.Length
        invariant forall k :: 0 <= k < i ==>
                    transfers[k] == if InTransfer(old(transfers[k]), userId) then NO_TRANSFER else old(transfers[k])
        invariant forall k :: i <= k < transfers.Length ==> transfers[k] == old(transfers[k])
      {
        if transfers[i].active && (transfers[i].sender == userId || transfers[i].receiver == userId) {
          transfers[i] := NO_TRANSFER;
        }
      }
      assert transfers[..] == M.ClearTransfersFor(old(State()), userId).transfers;
    }

    method DropCall(k: Slot, userId: nat)
      requires Valid()
      modifies this`log, clients, calls
      ensures State() == M.DropCall(old(State()), k, userId)
    {
      var peerId := PeerOf(calls[k], userId);
      var peer := FindUser(peerId);
      if peer < clients.Length {
        var _ := Queue(peer, CallNotify(Hangup, calls[k].id, userId, peerId, calls[k].media, NO_SIGNAL));
      }
      SetCall(k, NO_CALL);
    }

    method ClearCallsFor(userId: nat)
      requires Valid()
      modifies this`log, clients, calls
      ensures State() == M.ClearCallsFor(old(State()), userId)
    {
      if userId == 0 { return; }
      for k := 0 to calls.Length
        invariant ClearCallsFrom(State(), userId, k) == ClearCallsFrom(old(State()), userId, 0)
      {
        if calls[k].active && InCall(calls[k], userId) {
          DropCall(k, userId);
        }
      }
    }

    method CloseClient(i: Slot)
      requires Valid()
      modifies this`log, clients, calls, transfers
      ensures State() == M.CloseClient(old(State()), i)
    {
      var userId := 0;
      if clients[i].authenticated {
        userId := clients[i].userId;
      }
      if clients[i].isOpen {
        SetClient(i, clients[i].(isOpen := false, pending := None));
      }
      ClearTransfersFor(userId);
      ClearCallsFor(userId);
      SetClient(i, NO_CLIENT);
    }

    // ----- authentication -----

    method Authenticate(i: Slot, userId: nat, username: string)
      requires Valid()
      modifies this`log, this`nextSessionId, clients, calls, transfers
      ensures State() == M.Authenticate(old(State()), i, userId, username)
    {
      hide M.CloseClient, MemoryStorage.State;
      for k := 0 to clients.Length
        invariant KickOthersFrom(State(), i, userId, k) == KickOthersFrom(old(State()), i, userId, 0)
      {
        if k != i && clients[k].isOpen && clients[k].authenticated && clients[k].userId == userId {
          CloseClient(k);
        }
      }
      SetClient(i,
          clients[i].(authenticated := true, userId := userId, sessionId := nextSessionId, username := username));
      nextSessionId := nextSessionId + 1;
    }

    method HandleRegister(i: Slot, username: string, nickname: Option<string>, hash: string, salt: string)
      returns (status: Status)
      requires Valid()
      modifies this, clients, calls, transfers, storage
      ensures Outcome(State(), status) == M.HandleRegister(old(State()), i, username, nickname, hash, salt)
    {
      var created, userId := storage.CreateAccount(username, nickname, hash, salt);
      if created == OK {
        Authenticate(i, userId, username);
        status := Respond(i, AuthGroup, OK, [userId, clients[i].sessionId]);
      } else {
        status := Respond(i, AuthGroup, created, []);
      }
    }

    method HandleLogin(i: Slot, username: string, hash: string) returns (status: Status)
      requires Valid()
      modifies this, clients, calls, transfers, storage
      ensures Outcome(State(), status) == M.HandleLogin(old(State()), i, username, hash)
    {
      if !S.StringIsValid(username, S.MAX_USERNAME_LEN, false) {
        status := Respond(i, AuthGroup, InvalidArgument, []);
        return;
      }
      var k := storage.FindUsername(username);
      if k == |storage.accounts| {
        status := Respond(i, AuthGroup, NotFound, []);
        return;
      }
      var account := storage.accounts[k];
      if !account.enabled {
        status := Respond(i, AuthGroup, InvalidState, []);
      } else if hash != account.passwordHash {
        status := Respond(i, AuthGroup, InvalidArgument, []);
      } else {
        var _ := storage.UpdateLastLogin(account.userId, 0);
        Authenticate(i, account.userId, username);
        status := Respond(i, AuthGroup, OK, [account.userId, clients[i].sessionId]);
      }
    }

    // ----- messages -----

    method HandleChat(i: Slot, receiver: nat, content: string, clientMessageId: nat) returns (status: Status)
      requires Valid()
      modifies this`log, clients, storage
      ensures Outcome(State(), status) == M.HandleChat(old(State()), i, receiver, content, clientMessageId)
    {
      var sender := clients[i].userId;
      if receiver == 0 || !S.StringIsValid(content, S.MAX_MESSAGE_TEXT_LEN, false) {
        status := Respond(i, ChatGroup, InvalidArgument, []);
        return;
      }
      var m := S.Message(0, 0, sender, receiver, 1, content, clientMessageId, 0, 0);
      var stored, messageId, deliveryId := storage.StorePrivateMessage(m);
      if stored != OK {
        status := Respond(i, ChatGroup, stored, []);
        return;
      }
      status := Respond(i, ChatGroup, OK, [messageId, deliveryId]);
      if status != OK {
        return;
      }
      var peer := FindUser(receiver);
      if peer < clients.Length {
        var _ := Queue(peer, ChatNotify(messageId, deliveryId, sender, receiver, content));
      }
      return OK;
    }

    method FanOut(i: Slot, members: seq<nat>, conversationId: nat, messageId: nat, content: string)
      requires Valid()
      modifies this`log, clients
      ensures State() == M.FanOut(old(State()), i, members, conversationId, messageId, content)
    {
      for n := 0 to |members|
        invariant M.FanOut(State(), i, members[n..], conversationId, messageId, content)
               == M.FanOut(old(State()), i, members, conversationId, messageId, content)
      {
        assert members[n..][1..] == members[n + 1..];
        if members[n] != clients[i].userId {
          var peer := FindUser(members[n]);
          if peer < clients.Length {
            var _ := Queue(peer, GroupNotify(conversationId, messageId, clients[i].userId, members[n], content));
          }
        }
      }
    }

    method HandleGroupCreate(i: Slot, name: string, ids: seq<nat>) returns (status: Status)
      requires Valid()
      modifies this`log, clients, storage
      ensures Outcome(State(), status) == M.HandleGroupCreate(old(State()), i, name, ids)
    {
      var created, conversationId := storage.CreateGroup(name, clients[i].userId, ids);
      status := Respond(i, ConversationGroup, created, if created == OK then [conversationId] else []);
    }

    method HandleGroupSend(i: Slot, conversationId: nat, content: string, clientMessageId: nat) returns (status: Status)
      requires Valid()
      modifies this`log, clients, storage
      ensures Outcome(State(), status) == M.HandleGroupSend(old(State()), i, conversationId, content, clientMessageId)
    {
      if conversationId == 0 || !S.StringIsValid(content, S.MAX_MESSAGE_TEXT_LEN, false) {
        status := Respond(i, ConversationGroup, InvalidArgument, []);
        return;
      }
      var m := S.Message(0, conversationId, clients[i].userId, 0, 1, content, clientMessageId, 0, 0);
      var stored, messageId := storage.StoreGroupMessage(m);
      if stored != OK {
        status := Respond(i, ConversationGroup, stored, []);
        return;
      }
      status := Respond(i, ConversationGroup, OK, [conversationId, messageId]);
      if status != OK {
        return;
      }
      var listing := storage.ListGroupMembers(conversationId, S.MAX_GROUP_MEMBERS);
      if listing.status == OK {
        FanOut(i, listing.rows, conversationId, messageId, content);
      }
    }

    // ----- file relay -----

    method HandleFileStart(i: Slot, receiver: nat, fileName: string, fileSize: nat, crc32: bv32, content: string)
      returns (status: Status)
      requires Valid()
      modifies this`log, this`nextTransferId, clients, transfers, storage
      ensures Outcome(State(), status)
          == M.HandleFileStart(old(State()), i, receiver, fileName, fileSize, crc32, content)
    {
      hide M.BeginTransfer, M.Respond, M.FindUser, M.FindFreeTransfer, S.StoreFileTransfer, S.StringIsValid,
        MemoryStorage.State;
      var sender := clients[i].userId;
      if receiver == 0 || receiver == sender || fileSize == 0 || fileSize > MAX_FILE_SIZE
         || !S.StringIsValid(fileName, S.MAX_FILE_NAME_LEN, false) {
        status := Respond(i, FileGroup, InvalidArgument, []);
        return;
      }
      var peer := FindUser(receiver);
      if peer >= clients.Length {
        status := Respond(i, FileGroup, NotFound, []);
        return;
      }
      var k := FindFreeTransfer();
      if k >= transfers.Length {
        status := Respond(i, FileGroup, BufferTooSmall, []);
        return;
      }
      var m := S.Message(0, 0, sender, receiver, S.CONTENT_FILE, content, 0, 0, 0);
      StoreRefused(storage.State(), m, fileName, fileSize, crc32);
      var stored, messageId, deliveryId, fileId := storage.StoreFileTransfer(m, fileName, fileSize, crc32);
      if stored != OK {
        status := Respond(i, FileGroup, stored, []);
        return;
      }
      var t := Transfer(true, nextTransferId, fileId, messageId, deliveryId, sender, receiver, fileName, fileSize, 0,
          0, crc32);
      status := BeginTransfer(i, peer, k, t);
    }

    method BeginTransfer(i: Slot, peer: Slot, k: Slot, t: Transfer) returns (status: Status)
      requires Valid()
      modifies this`log, this`nextTransferId, clients, transfers
      ensures Outcome(State(), status) == M.BeginTransfer(old(State()), i, peer, k, t)
    {
      hide M.Queue, M.Respond, MemoryStorage.State;
      SetTransfer(k, t);
      nextTransferId := nextTransferId + 1;
      ghost var started := State();
      status := Queue(peer, StartOf(t));
      QueueRefused(started, peer, StartOf(t));
      if status != OK {
        SetTransfer(k, NO_TRANSFER);
        return;
      }
      status := Respond(i, FileGroup, OK, [t.id, t.messageId, t.deliveryId]);
    }

    method HandleFileChunk(i: Slot, transferId: nat, index: nat, data: seq<byte>) returns (status: Status)
      requires Valid()
      modifies this`log, clients, transfers
      ensures Outcome(State(), status) == M.HandleFileChunk(old(State()), i, transferId, index, data)
    {
      hide M.Queue, M.FindUser, M.FindTransfer, MemoryStorage.State;
      if transferId == 0 || |data| == 0 || |data| > FILE_CHUNK_SIZE {
        status := Respond(i, FileGroup, InvalidArgument, []);
        return;
      }
      var k := FindTransfer(transferId);
      if k >= transfers.Length || transfers[k].sender != clients[i].userId {
        status := Respond(i, FileGroup, NotFound, []);
        return;
      }
      var t := transfers[k];
      if t.bytesSeen + |data| > t.fileSize {
        status := Respond(i, FileGroup, InvalidArgument, []);
        return;
      }
      if index != t.nextChunk {
        SetTransfer(k, NO_TRANSFER);
        status := Respond(i, FileGroup, InvalidArgument, []);
        return;
      }
      var peer := FindUser(t.receiver);
      if peer >= clients.Length {
        SetTransfer(k, NO_TRANSFER);
        status := Respond(i, FileGroup, NotFound, []);
        return;
      }
      status := Queue(peer, FileChunk(t.id, index, t.sender, t.receiver, data));
      if status != OK {
        return;
      }
      SetTransfer(k, t.(bytesSeen := t.bytesSeen + |data|, nextChunk := t.nextChunk + 1));
      status := Respond(i, FileGroup, OK, [t.id, t.messageId, t.deliveryId]);
    }

    method TellCompleted(t: Transfer)
      requires Valid()
      modifies this`log, clients
      ensures State() == M.TellCompleted(old(State()), t)
    {
      hide M.Queue, M.FindUser, MemoryStorage.State;
      var peer := FindUser(t.receiver);
      if peer < clients.Length {
        var _ := Queue(peer, FileComplete(t.id, t.sender, t.receiver));
      }
    }

    method HandleFileComplete(i: Slot, transferId: nat) returns (status: Status)
      requires Valid()
      modifies this`log, clients, transfers, storage
      ensures Outcome(State(), status) == M.HandleFileComplete(old(State()), i, transferId)
    {
      hide M.TellCompleted, M.Respond, M.FindTransfer, S.CompleteFileTransfer, MemoryStorage.State;
      if transferId == 0 {
        status := Respond(i, FileGroup, InvalidArgument, []);
        return;
      }
      var k := FindTransfer(transferId);
      if k >= transfers.Length || transfers[k].sender != clients[i].userId {
        status := Respond(i, FileGroup, NotFound, []);
        return;
      }
      var t := transfers[k];
      if t.bytesSeen != t.fileSize {
        status := Respond(i, FileGroup, InvalidState, []);
        return;
      }
      TellCompleted(t);
      var _ := storage.CompleteFileTransfer(t.storageId);
      status := Respond(i, FileGroup, OK, [t.id, t.messageId, t.deliveryId]);
      SetTransfer(k, NO_TRANSFER);
    }

    // ----- calls -----

    method HandleInvite(i: Slot, peerId: nat, media: string) returns (status: Status)
      requires Valid()
      modifies this`log, this`nextCallId, clients, calls
      ensures Outcome(State(), status) == M.HandleInvite(old(State()), i, peerId, media)
    {
      hide M.Queue, M.Respond, M.HasActiveCall, M.FindUser, M.FindFreeCall, MemoryStorage.State;
      var sender := clients[i].userId;
      if peerId == 0 || peerId == sender {
        status := Respond(i, CallGroup, InvalidArgument, []);
        return;
      }
      if media != "" && media != "audio" {
        status := Respond(i, CallGroup, InvalidArgument, []);
        return;
      }
      var senderBusy := HasActiveCall(sender);
      var peerBusy := HasActiveCall(peerId);
      if senderBusy || peerBusy {
        status := Respond(i, CallGroup, InvalidState, []);
        return;
      }
      var peer := FindUser(peerId);
      if peer >= clients.Length {
        status := Respond(i, CallGroup, NotFound, []);
        return;
      }
      var k := FindFreeCall();
      if k >= calls.Length {
        status := Respond(i, CallGroup, BufferTooSmall, []);
        return;
      }
      var c := Call(true, nextCallId, sender, peerId, false, "audio");
      SetCall(k, c);
      nextCallId := nextCallId + 1;
      ghost var invited := State();
      status := Queue(peer, CallNotify(Invite, c.id, sender, peerId, c.media, NO_SIGNAL));
      QueueRefused(invited, peer, CallNotify(Invite, c.id, sender, peerId, c.media, NO_SIGNAL));
      if status != OK {
        SetCall(k, NO_CALL);
        return;
      }
      status := Respond(i, CallGroup, OK, [c.id]);
    }

    method Forward(i: Slot, k: Slot, op: CallOp, callId: nat, signal: Signal) returns (status: Status)
      requires Valid()
      modifies this`log, clients, calls
      ensures Outcome(State(), status) == M.Forward(old(State()), i, k, op, callId, signal)
    {
      var sender := clients[i].userId;
      var peerId := PeerOf(calls[k], sender);
      var peer := FindUser(peerId);
      if peerId == 0 {
        status := Respond(i, CallGroup, InvalidState, [callId]);
        return;
      }
      if peer >= clients.Length {
        SetCall(k, NO_CALL);
        status := Respond(i, CallGroup, NotFound, [callId]);
        return;
      }
      status := Queue(peer, CallNotify(op, calls[k].id, sender, peerId, calls[k].media, signal));
      if status != OK {
        return;
      }
      if op == Reject || op == Hangup {
        SetCall(k, NO_CALL);
      }
      status := Respond(i, CallGroup, OK, [callId]);
    }

    method HandleCall(i: Slot, op: CallOp, callId: nat, peerId: nat, media: string,
          signal: Signal) returns (status: Status)
      requires Valid()
      modifies this`log, this`nextCallId, clients, calls
      ensures Outcome(State(), status) == M.HandleCall(old(State()), i, op, callId, peerId, media, signal)
    {
      if op == Invite {
        status := HandleInvite(i, peerId, media);
        return;
      }
      var sender := clients[i].userId;
      var k := FindCall(callId);
      if k >= calls.Length {
        status := Respond(i, CallGroup, NotFound, [callId]);
      } else if op == Accept {
        if sender != calls[k].callee {
          status := Respond(i, CallGroup, InvalidState, [callId]);
        } else {
          SetCall(k, calls[k].(accepted := true));
          status := Forward(i, k, Accept, callId, signal);
        }
      } else if op == OtherCallOp {
        status := Respond(i, CallGroup, InvalidArgument, [callId]);
      } else if !InCall(calls[k], sender) {
        status := Respond(i, CallGroup, InvalidState, [callId]);
      } else if (op == Offer || op == Answer) && signal.sdp == "" {
        status := Respond(i, CallGroup, InvalidArgument, [callId]);
      } else if op == Ice && signal.candidate == "" {
        status := Respond(i, CallGroup, InvalidArgument, [callId]);
      } else {
        status := Forward(i, k, op, callId, signal);
      }
    }

    // ----- dispatch -----

    method OnlineUsers(i: Slot) returns (users: seq<OnlineUser>)
      requires Valid()
      ensures users == OnlineBelow(State().clients, i, MAX_CLIENTS)
    {
      users := [];
      for k := 0 to clients.Length
        invariant users == OnlineBelow(clients[..], i, k)
      {
        if k != i && clients[k].isOpen && clients[k].authenticated {
          users := users + [UserOf(clients[k])];
        }
      }
    }

    method IsLoggedIn(i: Slot) returns (loggedIn: bool)
      requires Valid()
      ensures loggedIn == State().clients[i].authenticated
    {
      return clients[i].authenticated;
    }

    method Refuse(i: Slot, group: Group, status: Status) returns (queued: Status)
      requires Valid()
      modifies this`log, clients
      ensures Outcome(State(), queued) == M.Refuse(old(State()), i, group, status)
    {
      if group == UserGroup {
        queued := Queue(i, UserList(status, []));
      } else {
        queued := Respond(i, group, status, []);
      }
    }

    method Dispatch(i: Slot, r: Request) returns (status: Status)
      requires Valid()
      modifies this, clients, calls, transfers, storage
      ensures Outcome(State(), status) == M.Dispatch(old(State()), i, r)
    {
      hide M.Refuse, M.HandleRegister, M.HandleLogin, M.HandleChat, M.HandleGroupCreate, M.HandleGroupSend,
        M.HandleFileStart, M.HandleFileChunk, M.HandleFileComplete, M.HandleCall, M.Queue, OnlineBelow,
        State, Valid;
      var loggedIn := IsLoggedIn(i);
      if NeedsLogin(GroupOf(r)) && !loggedIn {
        status := Refuse(i, GroupOf(r), InvalidState);
        return;
      }
      match r
      case Malformed(g, why) => status := Refuse(i, g, why);
      case Register(u, n, h, salt) => status := HandleRegister(i, u, n, h, salt);
      case Login(u, h) => status := HandleLogin(i, u, h);
      case OtherAuth => status := Refuse(i, AuthGroup, InvalidArgument);
      case Chat(to, text, id) => status := HandleChat(i, to, text, id);
      case GroupCreate(name, ids) => status := HandleGroupCreate(i, name, ids);
      case GroupSend(c, text, id) => status := HandleGroupSend(i, c, text, id);
      case OtherConversation => status := Refuse(i, ConversationGroup, InvalidArgument);
      case StartFile(to, name, size, crc, content) => status := HandleFileStart(i, to, name, size, crc, content);
      case SendChunk(t, index, data) => status := HandleFileChunk(i, t, index, data);
      case CompleteFile(t) => status := HandleFileComplete(i, t);
      case OtherFile => status := Refuse(i, FileGroup, InvalidArgument);
      case OnlineList =>
        var users := OnlineUsers(i);
        status := Queue(i, UserList(OK, users));
      case OtherUser => status := Refuse(i, UserGroup, InvalidArgument);
      case CallRequest(op, id, peer, media, signal) => status := HandleCall(i, op, id, peer, media, signal);
      case Heartbeat => status := Queue(i, HeartbeatReply);
      case Unsupported => status := Refuse(i, ErrorGroup, UnsupportedField);
    }

    // ----- one pass -----

    method Serve(i: Slot, io: ClientIo)
      requires Valid()
      modifies this, clients, calls, transfers, storage
      ensures State() == M.Serve(old(State()), i, io)
    {
      hide M.CloseClient, M.Dispatch;
      if !clients[i].isOpen {
        return;
      }
      if io.flush == FlushFailed {
        CloseClient(i);
        return;
      }
      if io.flush == Sent {
        SetClient(i, clients[i].(pending := None));
      }
      match io.recv
      case Nothing =>
      case RecvFailed => CloseClient(i);
      case Received(r) =>
        var status := Dispatch(i, r);
        if status != OK && status != NeedMoreData {
          CloseClient(i);
        }
    }

    method AcceptClients(arrivals: nat)
      requires Valid()
      modifies clients
      ensures State() == M.AcceptClients(old(State()), arrivals)
    {
      var left := arrivals;
      while true
        invariant M.AcceptClients(State(), left) == M.AcceptClients(old(State()), arrivals)
        decreases left
      {
        var k := FindClosed();
        if k >= clients.Length {
          return;
        }
        if left == 0 {
          SetClient(k, NO_CLIENT);
          return;
        }
        SetClient(k, NO_CLIENT.(isOpen := true));
        left := left - 1;
      }
    }

    method SweepTransfers()
      requires Valid()
      modifies transfers
      ensures State() == M.SweepTransfers(old(State()))
    {
      for i := 0 to transfers.Length
        invariant forall k :: 0 <= k < i ==> transfers[k] == SweptTransfer(clients[..], old(transfers[k]))
        invariant forall k :: i <= k < transfers.Length ==> transfers[k] == old(transfers[k])
      {
        var senderOnline := IsOnline(transfers[i].sender);
        var receiverOnline := IsOnline(transfers[i].receiver);
        if transfers[i].active && (!senderOnline || !receiverOnline) {
          transfers[i] := NO_TRANSFER;
        }
      }
      assert transfers[..] == M.SweepTransfers(old(State())).transfers;
    }

    method SweepCalls()
      requires Valid()
      modifies calls
      ensures State() == M.SweepCalls(old(State()))
    {
      for i := 0 to calls.Length
        invariant forall k :: 0 <= k < i ==> calls[k] == SweptCall(clients[..], old(calls[k]))
        invariant forall k :: i <= k < calls.Length ==> calls[k] == old(calls[k])
      {
        var callerOnline := IsOnline(calls[i].caller);
        var calleeOnline := IsOnline(calls[i].callee);
        if calls[i].active && (!callerOnline || !calleeOnline) {
          calls[i] := NO_CALL;
        }
      }
      assert calls[..] == M.SweepCalls(old(State())).calls;
    }

    method RunOnce(arrivals: nat, ios: seq<ClientIo>)
      requires Valid() && |ios| == MAX_CLIENTS
      modifies this, clients, calls, transfers, storage
      ensures State() == M.RunOnce(old(State()), arrivals, ios)
    {
      hide M.AcceptClients, M.Serve, M.SweepTransfers, M.SweepCalls;
      AcceptClients(arrivals);
      ghost var accepted := State();
      for i := 0 to clients.Length
        invariant ServeFrom(State(), ios, i) == ServeFrom(accepted, ios, 0)
      {
        Serve(i, ios[i]);
      }
      SweepTransfers();
      SweepCalls();
    }
  }

  lemma QueueRefused(s: M.Server, i: Slot, p: Packet)
    ensures M.Queue(s, i, p).status != OK ==> M.Queue(s, i, p).server == s
  {
  }

  lemma StoreRefused(st: S.Store, m: S.Message, fileName: string, fileSize: nat, crc32: bv32)
    ensures var out := S.StoreFileTransfer(st, m, fileName, fileSize, crc32); out.status != OK ==> out.store == st
  {
  }
}
