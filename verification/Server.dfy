/** The server's dispatch of requests as functions on its slot tables. Requests arrive parsed; a
    connection is whether it is open and the one packet its send queue holds. The log records every
    packet that was successfully queued. */
module Server {
  import opened Wire
  import S = Storage

  const MAX_CLIENTS := 16
  const CALL_BODY_CAPACITY := 60512

  // ----- packets -----

  datatype CallOp = Invite | Accept | Reject | Hangup | Offer | Answer | Ice | OtherCallOp
  datatype Signal = Signal(sdp: string, candidate: string, mid: string, mline: Option<nat>)
  datatype OnlineUser = OnlineUser(userId: nat, username: string)
  datatype Group = AuthGroup | ChatGroup | ConversationGroup | FileGroup | UserGroup | CallGroup | ErrorGroup

  datatype Packet =
    | Reply(group: Group, status: Status, ids: seq<nat>)
    | UserList(status: Status, users: seq<OnlineUser>)
    | HeartbeatReply
    | ChatNotify(messageId: nat, deliveryId: nat, from: nat, to: nat, content: string)
    | GroupNotify(conversationId: nat, messageId: nat, from: nat, to: nat, content: string)
    | CallNotify(op: CallOp, callId: nat, from: nat, to: nat, media: string, signal: Signal)
    | FileStart(transferId: nat, messageId: nat, deliveryId: nat, from: nat, to: nat, fileName: string,
        fileSize: nat, crc32: bv32)
    | FileChunk(transferId: nat, index: nat, from: nat, to: nat, data: seq<byte>)
    | FileComplete(transferId: nat, from: nat, to: nat)

  /** A queued packet, the connection it went to, and the user logged in there at the time. */
  datatype Entry = Entry(slot: nat, user: nat, packet: Packet)

  const NO_SIGNAL := Signal("", "", "", None)

  function OpLength(op: CallOp): nat
  {
    match op case Offer => 5 case Ice => 3 case _ => 6
  }

  function TextField(s: string, limit: nat): nat
  {
    if s == "" then 0 else 4 + Min(|s|, limit)
  }

  /** The length of a call notify's body; the buffer for it holds CALL_BODY_CAPACITY bytes. */
  function CallBodyLength(op: CallOp, media: string, signal: Signal): nat
  {
    4 + OpLength(op) + 12 + 12 + TextField(media, 16) + TextField(signal.sdp, 60000)
    + TextField(signal.candidate, 60000) + TextField(signal.mid, 63) + (if signal.mline.Some? then 8 else 0)
  }

  predicate Fits(p: Packet)
  {
    p.CallNotify? ==> CallBodyLength(p.op, p.media, p.signal) <= CALL_BODY_CAPACITY
  }

  // ----- requests -----

  datatype Request =
    | Malformed(group: Group, status: Status)
    | Register(username: string, nickname: Option<string>, hash: string, salt: string)
    | Login(username: string, hash: string)
    | OtherAuth
    | Chat(receiver: nat, content: string, clientMessageId: nat)
    | GroupCreate(name: string, ids: seq<nat>)
    | GroupSend(conversationId: nat, content: string, clientMessageId: nat)
    | OtherConversation
    | StartFile(receiver: nat, fileName: string, fileSize: nat, crc32: bv32, content: string)
    | SendChunk(transferId: nat, index: nat, data: seq<byte>)
    | CompleteFile(transferId: nat)
    | OtherFile
    | OnlineList
    | OtherUser
    | CallRequest(op: CallOp, callId: nat, peerId: nat, media: string, signal: Signal)
    | Heartbeat
    | Unsupported

  // ----- state -----

  datatype Client = Client(
    isOpen: bool, pending: Option<Packet>, authenticated: bool, userId: nat, sessionId: nat, username: string)
  datatype Call = Call(active: bool, id: nat, caller: nat, callee: nat, accepted: bool, media: string)
  datatype Transfer = Transfer(
    active: bool, id: nat, storageId: nat, messageId: nat, deliveryId: nat, sender: nat, receiver: nat,
    fileName: string, fileSize: nat, bytesSeen: nat, nextChunk: nat, crc32: bv32)

  const NO_CLIENT := Client(false, None, false, 0, 0, "")
  const NO_CALL := Call(false, 0, 0, 0, false, "")
  const NO_TRANSFER := Transfer(false, 0, 0, 0, 0, 0, 0, "", 0, 0, 0, 0)

  datatype RawServer = RawServer(
    clients: seq<Client>, calls: seq<Call>, transfers: seq<Transfer>,
    nextSession: nat, nextCall: nat, nextTransfer: nat, store: S.Store, log: seq<Entry>)

  type Server = s: RawServer | |s.clients| == |s.calls| == |s.transfers| == MAX_CLIENTS
    witness START

  const START := RawServer(Slots(NO_CLIENT), Slots(NO_CALL), Slots(NO_TRANSFER), 1, 1, 1, S.EMPTY, [])

  function Slots<T>(blank: T): (slots: seq<T>)
    ensures |slots| == MAX_CLIENTS && forall i :: 0 <= i < MAX_CLIENTS ==> slots[i] == blank
  {
    seq(MAX_CLIENTS, _ => blank)
  }

  type Slot = i: int | 0 <= i < MAX_CLIENTS

  datatype Outcome = Outcome(server: Server, status: Status)

  // ----- queueing -----

  function Queue(s: Server, i: Slot, p: Packet): Outcome
  {
    if !Fits(p) then Outcome(s, BufferTooSmall)
    else if !s.clients[i].isOpen then Outcome(s, InvalidArgument)
    else if s.clients[i].pending.Some? then Outcome(s, BufferTooSmall)
    else Outcome(s.(clients := s.clients[i := s.clients[i].(pending := Some(p))], 
                       log := s.log + [EntryFor(s, i, p)]), OK)
  }

  function EntryFor(s: Server, i: Slot, p: Packet): Entry
  {
    Entry(i, s.clients[i].userId, p)
  }

  function Respond(s: Server, i: Slot, group: Group, status: Status, ids: seq<nat>): Outcome
  {
    Queue(s, i, Reply(group, status, ids))
  }

  // ----- lookups: the first matching slot, or the capacity -----

  predicate IsUser(c: Client, userId: nat)
  {
    c.isOpen && c.authenticated && c.userId == userId
  }

  function FindUser(clients: seq<Client>, userId: nat): (i: nat)
    ensures i <= |clients| && (i < |clients| ==> IsUser(clients[i], userId))
    ensures forall k :: 0 <= k < i ==> !IsUser(clients[k], userId)
  {
    if clients == [] || IsUser(clients[0], userId) then 0 else 1 + FindUser(clients[1..], userId)
  }

  predicate IsOnline(clients: seq<Client>, userId: nat)
  {
    userId != 0 && FindUser(clients, userId) < |clients|
  }

  function FindClosed(clients: seq<Client>): (i: nat)
    ensures i <= |clients| && (i < |clients| ==> !clients[i].isOpen)
    ensures forall k :: 0 <= k < i ==> clients[k].isOpen
  {
    if clients == [] || !clients[0].isOpen then 0 else 1 + FindClosed(clients[1..])
  }

  function FindFreeCall(calls: seq<Call>): (i: nat)
    ensures i <= |calls| && (i < |calls| ==> !calls[i].active)
    ensures forall k :: 0 <= k < i ==> calls[k].active
  {
    if calls == [] || !calls[0].active then 0 else 1 + FindFreeCall(calls[1..])
  }

  predicate IsCall(c: Call, id: nat)
  {
    c.active && c.id == id
  }

  function FindCall(calls: seq<Call>, id: nat): (i: nat)
    ensures i <= |calls| && (i < |calls| ==> IsCall(calls[i], id))
    ensures id != 0 ==> forall k :: 0 <= k < i ==> !IsCall(calls[k], id)
    ensures id == 0 ==> i == |calls|
  {
    if id == 0 then |calls|
    else if calls == [] || IsCall(calls[0], id) then 0 else 1 + FindCall(calls[1..], id)
  }

  function FindFreeTransfer(transfers: seq<Transfer>): (i: nat)
    ensures i <= |transfers| && (i < |transfers| ==> !transfers[i].active)
    ensures forall k :: 0 <= k < i ==> transfers[k].active
  {
    if transfers == [] || !transfers[0].active then 0 else 1 + FindFreeTransfer(transfers[1..])
  }

  predicate IsTransfer(t: Transfer, id: nat)
  {
    t.active && t.id == id
  }

  function FindTransfer(transfers: seq<Transfer>, id: nat): (i: nat)
    ensures i <= |transfers| && (i < |transfers| ==> IsTransfer(transfers[i], id))
    ensures id != 0 ==> forall k :: 0 <= k < i ==> !IsTransfer(transfers[k], id)
    ensures id == 0 ==> i == |transfers|
  {
    if id == 0 then |transfers|
    else if transfers == [] || IsTransfer(transfers[0], id) then 0 else 1 + FindTransfer(transfers[1..], id)
  }

  predicate InCall(c: Call, userId: nat)
  {
    userId != 0 && (c.caller == userId || c.callee == userId)
  }

  predicate HasActiveCall(calls: seq<Call>, userId: nat)
  {
    exists i :: 0 <= i < |calls| && calls[i].active && InCall(calls[i], userId)
  }

  function PeerOf(c: Call, userId: nat): nat
  {
    if c.caller == userId then c.callee else if c.callee == userId then c.caller else 0
  }

  predicate InTransfer(t: Transfer, userId: nat)
  {
    t.active && (t.sender == userId || t.receiver == userId)
  }

  // ----- closing a connection -----

  function ClearTransfersFor(s: Server, userId: nat): Server
  {
    if userId == 0 then s
    else s.(transfers := seq(MAX_CLIENTS, i requires 0 <= i < MAX_CLIENTS =>
                               if InTransfer(s.transfers[i], userId) then NO_TRANSFER else s.transfers[i]))
  }

  /** End one call because `userId` left: tell the peer if it is online and can take the packet. */
  function DropCall(s: Server, k: Slot, userId: nat): Server
  {
    var c := s.calls[k];
    var peer := FindUser(s.clients, PeerOf(c, userId));
    var told :=
      if peer < MAX_CLIENTS
      then Queue(s, peer, CallNotify(Hangup, c.id, userId, PeerOf(c, userId), c.media, NO_SIGNAL)).server
      else s;
    told.(calls := told.calls[k := NO_CALL])
  }

  function ClearCallsFrom(s: Server, userId: nat, k: nat): Server
    requires k <= MAX_CLIENTS
    decreases MAX_CLIENTS - k
  {
    if k == MAX_CLIENTS then s
    else if s.calls[k].active && InCall(s.calls[k], userId) then ClearCallsFrom(DropCall(s, k, userId), userId, k + 1)
    else ClearCallsFrom(s, userId, k + 1)
  }

  function ClearCallsFor(s: Server, userId: nat): Server
  {
    if userId == 0 then s else ClearCallsFrom(s, userId, 0)
  }

  function CloseClient(s: Server, i: Slot): Server
  {
    var c := s.clients[i];
    var userId := if c.authenticated then c.userId else 0;
    var s1 := if c.isOpen then s.(clients := s.clients[i := c.(isOpen := false, pending := None)]) else s;
    var s2 := ClearCallsFor(ClearTransfersFor(s1, userId), userId);
    s2.(clients := s2.clients[i := NO_CLIENT])
  }

  // ----- authentication -----

  /** Close every other connection on which the user is logged in. */
  function KickOthersFrom(s: Server, i: Slot, userId: nat, k: nat): Server
    requires k <= MAX_CLIENTS
    decreases MAX_CLIENTS - k
  {
    if k == MAX_CLIENTS then s
    else if k != i && IsUser(s.clients[k], userId) then KickOthersFrom(CloseClient(s, k), i, userId, k + 1)
    else KickOthersFrom(s, i, userId, k + 1)
  }

  function Authenticate(s: Server, i: Slot, userId: nat, username: string): Server
  {
    var s1 := KickOthersFrom(s, i, userId, 0);
    var c := s1.clients[i].(authenticated := true, userId := userId, sessionId := s1.nextSession, username := username);
    s1.(clients := s1.clients[i := c], nextSession := s1.nextSession + 1)
  }

  function HandleRegister(s: Server, i: Slot, username: string, nickname: Option<string>, hash: string,
        salt: string): Outcome
  {
    var out := S.CreateAccount(s.store, username, nickname, hash, salt);
    if out.status != OK then Respond(s.(store := out.store), i, AuthGroup, out.status, [])
    else
      var s1 := Authenticate(s.(store := out.store), i, out.id, username);
      Respond(s1, i, AuthGroup, OK, [out.id, s1.clients[i].sessionId])
  }

  function HandleLogin(s: Server, i: Slot, username: string, hash: string): Outcome
  {
    if !S.StringIsValid(username, S.MAX_USERNAME_LEN, false) then Respond(s, i, AuthGroup, InvalidArgument, [])
    else
      var k := S.FindAccountByName(s.store, username);
      if k == |s.store.accounts| then Respond(s, i, AuthGroup, NotFound, [])
      else
        var account := s.store.accounts[k];
        if !account.enabled then Respond(s, i, AuthGroup, InvalidState, [])
        else if hash != account.passwordHash then Respond(s, i, AuthGroup, InvalidArgument, [])
        else
          var s0 := s.(store := S.UpdateLastLogin(s.store, account.userId, 0).store);
          var s1 := Authenticate(s0, i, account.userId, username);
          Respond(s1, i, AuthGroup, OK, [account.userId, s1.clients[i].sessionId])
  }

  // ----- messages -----

  function HandleChat(s: Server, i: Slot, receiver: nat, content: string, clientMessageId: nat): Outcome
  {
    var sender := s.clients[i].userId;
    if receiver == 0 || !S.StringIsValid(content, S.MAX_MESSAGE_TEXT_LEN, false)
      then Respond(s, i, ChatGroup, InvalidArgument, [])
    else
      var out := S.StorePrivateMessage(s.store, S.Message(0, 0, sender, receiver, 1, content, clientMessageId, 0, 0));
      if out.status != OK then Respond(s, i, ChatGroup, out.status, [])
      else
        var replied := Respond(s.(store := out.store), i, ChatGroup, OK, [out.id, out.deliveryId]);
        if replied.status != OK then replied
        else
          var peer := FindUser(replied.server.clients, receiver);
          Outcome(if peer < MAX_CLIENTS
                  then Queue(replied.server, peer, ChatNotify(out.id, out.deliveryId, sender, receiver, content)).server
                  else replied.server, OK)
  }

  /** Offer a group message to each listed member that is online, except its sender. */
  function FanOut(s: Server, i: Slot, members: seq<nat>, conversationId: nat, messageId: nat, content: string): Server
    decreases |members|
  {
    if members == [] then s
    else
      var sender, member := s.clients[i].userId, members[0];
      var peer := FindUser(s.clients, member);
      var s1 :=
        if member == sender || peer == MAX_CLIENTS then s
        else Queue(s, peer, GroupNotify(conversationId, messageId, sender, member, content)).server;
      FanOut(s1, i, members[1..], conversationId, messageId, content)
  }

  function HandleGroupCreate(s: Server, i: Slot, name: string, ids: seq<nat>): Outcome
  {
    var out := S.CreateGroup(s.store, name, s.clients[i].userId, ids);
    Respond(s.(store := out.store), i, ConversationGroup, out.status, if out.status == OK then [out.id] else [])
  }

  function HandleGroupSend(s: Server, i: Slot, conversationId: nat, content: string, clientMessageId: nat): Outcome
  {
    if conversationId == 0 || !S.StringIsValid(content, S.MAX_MESSAGE_TEXT_LEN, false)
      then Respond(s, i, ConversationGroup, InvalidArgument, [])
    else
      var m := S.Message(0, conversationId, s.clients[i].userId, 0, 1, content, clientMessageId, 0, 0);
      var out := S.StoreGroupMessage(s.store, m);
      if out.status != OK then Respond(s, i, ConversationGroup, out.status, [])
      else
        var replied := Respond(s.(store := out.store), i, ConversationGroup, OK, [conversationId, out.id]);
        if replied.status != OK then replied
        else
          var listing := S.ListGroupMembers(out.store, conversationId, S.MAX_GROUP_MEMBERS);
          if listing.status != OK then Outcome(replied.server, OK)
          else Outcome(FanOut(replied.server, i, listing.rows, conversationId, out.id, content), OK)
  }

  // ----- file relay -----

  function HandleFileStart(s: Server, i: Slot, receiver: nat, fileName: string, fileSize: nat, crc32: bv32,
        content: string): Outcome
  {
    var sender := s.clients[i].userId;
    if receiver == 0 || receiver == sender || fileSize == 0 || fileSize > MAX_FILE_SIZE
       || !S.StringIsValid(fileName, S.MAX_FILE_NAME_LEN, false) then Respond(s, i, FileGroup, InvalidArgument, [])
    else
      var peer := FindUser(s.clients, receiver);
      if peer == MAX_CLIENTS then Respond(s, i, FileGroup, NotFound, [])
      else
        var k := FindFreeTransfer(s.transfers);
        if k == MAX_CLIENTS then Respond(s, i, FileGroup, BufferTooSmall, [])
        else
          var m := S.Message(0, 0, sender, receiver, S.CONTENT_FILE, content, 0, 0, 0);
          var out := S.StoreFileTransfer(s.store, m, fileName, fileSize, crc32);
          if out.status != OK then Respond(s, i, FileGroup, out.status, [])
          else
            var t := Transfer(true, s.nextTransfer, out.fileId, out.id, out.deliveryId, sender, receiver, fileName,
                fileSize, 0, 0, crc32);
            BeginTransfer(s.(store := out.store), i, peer, k, t)
  }

  /** Install a new transfer and announce it, or undo it when it cannot be announced. */
  function BeginTransfer(s: Server, i: Slot, peer: Slot, k: Slot, t: Transfer): Outcome
  {
    var s1 := s.(nextTransfer := s.nextTransfer + 1, transfers := s.transfers[k := t]);
    var told := Queue(s1, peer, StartOf(t));
    if told.status != OK then Outcome(s1.(transfers := s1.transfers[k := NO_TRANSFER]), told.status)
    else Respond(told.server, i, FileGroup, OK, [t.id, t.messageId, t.deliveryId])
  }

  function StartOf(t: Transfer): Packet
  {
    FileStart(t.id, t.messageId, t.deliveryId, t.sender, t.receiver, t.fileName, t.fileSize, t.crc32)
  }

  function HandleFileChunk(s: Server, i: Slot, transferId: nat, index: nat, data: seq<byte>): Outcome
  {
    if transferId == 0 || |data| == 0 || |data| > FILE_CHUNK_SIZE then Respond(s, i, FileGroup, InvalidArgument, [])
    else
      var k := FindTransfer(s.transfers, transferId);
      if k == MAX_CLIENTS || s.transfers[k].sender != s.clients[i].userId then Respond(s, i, FileGroup, NotFound, [])
      else
        var t := s.transfers[k];
        if t.bytesSeen + |data| > t.fileSize then Respond(s, i, FileGroup, InvalidArgument, [])
        else if index != t.nextChunk then
          Respond(s.(transfers := s.transfers[k := NO_TRANSFER]), i, FileGroup, InvalidArgument, [])
        else
          var peer := FindUser(s.clients, t.receiver);
          if peer == MAX_CLIENTS then
            Respond(s.(transfers := s.transfers[k := NO_TRANSFER]), i, FileGroup, NotFound, [])
          else
            var told := Queue(s, peer, FileChunk(t.id, index, t.sender, t.receiver, data));
            if told.status != OK then told
            else
              var t1 := t.(bytesSeen := t.bytesSeen + |data|, nextChunk := t.nextChunk + 1);
              Respond(told.server.(transfers := told.server.transfers[k := t1]), i, FileGroup, OK,
                  [t.id, t.messageId, t.deliveryId])
  }

  function HandleFileComplete(s: Server, i: Slot, transferId: nat): Outcome
  {
    if transferId == 0 then Respond(s, i, FileGroup, InvalidArgument, [])
    else
      var k := FindTransfer(s.transfers, transferId);
      if k == MAX_CLIENTS || s.transfers[k].sender != s.clients[i].userId then Respond(s, i, FileGroup, NotFound, [])
      else
        var t := s.transfers[k];
        if t.bytesSeen != t.fileSize then Respond(s, i, FileGroup, InvalidState, [])
        else
          var told := TellCompleted(s, t);
          var stored := told.(store := S.CompleteFileTransfer(told.store, t.storageId).store);
          var replied := Respond(stored, i, FileGroup, OK, [t.id, t.messageId, t.deliveryId]);
          Outcome(replied.server.(transfers := replied.server.transfers[k := NO_TRANSFER]), replied.status)
  }

  /** Offer the completion to the receiver; it is lost when the receiver is gone or its slot is busy. */
  function TellCompleted(s: Server, t: Transfer): Server
  {
    var peer := FindUser(s.clients, t.receiver);
    if peer < MAX_CLIENTS then Queue(s, peer, FileComplete(t.id, t.sender, t.receiver)).server else s
  }

  // ----- calls -----

  function HandleInvite(s: Server, i: Slot, peerId: nat, media: string): Outcome
  {
    var sender := s.clients[i].userId;
    if peerId == 0 || peerId == sender then Respond(s, i, CallGroup, InvalidArgument, [])
    else if media != "" && media != "audio" then Respond(s, i, CallGroup, InvalidArgument, [])
    else if HasActiveCall(s.calls, sender) || HasActiveCall(s.calls, peerId)
        then Respond(s, i, CallGroup, InvalidState, [])
    else
      var peer := FindUser(s.clients, peerId);
      if peer == MAX_CLIENTS then Respond(s, i, CallGroup, NotFound, [])
      else
        var k := FindFreeCall(s.calls);
        if k == MAX_CLIENTS then Respond(s, i, CallGroup, BufferTooSmall, [])
        else
          var c := Call(true, s.nextCall, sender, peerId, false, "audio");
          var s1 := s.(nextCall := s.nextCall + 1, calls := s.calls[k := c]);
          var told := Queue(s1, peer, CallNotify(Invite, c.id, sender, peerId, c.media, NO_SIGNAL));
          if told.status != OK then Outcome(s1.(calls := s1.calls[k := NO_CALL]), told.status)
          else Respond(told.server, i, CallGroup, OK, [c.id])
  }

  /** Relay an operation on call slot `k` to the other participant. */
  function Forward(s: Server, i: Slot, k: Slot, op: CallOp, callId: nat, signal: Signal): Outcome
  {
    var sender := s.clients[i].userId;
    var c := s.calls[k];
    var peerId := PeerOf(c, sender);
    var peer := FindUser(s.clients, peerId);
    if peerId == 0 then Respond(s, i, CallGroup, InvalidState, [callId])
    else if peer == MAX_CLIENTS then Respond(s.(calls := s.calls[k := NO_CALL]), i, CallGroup, NotFound, [callId])
    else
      var told := Queue(s, peer, CallNotify(op, c.id, sender, peerId, c.media, signal));
      if told.status != OK then told
      else
        var s1 := if op == Reject || op == Hangup then told.server.(calls := told.server.calls[k := NO_CALL])
            else told.server;
        Respond(s1, i, CallGroup, OK, [callId])
  }

  function HandleCall(s: Server, i: Slot, op: CallOp, callId: nat, peerId: nat, media: string, signal: Signal): Outcome
  {
    if op == Invite then HandleInvite(s, i, peerId, media)
    else
      var sender := s.clients[i].userId;
      var k := FindCall(s.calls, callId);
      if k == MAX_CLIENTS then Respond(s, i, CallGroup, NotFound, [callId])
      else
        var c := s.calls[k];
        if op == Accept then
          if sender != c.callee then Respond(s, i, CallGroup, InvalidState, [callId])
          else Forward(s.(calls := s.calls[k := c.(accepted := true)]), i, k, Accept, callId, signal)
        else if op == OtherCallOp then Respond(s, i, CallGroup, InvalidArgument, [callId])
        else if !InCall(c, sender) then Respond(s, i, CallGroup, InvalidState, [callId])
        else if (op == Offer || op == Answer) && signal.sdp == ""
            then Respond(s, i, CallGroup, InvalidArgument, [callId])
        else if op == Ice && signal.candidate == "" then Respond(s, i, CallGroup, InvalidArgument, [callId])
        else Forward(s, i, k, op, callId, signal)
  }

  // ----- who is online -----

  function UserOf(c: Client): OnlineUser { OnlineUser(c.userId, c.username) }

  /** The logged-in users on slots below `k`, leaving out slot `i`. */
  function OnlineBelow(clients: seq<Client>, i: nat, k: nat): (users: seq<OnlineUser>)
    requires k <= |clients|
    ensures |users| <= k
  {
    if k == 0 then []
    else
      var c := clients[k - 1];
      OnlineBelow(clients, i, k - 1) + (if k - 1 != i && c.isOpen && c.authenticated then [UserOf(c)] else [])
  }

  function HandleOnlineList(s: Server, i: Slot): Outcome
  {
    Queue(s, i, UserList(OK, OnlineBelow(s.clients, i, MAX_CLIENTS)))
  }

  // ----- dispatch -----

  function GroupOf(r: Request): Group
  {
    match r
    case Malformed(g, _) => g
    case Chat(_, _, _) => ChatGroup
    case GroupCreate(_, _) => ConversationGroup
    case GroupSend(_, _, _) => ConversationGroup
    case OtherConversation => ConversationGroup
    case StartFile(_, _, _, _, _) => FileGroup
    case SendChunk(_, _, _) => FileGroup
    case CompleteFile(_) => FileGroup
    case OtherFile => FileGroup
    case OnlineList => UserGroup
    case OtherUser => UserGroup
    case CallRequest(_, _, _, _, _) => CallGroup
    case Unsupported => ErrorGroup
    case _ => AuthGroup
  }

  predicate NeedsLogin(g: Group)
  {
    g != AuthGroup && g != ErrorGroup
  }

  /** A refusal is an empty user list for user requests and a plain status otherwise. */
  function Refuse(s: Server, i: Slot, group: Group, status: Status): Outcome
  {
    if group == UserGroup then Queue(s, i, UserList(status, [])) else Respond(s, i, group, status, [])
  }

  function Dispatch(s: Server, i: Slot, r: Request): Outcome
  {
    if NeedsLogin(GroupOf(r)) && !s.clients[i].authenticated then Refuse(s, i, GroupOf(r), InvalidState)
    else
      match r
      case Malformed(g, status) => Refuse(s, i, g, status)
      case Register(u, n, h, salt) => HandleRegister(s, i, u, n, h, salt)
      case Login(u, h) => HandleLogin(s, i, u, h)
      case OtherAuth => Refuse(s, i, AuthGroup, InvalidArgument)
      case Chat(to, text, id) => HandleChat(s, i, to, text, id)
      case GroupCreate(name, ids) => HandleGroupCreate(s, i, name, ids)
      case GroupSend(c, text, id) => HandleGroupSend(s, i, c, text, id)
      case OtherConversation => Refuse(s, i, ConversationGroup, InvalidArgument)
      case StartFile(to, name, size, crc, content) => HandleFileStart(s, i, to, name, size, crc, content)
      case SendChunk(t, index, data) => HandleFileChunk(s, i, t, index, data)
      case CompleteFile(t) => HandleFileComplete(s, i, t)
      case OtherFile => Refuse(s, i, FileGroup, InvalidArgument)
      case OnlineList => HandleOnlineList(s, i)
      case OtherUser => Refuse(s, i, UserGroup, InvalidArgument)
      case CallRequest(op, id, peer, media, signal) => HandleCall(s, i, op, id, peer, media, signal)
      case Heartbeat => Queue(s, i, HeartbeatReply)
      case Unsupported => Refuse(s, i, ErrorGroup, UnsupportedField)
  }

  // ----- one pass over the connections -----

  datatype FlushResult = Sent | Blocked | FlushFailed
  datatype RecvResult = Nothing | RecvFailed | Received(request: Request)
  datatype ClientIo = ClientIo(flush: FlushResult, recv: RecvResult)

  /** The turn of one connection: flush it, read at most one packet, dispatch it. */
  function Serve(s: Server, i: Slot, io: ClientIo): Server
  {
    if !s.clients[i].isOpen then s
    else if io.flush == FlushFailed then CloseClient(s, i)
    else
      var s1 := if io.flush == Sent then s.(clients := s.clients[i := s.clients[i].(pending := None)]) else s;
      match io.recv
      case Nothing => s1
      case RecvFailed => CloseClient(s1, i)
      case Received(r) =>
        var out := Dispatch(s1, i, r);
        if out.status != OK && out.status != NeedMoreData then CloseClient(out.server, i) else out.server
  }

  /** Take new connections while there are some and a slot is free. */
  function AcceptClients(s: Server, arrivals: nat): Server
    decreases arrivals
  {
    var k := FindClosed(s.clients);
    if k == MAX_CLIENTS then s
    else if arrivals == 0 then s.(clients := s.clients[k := NO_CLIENT])
    else AcceptClients(s.(clients := s.clients[k := NO_CLIENT.(isOpen := true)]), arrivals - 1)
  }

  function ServeFrom(s: Server, ios: seq<ClientIo>, k: nat): Server
    requires k <= MAX_CLIENTS == |ios|
    decreases MAX_CLIENTS - k
  {
    if k == MAX_CLIENTS then s else ServeFrom(Serve(s, k, ios[k]), ios, k + 1)
  }

  function SweptTransfer(clients: seq<Client>, t: Transfer): Transfer
  {
    if t.active && !(IsOnline(clients, t.sender) && IsOnline(clients, t.receiver)) then NO_TRANSFER else t
  }

  function SweepTransfers(s: Server): Server
  {
    s.(transfers := seq(MAX_CLIENTS, i requires 0 <= i < MAX_CLIENTS => SweptTransfer(s.clients, s.transfers[i])))
  }

  function SweptCall(clients: seq<Client>, c: Call): Call
  {
    if c.active && !(IsOnline(clients, c.caller) && IsOnline(clients, c.callee)) then NO_CALL else c
  }

  function SweepCalls(s: Server): Server
  {
    s.(calls := seq(MAX_CLIENTS, i requires 0 <= i < MAX_CLIENTS => SweptCall(s.clients, s.calls[i])))
  }

  function RunOnce(s: Server, arrivals: nat, ios: seq<ClientIo>): Server
    requires |ios| == MAX_CLIENTS
  {
    SweepCalls(SweepTransfers(ServeFrom(AcceptClients(s, arrivals), ios, 0)))
  }
}
