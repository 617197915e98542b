/** The in-memory storage backend as functions on its tables. */
module Storage {
  import opened Wire

  const MAX_ACCOUNTS := 128
  const MAX_CONVERSATIONS := 256
  const MAX_MESSAGES := 1024
  const MAX_DELIVERIES := 1024
  const MAX_MEMBERS := 1024
  const MAX_FILES := 128
  const MAX_USERNAME_LEN := 64
  const MAX_NICKNAME_LEN := 64
  const PASSWORD_HASH_LEN := 128
  const PASSWORD_SALT_LEN := 64
  const MAX_MESSAGE_TEXT_LEN := 4096
  const MAX_GROUP_NAME_LEN := 64
  const MAX_GROUP_MEMBERS := 16
  const MAX_FILE_NAME_LEN := 255

  const PENDING := 1
  const DELIVERED := 2
  const ACKED := 3
  const CONTENT_FILE := 2

  datatype Account = Account(
    userId: nat, username: string, nickname: string, passwordHash: string, passwordSalt: string,
    enabled: bool, lastLoginMs: nat)
  datatype Conversation = Conversation(id: nat, isGroup: bool, name: string, userA: nat, userB: nat)
  datatype Member = Member(conversationId: nat, userId: nat, active: bool)
  datatype Message = Message(
    id: nat, conversationId: nat, sender: nat, receiver: nat, contentType: nat, content: string,
    clientMessageId: nat, sendTimeMs: nat, storeTimeMs: nat)
  datatype Delivery = Delivery(
    id: nat, messageId: nat, receiver: nat, state: nat, deliveredTimeMs: nat, ackedTimeMs: nat)
  datatype FileRecord = FileRecord(
    id: nat, messageId: nat, sender: nat, receiver: nat, fileName: string, fileSize: nat, crc32: bv32, completed: bool)

  datatype Store = Store(
    accounts: seq<Account>, conversations: seq<Conversation>, members: seq<Member>, messages: seq<Message>,
    deliveries: seq<Delivery>, files: seq<FileRecord>,
    nextUserId: nat, nextConversationId: nat, nextMessageId: nat, nextDeliveryId: nat, nextFileId: nat)

  const EMPTY := Store([], [], [], [], [], [], 1, 1, 1, 1, 1)

  /** The result of an operation that may change the tables. */
  datatype Out = Out(store: Store, status: Status, id: nat, deliveryId: nat, fileId: nat)

  function Fail(st: Store, status: Status): Out { Out(st, status, 0, 0, 0) }
  function Done(st: Store, id: nat): Out { Out(st, OK, id, 0, 0) }

  predicate StringIsValid(s: string, maxLen: nat, allowEmpty: bool)
  {
    |s| <= maxLen && (allowEmpty || |s| != 0)
  }

  // ----- searches: the first matching index, or the length -----

  function First<T>(s: seq<T>, p: T -> bool): (i: nat)
    ensures i <= |s| && (forall k :: 0 <= k < i ==> !p(s[k])) && (i < |s| ==> p(s[i]))
  {
    if s == [] || p(s[0]) then 0 else 1 + First(s[1..], p)
  }

  function FindAccountById(st: Store, userId: nat): (i: nat)
    ensures i <= |st.accounts| && (i < |st.accounts| ==> st.accounts[i].userId == userId)
    ensures forall k :: 0 <= k < i ==> st.accounts[k].userId != userId
  {
    First(st.accounts, (a: Account) => a.userId == userId)
  }

  function FindAccountByName(st: Store, username: string): (i: nat)
    ensures i <= |st.accounts| && (i < |st.accounts| ==> st.accounts[i].username == username)
    ensures forall k :: 0 <= k < i ==> st.accounts[k].username != username
  {
    First(st.accounts, (a: Account) => a.username == username)
  }

  predicate AccountIsEnabled(st: Store, userId: nat)
  {
    var i := FindAccountById(st, userId);
    i < |st.accounts| && st.accounts[i].enabled
  }

  function FindConversation(st: Store, id: nat): (i: nat)
    ensures i <= |st.conversations| && (i < |st.conversations| ==> st.conversations[i].id == id)
    ensures forall k :: 0 <= k < i ==> st.conversations[k].id != id
  {
    First(st.conversations, (c: Conversation) => c.id == id)
  }

  predicate HasPair(c: Conversation, a: nat, b: nat)
  {
    c.userA == Low(a, b) && c.userB == High(a, b)
  }

  function Low(a: nat, b: nat): nat { if a < b then a else b }
  function High(a: nat, b: nat): nat { if a < b then b else a }

  function FindPrivate(st: Store, a: nat, b: nat): (i: nat)
    ensures i <= |st.conversations| && (i < |st.conversations| ==> HasPair(st.conversations[i], a, b))
    ensures forall k :: 0 <= k < i ==> !HasPair(st.conversations[k], a, b)
  {
    First(st.conversations, (c: Conversation) => HasPair(c, a, b))
  }

  function FindMessage(st: Store, id: nat): (i: nat)
    ensures i <= |st.messages| && (i < |st.messages| ==> st.messages[i].id == id)
    ensures forall k :: 0 <= k < i ==> st.messages[k].id != id
  {
    First(st.messages, (m: Message) => m.id == id)
  }

  function FindDelivery(st: Store, id: nat): (i: nat)
    ensures i <= |st.deliveries| && (i < |st.deliveries| ==> st.deliveries[i].id == id)
    ensures forall k :: 0 <= k < i ==> st.deliveries[k].id != id
  {
    First(st.deliveries, (d: Delivery) => d.id == id)
  }

  function FindFile(st: Store, id: nat): (i: nat)
    ensures i <= |st.files| && (i < |st.files| ==> st.files[i].id == id)
    ensures forall k :: 0 <= k < i ==> st.files[k].id != id
  {
    First(st.files, (f: FileRecord) => f.id == id)
  }

  predicate IsActiveMember(m: Member, conversationId: nat, userId: nat)
  {
    m.conversationId == conversationId && m.userId == userId && m.active
  }

  predicate GroupHasMember(st: Store, conversationId: nat, userId: nat)
  {
    exists i :: 0 <= i < |st.members| && IsActiveMember(st.members[i], conversationId, userId)
  }

  // ----- operations -----

  function CreateAccount(st: Store, username: string, nickname: Option<string>, hash: string, salt: string): Out
  {
    if !StringIsValid(username, MAX_USERNAME_LEN, false) || !StringIsValid(hash, PASSWORD_HASH_LEN, false)
       || !StringIsValid(salt, PASSWORD_SALT_LEN, false) then Fail(st, InvalidArgument)
    else if nickname.Some? && !StringIsValid(nickname.value, MAX_NICKNAME_LEN, true) then Fail(st, InvalidArgument)
    else if FindAccountByName(st, username) < |st.accounts| then Fail(st, AlreadyExists)
    else if |st.accounts| >= MAX_ACCOUNTS then Fail(st, BufferTooSmall)
    else
      var shown := if nickname.Some? && nickname.value != "" then nickname.value else username;
      var account := Account(st.nextUserId, username, shown, hash, salt, true, 0);
      Done(st.(accounts := st.accounts + [account], nextUserId := st.nextUserId + 1), st.nextUserId)
  }

  function UpdateLastLogin(st: Store, userId: nat, timeMs: nat): Out
  {
    if userId == 0 then Fail(st, InvalidArgument)
    else
      var i := FindAccountById(st, userId);
      if i == |st.accounts| then Fail(st, NotFound)
      else Done(st.(accounts := st.accounts[i := st.accounts[i].(lastLoginMs := timeMs)]), 0)
  }

  /** The store with the pair's private conversation in it, and that conversation's id. */
  function GetOrCreatePrivate(st: Store, a: nat, b: nat): Out
  {
    var i := FindPrivate(st, a, b);
    if i < |st.conversations| then Done(st, st.conversations[i].id)
    else if |st.conversations| >= MAX_CONVERSATIONS then Fail(st, BufferTooSmall)
    else
      var c := Conversation(st.nextConversationId, false, "", Low(a, b), High(a, b));
      Done(st.(conversations := st.conversations + [c], nextConversationId := st.nextConversationId + 1), c.id)
  }

  function Stamped(m: Message): Message
  {
    if m.storeTimeMs == 0 then m.(storeTimeMs := m.sendTimeMs) else m
  }

  function StorePrivateMessage(st: Store, m: Message): Out
  {
    if m.sender == 0 || m.receiver == 0 || m.sender == m.receiver || m.contentType == 0
       || !StringIsValid(m.content, MAX_MESSAGE_TEXT_LEN, false) then Fail(st, InvalidArgument)
    else if !AccountIsEnabled(st, m.sender) || !AccountIsEnabled(st, m.receiver) then Fail(st, NotFound)
    else if |st.messages| >= MAX_MESSAGES || |st.deliveries| >= MAX_DELIVERIES then Fail(st, BufferTooSmall)
    else
      var found := PrivateConversationFor(st, m);
      if found.status != OK then Fail(st, found.status)
      else
        var s1 := found.store;
        var stored := Stamped(m.(id := s1.nextMessageId, conversationId := found.id));
        var delivery := Delivery(s1.nextDeliveryId, stored.id, stored.receiver, PENDING, 0, 0);
        Out(s1.(messages := s1.messages + [stored], nextMessageId := s1.nextMessageId + 1,
                deliveries := s1.deliveries + [delivery], nextDeliveryId := s1.nextDeliveryId + 1),
            OK, stored.id, delivery.id, 0)
  }

  function PrivateConversationFor(st: Store, m: Message): Out
  {
    if m.conversationId == 0 then GetOrCreatePrivate(st, m.sender, m.receiver)
    else
      var i := FindConversation(st, m.conversationId);
      if i == |st.conversations| || !HasPair(st.conversations[i], m.sender, m.receiver) then Fail(st, NotFound)
      else Done(st, m.conversationId)
  }

  datatype Collected = Collected(status: Status, members: seq<nat>)

  /** The members of a new group: the listed ids in order, without repetition, after `seen`. */
  function CollectMembers(st: Store, ids: seq<nat>, seen: seq<nat>): Collected
    decreases |ids|
  {
    if ids == [] then Collected(OK, seen)
    else if ids[0] == 0 || !AccountIsEnabled(st, ids[0]) then Collected(NotFound, [])
    else if ids[0] in seen then CollectMembers(st, ids[1..], seen)
    else if |seen| >= MAX_GROUP_MEMBERS then Collected(BufferTooSmall, [])
    else CollectMembers(st, ids[1..], seen + [ids[0]])
  }

  function MemberRows(conversationId: nat, users: seq<nat>): (rows: seq<Member>)
    ensures |rows| == |users|
    ensures forall i :: 0 <= i < |users| ==> rows[i] == Member(conversationId, users[i], true)
  {
    if users == [] then []
    else MemberRows(conversationId, users[..|users| - 1]) + [Member(conversationId, users[|users| - 1], true)]
  }

  function CreateGroup(st: Store, name: string, creator: nat, ids: seq<nat>): Out
  {
    if creator == 0 || |ids| == 0 || |ids| > MAX_GROUP_MEMBERS || !StringIsValid(name, MAX_GROUP_NAME_LEN, false)
      then Fail(st, InvalidArgument)
    else if !AccountIsEnabled(st, creator) then Fail(st, NotFound)
    else
      var c := CollectMembers(st, ids, [creator]);
      if c.status != OK then Fail(st, c.status)
      else if |c.members| < 2 then Fail(st, InvalidArgument)
      else if |st.conversations| >= MAX_CONVERSATIONS || |st.members| + |c.members| > MAX_MEMBERS
          then Fail(st, BufferTooSmall)
      else
        var g := Conversation(st.nextConversationId, true, name, 0, 0);
        Done(st.(conversations := st.conversations + [g], nextConversationId := st.nextConversationId + 1,
                 members := st.members + MemberRows(g.id, c.members)), g.id)
  }

  function StoreGroupMessage(st: Store, m: Message): Out
  {
    if m.conversationId == 0 || m.sender == 0 || m.contentType == 0
       || !StringIsValid(m.content, MAX_MESSAGE_TEXT_LEN, false) then Fail(st, InvalidArgument)
    else
      var i := FindConversation(st, m.conversationId);
      if i == |st.conversations| || !st.conversations[i].isGroup || !GroupHasMember(st, m.conversationId, m.sender)
        then Fail(st, NotFound)
      else if |st.messages| >= MAX_MESSAGES then Fail(st, BufferTooSmall)
      else
        var stored := Stamped(m.(id := st.nextMessageId, receiver := 0));
        Done(st.(messages := st.messages + [stored], nextMessageId := st.nextMessageId + 1), stored.id)
  }

  function StoreFileTransfer(st: Store, m: Message, fileName: string, fileSize: nat, crc32: bv32): Out
  {
    if fileSize == 0 || fileSize > MAX_FILE_SIZE || !StringIsValid(fileName, MAX_FILE_NAME_LEN, false)
      then Fail(st, InvalidArgument)
    else if |st.files| >= MAX_FILES then Fail(st, BufferTooSmall)
    else
      var out := StorePrivateMessage(st, m.(contentType := CONTENT_FILE));
      if out.status != OK then out
      else
        var s1 := out.store;
        var f := FileRecord(s1.nextFileId, out.id, m.sender, m.receiver, fileName, fileSize, crc32, false);
        Out(s1.(files := s1.files + [f], nextFileId := s1.nextFileId + 1), OK, out.id, out.deliveryId, f.id)
  }

  function CompleteFileTransfer(st: Store, fileId: nat): Out
  {
    if fileId == 0 then Fail(st, InvalidArgument)
    else
      var i := FindFile(st, fileId);
      if i == |st.files| then Fail(st, NotFound)
      else Done(st.(files := st.files[i := st.files[i].(completed := true)]), 0)
  }

  predicate TransitionIsValid(current: nat, next: nat)
  {
    || current == next
    || (current == PENDING && (next == DELIVERED || next == ACKED))
    || (current == DELIVERED && next == ACKED)
  }

  function MarkDeliveryState(st: Store, deliveryId: nat, state: nat, timeMs: nat): Out
  {
    if deliveryId == 0 || !(PENDING <= state <= ACKED) then Fail(st, InvalidArgument)
    else
      var i := FindDelivery(st, deliveryId);
      if i == |st.deliveries| then Fail(st, NotFound)
      else
        var d := st.deliveries[i];
        if !TransitionIsValid(d.state, state) then Fail(st, InvalidState)
        else if d.state == state then Done(st, 0)
        else
          var delivered := if state == DELIVERED || d.deliveredTimeMs == 0 then timeMs else d.deliveredTimeMs;
          var acked := if state == ACKED then timeMs else d.ackedTimeMs;
          var moved := d.(state := state, deliveredTimeMs := delivered, ackedTimeMs := acked);
          Done(st.(deliveries := st.deliveries[i := moved]), 0)
  }

  // ----- listings -----

  /** The active members of a conversation, in insertion order. */
  function MembersOf(members: seq<Member>, conversationId: nat): seq<nat>
  {
    if members == [] then []
    else
      var last := members[|members| - 1];
      MembersOf(members[..|members| - 1], conversationId)
      + (if last.conversationId == conversationId && last.active then [last.userId] else [])
  }

  datatype Listing<T> = Listing(status: Status, count: nat, rows: seq<T>)

  function ListGroupMembers(st: Store, conversationId: nat, capacity: nat): Listing<nat>
  {
    if conversationId == 0 then Listing(InvalidArgument, 0, [])
    else
      var i := FindConversation(st, conversationId);
      if i == |st.conversations| || !st.conversations[i].isGroup then Listing(NotFound, 0, [])
      else
        var all := MembersOf(st.members, conversationId);
        Listing(if |all| > capacity then BufferTooSmall else OK, |all|, all[..Min(|all|, capacity)])
  }

  predicate InHistory(m: Message, conversationId: nat, before: nat)
  {
    m.conversationId == conversationId && (before == 0 || m.id < before)
  }

  /** A conversation's messages, newest first, with ids below `before` (0 for no bound). */
  function History(messages: seq<Message>, conversationId: nat, before: nat): seq<Message>
  {
    if messages == [] then []
    else
      var last := messages[|messages| - 1];
      (if InHistory(last, conversationId, before) then [last] else [])
      + History(messages[..|messages| - 1], conversationId, before)
  }

  function ListHistory(st: Store, a: nat, b: nat, before: nat, limit: nat, capacity: nat): Listing<Message>
  {
    if a == 0 || b == 0 || a == b then Listing(InvalidArgument, 0, [])
    else
      var i := FindPrivate(st, a, b);
      if i == |st.conversations| || limit == 0 then Listing(OK, 0, [])
      else
        var all := History(st.messages, st.conversations[i].id, before);
        var page := all[..Min(limit, |all|)];
        if |page| > capacity then Listing(BufferTooSmall, |page|, []) else Listing(OK, |page|, page)
  }

  predicate IsPendingFor(d: Delivery, receiver: nat)
  {
    d.receiver == receiver && d.state == PENDING
  }

  /** The pending deliveries of a receiver, oldest first. */
  function PendingFor(deliveries: seq<Delivery>, receiver: nat): seq<Delivery>
  {
    if deliveries == [] then []
    else
      var last := deliveries[|deliveries| - 1];
      PendingFor(deliveries[..|deliveries| - 1], receiver) + (if IsPendingFor(last, receiver) then [last] else [])
  }

  datatype DeliveryRow = DeliveryRow(deliveryId: nat, message: Message, state: nat)

  /** The rows for the given deliveries, up to the first whose message is missing. */
  function DeliveryRows(st: Store, deliveries: seq<Delivery>): (rows: seq<DeliveryRow>)
    ensures |rows| <= |deliveries|
  {
    if deliveries == [] then []
    else
      var i := FindMessage(st, deliveries[0].messageId);
      if i == |st.messages| then []
      else [DeliveryRow(deliveries[0].id, st.messages[i], deliveries[0].state)] + DeliveryRows(st, deliveries[1..])
  }

  function ListPendingDeliveries(st: Store, receiver: nat, limit: nat, capacity: nat): Listing<DeliveryRow>
  {
    if receiver == 0 then Listing(InvalidArgument, 0, [])
    else if !AccountIsEnabled(st, receiver) then Listing(NotFound, 0, [])
    else if limit == 0 then Listing(OK, 0, [])
    else
      var all := PendingFor(st.deliveries, receiver);
      var chosen := all[..Min(limit, |all|)];
      if |chosen| > capacity then Listing(BufferTooSmall, |chosen|, [])
      else
        var rows := DeliveryRows(st, chosen);
        Listing(if |rows| < |chosen| then InternalError else OK, |chosen|, rows)
  }
}
