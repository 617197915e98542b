/** The in-memory backend: tables that operations scan, append to and update in place. Every operation
    is proved to act on the tables as the function of the same name in module Storage. */
module MemoryStorages {
  import opened Wire
  import opened Storage

  class MemoryStorage {
    var accounts: seq<Account>
    var conversations: seq<Conversation>
    var members: seq<Member>
    var messages: seq<Message>
    var deliveries: seq<Delivery>
    var files: seq<FileRecord>
    var nextUserId: nat
    var nextConversationId: nat
    var nextMessageId: nat
    var nextDeliveryId: nat
    var nextFileId: nat

    constructor ()
      ensures State() == EMPTY
    {
      accounts, conversations, members, messages, deliveries, files := [], [], [], [], [], [];
      nextUserId, nextConversationId, nextMessageId, nextDeliveryId, nextFileId := 1, 1, 1, 1, 1;
    }

    function State(): Store
      reads this
    {
      Store(accounts, conversations, members, messages, deliveries, files,
            nextUserId, nextConversationId, nextMessageId, nextDeliveryId, nextFileId)
    }

    // ----- searches -----

    method FindAccount(userId: nat) returns (i: nat)
      ensures i == FindAccountById(State(), userId)
    {
      i := 0;
      while i < |accounts|
        invariant i <= |accounts| && forall k :: 0 <= k < i ==> accounts[k].userId != userId
      {
        if accounts[i].userId == userId { return; }
        i := i + 1;
      }
    }

    method FindUsername(username: string) returns (i: nat)
      ensures i == FindAccountByName(State(), username)
    {
      i := 0;
      while i < |accounts|
        invariant i <= |accounts| && forall k :: 0 <= k < i ==> accounts[k].username != username
      {
        if accounts[i].username == username { return; }
        i := i + 1;
      }
    }

    method IsEnabled(userId: nat) returns (enabled: bool)
      ensures enabled == AccountIsEnabled(State(), userId)
    {
      var i := FindAccount(userId);
      return i < |accounts| && accounts[i].enabled;
    }

    method FindConversationById(id: nat) returns (i: nat)
      ensures i == FindConversation(State(), id)
    {
      i := 0;
      while i < |conversations|
        invariant i <= |conversations| && forall k :: 0 <= k < i ==> conversations[k].id != id
      {
        if conversations[i].id == id { return; }
        i := i + 1;
      }
    }

    method FindPrivateConversation(a: nat, b: nat) returns (i: nat)
      ensures i == FindPrivate(State(), a, b)
    {
      var low, high := if a < b then a else b, if a < b then b else a;
      i := 0;
      while i < |conversations|
        invariant i <= |conversations| && forall k :: 0 <= k < i ==> !HasPair(conversations[k], a, b)
      {
        if conversations[i].userA == low && conversations[i].userB == high { return; }
        i := i + 1;
      }
    }

    method HasMember(conversationId: nat, userId: nat) returns (found: bool)
      ensures found == GroupHasMember(State(), conversationId, userId)
    {
      for i := 0 to |members|
        invariant forall k :: 0 <= k < i ==> !IsActiveMember(members[k], conversationId, userId)
      {
        if members[i].conversationId == conversationId && members[i].userId == userId && members[i].active {
          assert IsActiveMember(members[i], conversationId, userId);
          return true;
        }
      }
      return false;
    }

    method FindMessageById(id: nat) returns (i: nat)
      ensures i == FindMessage(State(), id)
    {
      i := 0;
      while i < |messages|
        invariant i <= |messages| && forall k :: 0 <= k < i ==> messages[k].id != id
      {
        if messages[i].id == id { return; }
        i := i + 1;
      }
    }

    method FindDeliveryById(id: nat) returns (i: nat)
      ensures i == FindDelivery(State(), id)
    {
      i := 0;
      while i < |deliveries|
        invariant i <= |deliveries| && forall k :: 0 <= k < i ==> deliveries[k].id != id
      {
        if deliveries[i].id == id { return; }
        i := i + 1;
      }
    }

    // ----- operations -----

    method CreateAccount(username: string, nickname: Option<string>, hash: string, salt: string)
      returns (status: Status, userId: nat)
      modifies this
      ensures var out := Storage.CreateAccount(old(State()), username, nickname, hash, salt);
        State() == out.store && status == out.status && userId == out.id
    {
      userId := 0;
      if !StringIsValid(username, MAX_USERNAME_LEN, false) || !StringIsValid(hash, PASSWORD_HASH_LEN, false)
         || !StringIsValid(salt, PASSWORD_SALT_LEN, false) {
        return InvalidArgument, 0;
      }
      if nickname.Some? && !StringIsValid(nickname.value, MAX_NICKNAME_LEN, true) {
        return InvalidArgument, 0;
      }
      var i := FindUsername(username);
      if i < |accounts| {
        return AlreadyExists, 0;
      }
      if |accounts| >= MAX_ACCOUNTS {
        return BufferTooSmall, 0;
      }
      userId := nextUserId;
      nextUserId := nextUserId + 1;
      var shown := if nickname.Some? && nickname.value != "" then nickname.value else username;
      accounts := accounts + [Account(userId, username, shown, hash, salt, true, 0)];
      return OK, userId;
    }

    method UpdateLastLogin(userId: nat, timeMs: nat) returns (status: Status)
      modifies this`accounts
      ensures var out := Storage.UpdateLastLogin(old(State()), userId, timeMs);
        State() == out.store && status == out.status
    {
      if userId == 0 {
        return InvalidArgument;
      }
      var i := FindAccount(userId);
      if i == |accounts| {
        return NotFound;
      }
      accounts := accounts[i := accounts[i].(lastLoginMs := timeMs)];
      return OK;
    }

    method GetOrCreatePrivateConversation(a: nat, b: nat) returns (status: Status, id: nat)
      modifies this`conversations, this`nextConversationId
      ensures var out := GetOrCreatePrivate(old(State()), a, b);
        State() == out.store && status == out.status && id == out.id
    {
      var i := FindPrivateConversation(a, b);
      if i < |conversations| {
        return OK, conversations[i].id;
      }
      if |conversations| >= MAX_CONVERSATIONS {
        return BufferTooSmall, 0;
      }
      id := nextConversationId;
      nextConversationId := nextConversationId + 1;
      var low, high := if a < b then a else b, if a < b then b else a;
      conversations := conversations + [Conversation(id, false, "", low, high)];
      return OK, id;
    }

    /** The conversation of a private message: the pair's own, created on demand, or the one it names. */
    method ConversationFor(message: Message) returns (status: Status, id: nat)
      modifies this`conversations, this`nextConversationId
      ensures var out := PrivateConversationFor(old(State()), message);
        State() == (if out.status == OK then out.store else old(State())) && status == out.status && id == out.id
    {
      if message.conversationId == 0 {
        status, id := GetOrCreatePrivateConversation(message.sender, message.receiver);
        return;
      }
      var i := FindConversationById(message.conversationId);
      if i == |conversations| || !HasPair(conversations[i], message.sender, message.receiver) {
        return NotFound, 0;
      }
      return OK, message.conversationId;
    }

    method StorePrivateMessage(message: Message) returns (status: Status, messageId: nat, deliveryId: nat)
      modifies this
      ensures var out := Storage.StorePrivateMessage(old(State()), message);
        State() == out.store && status == out.status && messageId == out.id && deliveryId == out.deliveryId
    {
      hide AccountIsEnabled, PrivateConversationFor, StringIsValid;
      messageId, deliveryId := 0, 0;
      if message.sender == 0 || message.receiver == 0 || message.sender == message.receiver || message.contentType == 0
         || !StringIsValid(message.content, MAX_MESSAGE_TEXT_LEN, false) {
        return InvalidArgument, 0, 0;
      }
      var senderOk := IsEnabled(message.sender);
      var receiverOk := IsEnabled(message.receiver);
      if !senderOk || !receiverOk {
        return NotFound, 0, 0;
      }
      if |messages| >= MAX_MESSAGES || |deliveries| >= MAX_DELIVERIES {
        return BufferTooSmall, 0, 0;
      }
      var conversationId;
      status, conversationId := ConversationFor(message);
      if status != OK {
        return;
      }
      messageId, deliveryId := AppendMessage(message, conversationId);
      return OK, messageId, deliveryId;
    }

    /** A stamped copy of the message and its pending delivery, at the ends of their tables. */
    method AppendMessage(message: Message, conversationId: nat) returns (messageId: nat, deliveryId: nat)
      modifies this`messages, this`deliveries, this`nextMessageId, this`nextDeliveryId
      ensures messageId == old(nextMessageId) && deliveryId == old(nextDeliveryId)
      ensures nextMessageId == messageId + 1 && nextDeliveryId == deliveryId + 1
      ensures messages == old(messages) + [Stamped(message.(id := messageId, conversationId := conversationId))]
      ensures deliveries == old(deliveries) + [Delivery(deliveryId, messageId, message.receiver, PENDING, 0, 0)]
    {
      var stored := message.(id := nextMessageId, conversationId := conversationId);
      nextMessageId := nextMessageId + 1;
      if stored.storeTimeMs == 0 {
        stored := stored.(storeTimeMs := stored.sendTimeMs);
      }
      messages := messages + [stored];
      deliveries := deliveries + [Delivery(nextDeliveryId, stored.id, stored.receiver, PENDING, 0, 0)];
      messageId, deliveryId := stored.id, nextDeliveryId;
      nextDeliveryId := nextDeliveryId + 1;
    }

    method CreateGroup(name: string, creator: nat, ids: seq<nat>) returns (status: Status, conversationId: nat)
      modifies this
      ensures var out := Storage.CreateGroup(old(State()), name, creator, ids);
        State() == out.store && status == out.status && conversationId == out.id
    {
      hide CollectMembers, AccountIsEnabled, MemberRows, StringIsValid;
      conversationId := 0;
      if creator == 0 || |ids| == 0 || |ids| > MAX_GROUP_MEMBERS || !StringIsValid(name, MAX_GROUP_NAME_LEN, false) {
        return InvalidArgument, 0;
      }
      var enabled := IsEnabled(creator);
      if !enabled {
        return NotFound, 0;
      }
      var unique;
      status, unique := Collect(creator, ids);
      if status != OK {
        return;
      }
      if |unique| < 2 {
        return InvalidArgument, 0;
      }
      if |conversations| >= MAX_CONVERSATIONS || |members| + |unique| > MAX_MEMBERS {
        return BufferTooSmall, 0;
      }
      conversationId := nextConversationId;
      nextConversationId := nextConversationId + 1;
      conversations := conversations + [Conversation(conversationId, true, name, 0, 0)];
      AppendMembers(conversationId, unique);
      return OK, conversationId;
    }

    method Collect(creator: nat, ids: seq<nat>) returns (status: Status, unique: seq<nat>)
      ensures Collected(status, unique) == CollectMembers(State(), ids, [creator])
    {
      hide AccountIsEnabled;
      unique := [creator];
      ghost var st, goal := State(), CollectMembers(State(), ids, [creator]);
      assert ids[0..] == ids;
      for i := 0 to |ids|
        invariant CollectMembers(st, ids[i..], unique) == goal
      {
        ghost var rest := ids[i..];
        assert rest[0] == ids[i] && rest[1..] == ids[i + 1..];
        if ids[i] == 0 {
          return NotFound, [];
        }
        var enabled := IsEnabled(ids[i]);
        if !enabled {
          return NotFound, [];
        }
        if ids[i] !in unique {
          if |unique| >= MAX_GROUP_MEMBERS {
            return BufferTooSmall, [];
          }
          unique := unique + [ids[i]];
        }
      }
      return OK, unique;
    }

    method AppendMembers(conversationId: nat, users: seq<nat>)
      modifies this`members
      ensures members == old(members) + MemberRows(conversationId, users)
    {
      for i := 0 to |users|
        invariant members == old(members) + MemberRows(conversationId, users[..i])
      {
        members := members + [Member(conversationId, users[i], true)];
        assert users[..i + 1][..i] == users[..i];
      }
      assert users[..|users|] == users;
    }

    method ListGroupMembers(conversationId: nat, capacity: nat) returns (listing: Listing<nat>)
      ensures listing == Storage.ListGroupMembers(State(), conversationId, capacity)
    {
      if conversationId == 0 {
        return Listing(InvalidArgument, 0, []);
      }
      var c := FindConversationById(conversationId);
      if c == |conversations| || !conversations[c].isGroup {
        return Listing(NotFound, 0, []);
      }
      var count, rows := 0, [];
      for i := 0 to |members|
        invariant count == |MembersOf(members[..i], conversationId)|
        invariant rows == MembersOf(members[..i], conversationId)[..Min(count, capacity)]
      {
        assert members[..i + 1][..i] == members[..i];
        if members[i].conversationId == conversationId && members[i].active {
          if count < capacity {
            rows := rows + [members[i].userId];
          }
          count := count + 1;
        }
      }
      assert members[..|members|] == members;
      return Listing(if count > capacity then BufferTooSmall else OK, count, rows);
    }

    method StoreGroupMessage(message: Message) returns (status: Status, messageId: nat)
      modifies this`messages, this`nextMessageId
      ensures var out := Storage.StoreGroupMessage(old(State()), message);
        State() == out.store && status == out.status && messageId == out.id
    {
      messageId := 0;
      if message.conversationId == 0 || message.sender == 0 || message.contentType == 0
         || !StringIsValid(message.content, MAX_MESSAGE_TEXT_LEN, false) {
        return InvalidArgument, 0;
      }
      var i := FindConversationById(message.conversationId);
      if i == |conversations| || !conversations[i].isGroup {
        return NotFound, 0;
      }
      var member := HasMember(message.conversationId, message.sender);
      if !member {
        return NotFound, 0;
      }
      if |messages| >= MAX_MESSAGES {
        return BufferTooSmall, 0;
      }
      var stored := message.(id := nextMessageId, receiver := 0);
      nextMessageId := nextMessageId + 1;
      if stored.storeTimeMs == 0 {
        stored := stored.(storeTimeMs := stored.sendTimeMs);
      }
      messages := messages + [stored];
      return OK, stored.id;
    }

    method StoreFileTransfer(message: Message, fileName: string, fileSize: nat, crc32: bv32)
      returns (status: Status, messageId: nat, deliveryId: nat, fileId: nat)
      modifies this
      ensures var out := Storage.StoreFileTransfer(old(State()), message, fileName, fileSize, crc32);
        && State() == out.store && status == out.status
        && messageId == out.id && deliveryId == out.deliveryId && fileId == out.fileId
    {
      hide Storage.StorePrivateMessage;
      messageId, deliveryId, fileId := 0, 0, 0;
      if fileSize == 0 || fileSize > MAX_FILE_SIZE || !StringIsValid(fileName, MAX_FILE_NAME_LEN, false) {
        return InvalidArgument, 0, 0, 0;
      }
      if |files| >= MAX_FILES {
        return BufferTooSmall, 0, 0, 0;
      }
      status, messageId, deliveryId := StorePrivateMessage(message.(contentType := CONTENT_FILE));
      if status != OK {
        FailedIds(old(State()), message.(contentType := CONTENT_FILE));
        return;
      }
      fileId := nextFileId;
      nextFileId := nextFileId + 1;
      files := files + [FileRecord(fileId, messageId, message.sender, message.receiver, fileName, fileSize, crc32,
          false)];
    }

    lemma FailedIds(st: Store, m: Message)
      ensures Storage.StorePrivateMessage(st, m).fileId == 0
    {
    }

    method CompleteFileTransfer(fileId: nat) returns (status: Status)
      modifies this`files
      ensures var out := Storage.CompleteFileTransfer(old(State()), fileId);
        State() == out.store && status == out.status
    {
      if fileId == 0 {
        return InvalidArgument;
      }
      for i := 0 to |files|
        invariant files == old(files)
        invariant forall k :: 0 <= k < i ==> files[k].id != fileId
      {
        if files[i].id == fileId {
          assert i == FindFile(old(State()), fileId);
          files := files[i := files[i].(completed := true)];
          return OK;
        }
      }
      return NotFound;
    }

    /** Two passes over the table from its end: count up to the limit, then copy. */
    method ListHistory(a: nat, b: nat, before: nat, limit: nat, capacity: nat) returns (listing: Listing<Message>)
      ensures listing == Storage.ListHistory(State(), a, b, before, limit, capacity)
    {
      if a == 0 || b == 0 || a == b {
        return Listing(InvalidArgument, 0, []);
      }
      var c := FindPrivateConversation(a, b);
      if c == |conversations| || limit == 0 {
        return Listing(OK, 0, []);
      }
      var id := conversations[c].id;
      var count := CountHistory(id, before, limit);
      if count > capacity {
        return Listing(BufferTooSmall, count, []);
      }
      var rows := CopyHistory(id, before, count);
      return Listing(OK, count, rows);
    }

    method CountHistory(id: nat, before: nat, limit: nat) returns (count: nat)
      requires limit > 0
      ensures count == Min(limit, |History(messages, id, before)|)
    {
      ghost var all := History(messages, id, before);
      count := 0;
      var i := |messages|;
      assert messages[..i] == messages;
      while i > 0
        invariant 0 <= i <= |messages| && count < limit && count + |History(messages[..i], id, before)| == |all|
      {
        assert messages[..i][..i - 1] == messages[..i - 1];
        if messages[i - 1].conversationId == id && (before == 0 || messages[i - 1].id < before) {
          count := count + 1;
          if count == limit {
            return;
          }
        }
        i := i - 1;
      }
    }

    method CopyHistory(id: nat, before: nat, count: nat) returns (rows: seq<Message>)
      requires count <= |History(messages, id, before)|
      ensures rows == History(messages, id, before)[..count]
    {
      hide History;
      ghost var all := History(messages, id, before);
      rows := [];
      var i := |messages|;
      assert messages[..i] == messages;
      ghost var left := all;
      while i > 0 && |rows| < count
        invariant 0 <= i <= |messages| && |rows| <= count
        invariant left == History(messages[..i], id, before) && rows + left == all
      {
        HistorySplit(messages, i - 1, id, before);
        left := History(messages[..i - 1], id, before);
        if messages[i - 1].conversationId == id && (before == 0 || messages[i - 1].id < before) {
          rows := rows + [messages[i - 1]];
        }
        i := i - 1;
      }
      if i == 0 { NoHistory(id, before); }
    }

    lemma NoHistory(id: nat, before: nat)
      ensures History([], id, before) == []
    {
    }

    /** The i-th message comes right before those among the first i. */
    lemma HistorySplit(ms: seq<Message>, i: nat, id: nat, before: nat)
      requires i < |ms|
      ensures History(ms[..i + 1], id, before)
           == (if InHistory(ms[i], id, before) then [ms[i]] else []) + History(ms[..i], id, before)
    {
      assert ms[..i + 1][..i] == ms[..i];
    }

    method ListPendingDeliveries(receiver: nat, limit: nat, capacity: nat) returns (listing: Listing<DeliveryRow>)
      ensures listing == Storage.ListPendingDeliveries(State(), receiver, limit, capacity)
    {
      if receiver == 0 {
        return Listing(InvalidArgument, 0, []);
      }
      var enabled := IsEnabled(receiver);
      if !enabled {
        return Listing(NotFound, 0, []);
      }
      if limit == 0 {
        return Listing(OK, 0, []);
      }
      var count := CountPending(receiver, limit);
      if count > capacity {
        return Listing(BufferTooSmall, count, []);
      }
      var status, rows := CopyPending(receiver, count);
      return Listing(status, count, rows);
    }

    method CountPending(receiver: nat, limit: nat) returns (count: nat)
      requires limit > 0
      ensures count == Min(limit, |PendingFor(deliveries, receiver)|)
    {
      count := 0;
      var i := 0;
      while i < |deliveries|
        invariant 0 <= i <= |deliveries| && count < limit && count == |PendingFor(deliveries[..i], receiver)|
      {
        PendingSplit(deliveries, i, receiver);
        if deliveries[i].receiver == receiver && deliveries[i].state == PENDING {
          count := count + 1;
          if count == limit {
            return;
          }
        }
        i := i + 1;
      }
      assert deliveries[..|deliveries|] == deliveries;
    }

    method CopyPending(receiver: nat, count: nat) returns (status: Status, rows: seq<DeliveryRow>)
      requires count <= |PendingFor(deliveries, receiver)|
      ensures rows == DeliveryRows(State(), PendingFor(deliveries, receiver)[..count])
      ensures status == if |rows| < count then InternalError else OK
    {
      hide PendingFor, DeliveryRows;
      ghost var chosen := PendingFor(deliveries, receiver)[..count];
      ghost var st, goal := State(), DeliveryRows(State(), chosen);
      rows := [];
      var i := 0;
      assert chosen[0..] == chosen && [] + goal == goal;
      assert |PendingFor(deliveries[..0], receiver)| == 0 by { NothingPending(receiver); assert deliveries[..0] == []; }
      while i < |deliveries| && |rows| < count
        invariant 0 <= i <= |deliveries| && |rows| <= count && |PendingFor(deliveries[..i], receiver)| == |rows|
        invariant rows + DeliveryRows(st, chosen[|rows|..]) == goal
      {
        PendingSplit(deliveries, i, receiver);
        if deliveries[i].receiver != receiver || deliveries[i].state != PENDING {
          i := i + 1;
          continue;
        }
        assert PendingFor(deliveries[..i + 1], receiver)[|rows|] == chosen[|rows|];
        RowStep(st, chosen, |rows|);
        var m := FindMessageById(deliveries[i].messageId);
        if m == |messages| {
          assert rows + [] == rows;
          return InternalError, rows;
        }
        ghost var row := DeliveryRow(deliveries[i].id, messages[m], deliveries[i].state);
        assert rows + ([row] + DeliveryRows(st, chosen[|rows| + 1..]))
            == rows + [row] + DeliveryRows(st, chosen[|rows| + 1..]);
        rows := rows + [DeliveryRow(deliveries[i].id, messages[m], deliveries[i].state)];
        i := i + 1;
      }
      assert deliveries[..|deliveries|] == deliveries;
      assert |rows| == count && chosen[count..] == [];
      assert |DeliveryRows(st, [])| == 0;
      assert rows + [] == rows;
      return OK, rows;
    }

    lemma NothingPending(receiver: nat)
      ensures PendingFor([], receiver) == []
    {
    }

    lemma RowStep(st: Store, chosen: seq<Delivery>, k: nat)
      requires k < |chosen|
      ensures var m := FindMessage(st, chosen[k].messageId);
        DeliveryRows(st, chosen[k..]) ==
          if m == |st.messages| then []
          else [DeliveryRow(chosen[k].id, st.messages[m], chosen[k].state)] + DeliveryRows(st, chosen[k + 1..])
    {
      assert chosen[k..][1..] == chosen[k + 1..];
    }

    /** The i-th delivery comes next after those pending among the first i. */
    lemma {:induction false} PendingSplit(ds: seq<Delivery>, i: nat, receiver: nat)
      requires i < |ds|
      ensures var p, all := PendingFor(ds[..i], receiver), PendingFor(ds, receiver);
        && PendingFor(ds[..i + 1], receiver) == p + (if IsPendingFor(ds[i], receiver) then [ds[i]] else [])
        && PendingFor(ds[..i + 1], receiver) <= all
      decreases |ds| - i
    {
      assert ds[..i + 1][..i] == ds[..i];
      if i + 1 < |ds| {
        PendingSplit(ds, i + 1, receiver);
      } else {
        assert ds[..i + 1] == ds;
      }
    }

    method MarkDeliveryState(deliveryId: nat, state: nat, timeMs: nat) returns (status: Status)
      modifies this`deliveries
      ensures var out := Storage.MarkDeliveryState(old(State()), deliveryId, state, timeMs);
        State() == out.store && status == out.status
    {
      if deliveryId == 0 || !(state == PENDING || state == DELIVERED || state == ACKED) {
        return InvalidArgument;
      }
      var i := FindDeliveryById(deliveryId);
      if i == |deliveries| {
        return NotFound;
      }
      if !TransitionIsValid(deliveries[i].state, state) {
        return InvalidState;
      }
      if deliveries[i].state == state {
        return OK;
      }
      var d := deliveries[i].(state := state);
      if state == DELIVERED {
        d := d.(deliveredTimeMs := timeMs);
      }
      if state == ACKED {
        if d.deliveredTimeMs == 0 {
          d := d.(deliveredTimeMs := timeMs);
        }
        d := d.(ackedTimeMs := timeMs);
      }
      deliveries := deliveries[i := d];
      return OK;
    }
  }
}
