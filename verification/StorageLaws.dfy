/** What every run of storage operations keeps, and what the listings mean. */
module StorageLaws {
  import opened Wire
  import opened Storage

  datatype Op =
    | OpCreateAccount(username: string, nickname: Option<string>, hash: string, salt: string)
    | OpUpdateLastLogin(userId: nat, timeMs: nat)
    | OpStorePrivate(message: Message)
    | OpCreateGroup(name: string, creator: nat, ids: seq<nat>)
    | OpStoreGroup(message: Message)
    | OpStoreFile(message: Message, fileName: string, fileSize: nat, crc32: bv32)
    | OpCompleteFile(fileId: nat)
    | OpMarkDelivery(deliveryId: nat, state: nat, timeMs: nat)

  function Apply(st: Store, op: Op): Out
  {
    match op
    case OpCreateAccount(u, n, h, s) => CreateAccount(st, u, n, h, s)
    case OpUpdateLastLogin(u, t) => UpdateLastLogin(st, u, t)
    case OpStorePrivate(m) => StorePrivateMessage(st, m)
    case OpCreateGroup(n, c, ids) => CreateGroup(st, n, c, ids)
    case OpStoreGroup(m) => StoreGroupMessage(st, m)
    case OpStoreFile(m, n, size, crc) => StoreFileTransfer(st, m, n, size, crc)
    case OpCompleteFile(f) => CompleteFileTransfer(st, f)
    case OpMarkDelivery(d, s, t) => MarkDeliveryState(st, d, s, t)
  }

  function Run(st: Store, ops: seq<Op>): Store
    decreases |ops|
  {
    if ops == [] then st else Run(Apply(st, ops[0]).store, ops[1..])
  }

  // ----- all or nothing -----

  /** A failing operation changes no table and no counter, and hands out no id. */
  lemma AllOrNothing(st: Store, op: Op)
    ensures Apply(st, op).status != OK ==> Apply(st, op) == Fail(st, Apply(st, op).status)
  {
  }

  // ----- the table invariant -----

  /** Ids are the row numbers, counted from one, so they are unique, increasing and never reused. */
  ghost predicate AccountsOk(accounts: seq<Account>, next: nat)
  {
    && next == |accounts| + 1 <= MAX_ACCOUNTS + 1
    && (forall i :: 0 <= i < |accounts| ==> accounts[i].userId == i + 1 && accounts[i].enabled)
    && (forall i, j :: 0 <= i < j < |accounts| ==> accounts[i].username != accounts[j].username)
  }

  predicate IsAccount(accounts: seq<Account>, userId: nat)
  {
    1 <= userId <= |accounts|
  }

  predicate SamePair(c: Conversation, d: Conversation)
  {
    c.userA == d.userA && c.userB == d.userB
  }

  /** A private conversation belongs to a pair of accounts, lower id first, and no pair has two. */
  ghost predicate ConversationsOk(conversations: seq<Conversation>, next: nat, users: nat)
  {
    && next == |conversations| + 1 <= MAX_CONVERSATIONS + 1
    && (forall i :: 0 <= i < |conversations| ==> ConversationOk(conversations[i], i + 1, users))
    && (forall i, j :: 0 <= i < j < |conversations| && !conversations[i].isGroup ==>
        !SamePair(conversations[i], conversations[j]))
  }

  predicate ConversationOk(c: Conversation, id: nat, users: nat)
  {
    c.id == id && if c.isGroup then c.userA == c.userB == 0 else 1 <= c.userA < c.userB <= users
  }

  ghost predicate Distinct(ids: seq<nat>)
  {
    forall i, j :: 0 <= i < j < |ids| ==> ids[i] != ids[j]
  }

  ghost predicate GroupOk(ids: seq<nat>, users: nat)
  {
    2 <= |ids| <= MAX_GROUP_MEMBERS && Distinct(ids) && forall k :: 0 <= k < |ids| ==> 1 <= ids[k] <= users
  }

  ghost predicate MembersNumbered(members: seq<Member>, conversations: nat)
  {
    forall i :: 0 <= i < |members| ==> 1 <= members[i].conversationId <= conversations
  }

  /** Every group has between 2 and 16 members, all of them accounts, none of them twice. */
  ghost predicate MembersOk(members: seq<Member>, conversations: seq<Conversation>, users: nat)
  {
    && |members| <= MAX_MEMBERS
    && MembersNumbered(members, |conversations|)
    && (forall i :: 0 <= i < |conversations| && conversations[i].isGroup ==> GroupOk(MembersOf(members, i + 1), users))
  }

  predicate MessageOk(m: Message, id: nat, conversations: seq<Conversation>)
  {
    && m.id == id
    && 1 <= m.conversationId <= |conversations|
    && var c := conversations[m.conversationId - 1];
       if c.isGroup then m.receiver == 0 else HasPair(c, m.sender, m.receiver) && m.sender != m.receiver
  }

  ghost predicate MessagesOk(messages: seq<Message>, next: nat, conversations: seq<Conversation>)
  {
    && next == |messages| + 1 <= MAX_MESSAGES + 1
    && forall i :: 0 <= i < |messages| ==> MessageOk(messages[i], i + 1, conversations)
  }

  /** A delivery row names a stored message with the same receiver. */
  predicate DeliveryOk(d: Delivery, id: nat, messages: seq<Message>)
  {
    && d.id == id
    && 1 <= d.messageId <= |messages|
    && d.receiver == messages[d.messageId - 1].receiver && d.receiver != 0
    && PENDING <= d.state <= ACKED
  }

  ghost predicate DeliveriesOk(deliveries: seq<Delivery>, next: nat, messages: seq<Message>)
  {
    && next == |deliveries| + 1 <= MAX_DELIVERIES + 1
    && forall i :: 0 <= i < |deliveries| ==> DeliveryOk(deliveries[i], i + 1, messages)
  }

  predicate FileOk(f: FileRecord, id: nat, messages: seq<Message>)
  {
    && f.id == id
    && 1 <= f.messageId <= |messages|
    && f.sender == messages[f.messageId - 1].sender && f.receiver == messages[f.messageId - 1].receiver
    && 1 <= f.fileSize <= MAX_FILE_SIZE
  }

  /** File records name their messages, and no message has two. */
  ghost predicate FilesOk(files: seq<FileRecord>, next: nat, messages: seq<Message>)
  {
    && next == |files| + 1 <= MAX_FILES + 1
    && (forall i :: 0 <= i < |files| ==> FileOk(files[i], i + 1, messages))
    && (forall i, j :: 0 <= i < j < |files| ==> files[i].messageId < files[j].messageId)
  }

  ghost predicate StoreOk(st: Store)
  {
    && AccountsOk(st.accounts, st.nextUserId)
    && ConversationsOk(st.conversations, st.nextConversationId, |st.accounts|)
    && MembersOk(st.members, st.conversations, |st.accounts|)
    && MessagesOk(st.messages, st.nextMessageId, st.conversations)
    && DeliveriesOk(st.deliveries, st.nextDeliveryId, st.messages)
    && FilesOk(st.files, st.nextFileId, st.messages)
  }

  // ----- how tables may change -----

  ghost predicate AccountsEvolve(s: seq<Account>, t: seq<Account>)
  {
    |s| <= |t| && forall i :: 0 <= i < |s| ==> t[i] == s[i].(lastLoginMs := t[i].lastLoginMs)
  }

  predicate SameDelivery(d: Delivery, e: Delivery)
  {
    e.id == d.id && e.messageId == d.messageId && e.receiver == d.receiver && d.state <= e.state
  }

  ghost predicate DeliveriesEvolve(s: seq<Delivery>, t: seq<Delivery>)
  {
    |s| <= |t| && forall i :: 0 <= i < |s| ==> SameDelivery(s[i], t[i])
  }

  predicate SameFile(f: FileRecord, g: FileRecord)
  {
    g == f.(completed := g.completed) && (f.completed ==> g.completed)
  }

  ghost predicate FilesEvolve(s: seq<FileRecord>, t: seq<FileRecord>)
  {
    |s| <= |t| && forall i :: 0 <= i < |s| ==> SameFile(s[i], t[i])
  }

  /** Rows are only ever added; conversations, members and messages never change, a delivery's state
      never moves backwards, and a completed file stays completed. */
  ghost predicate Evolves(s: Store, t: Store)
  {
    && s.conversations <= t.conversations && s.members <= t.members && s.messages <= t.messages
    && AccountsEvolve(s.accounts, t.accounts)
    && DeliveriesEvolve(s.deliveries, t.deliveries)
    && FilesEvolve(s.files, t.files)
  }

  lemma EvolvesTransitive(s: Store, t: Store, u: Store)
    requires Evolves(s, t) && Evolves(t, u)
    ensures Evolves(s, u)
  {
  }

  // ----- each table keeps its invariant when it, or one it refers to, grows -----

  lemma MoreAccounts(conversations: seq<Conversation>, next: nat, members: seq<Member>, users: nat, more: nat)
    requires ConversationsOk(conversations, next, users) && MembersOk(members, conversations, users) && users <= more
    ensures ConversationsOk(conversations, next, more) && MembersOk(members, conversations, more)
  {
  }

  lemma MoreConversations(messages: seq<Message>, next: nat, s: seq<Conversation>, t: seq<Conversation>)
    requires MessagesOk(messages, next, s) && s <= t
    ensures MessagesOk(messages, next, t)
  {
  }

  lemma MoreMessages(st: Store, t: seq<Message>)
    requires DeliveriesOk(st.deliveries, st.nextDeliveryId, st.messages)
        && FilesOk(st.files, st.nextFileId, st.messages)
    requires st.messages <= t
    ensures DeliveriesOk(st.deliveries, st.nextDeliveryId, t) && FilesOk(st.files, st.nextFileId, t)
  {
  }

  lemma AppendMessage(messages: seq<Message>, next: nat, conversations: seq<Conversation>, m: Message)
    requires MessagesOk(messages, next, conversations) && MessageOk(m, next, conversations) && |messages| < MAX_MESSAGES
    ensures MessagesOk(messages + [m], next + 1, conversations)
  {
  }

  lemma AppendConversation(conversations: seq<Conversation>, next: nat, users: nat, c: Conversation)
    requires ConversationsOk(conversations, next, users) && ConversationOk(c, next, users)
    requires |conversations| < MAX_CONVERSATIONS
    requires forall i :: 0 <= i < |conversations| && !conversations[i].isGroup ==> !SamePair(conversations[i], c)
    ensures ConversationsOk(conversations + [c], next + 1, users)
  {
  }

  lemma AppendDelivery(deliveries: seq<Delivery>, next: nat, messages: seq<Message>, d: Delivery)
    requires DeliveriesOk(deliveries, next, messages) && DeliveryOk(d, next, messages) && |deliveries| < MAX_DELIVERIES
    ensures DeliveriesOk(deliveries + [d], next + 1, messages) && DeliveriesEvolve(deliveries, deliveries + [d])
  {
  }

  lemma AppendFile(files: seq<FileRecord>, next: nat, messages: seq<Message>, f: FileRecord)
    requires FilesOk(files, next, messages) && FileOk(f, next, messages) && |files| < MAX_FILES
    requires forall i :: 0 <= i < |files| ==> files[i].messageId < f.messageId
    ensures FilesOk(files + [f], next + 1, messages) && FilesEvolve(files, files + [f])
  {
  }

  lemma Unchanged(st: Store)
    ensures AccountsEvolve(st.accounts, st.accounts) && DeliveriesEvolve(st.deliveries, st.deliveries)
    ensures FilesEvolve(st.files, st.files) && Evolves(st, st)
  {
  }

  // ----- each operation keeps the invariant -----

  lemma CreateAccountKeeps(st: Store, username: string, nickname: Option<string>, hash: string, salt: string)
    requires StoreOk(st)
    ensures var t := CreateAccount(st, username, nickname, hash, salt).store; StoreOk(t) && Evolves(st, t)
  {
    hide ConversationsOk, MembersOk, MessagesOk, DeliveriesOk, FilesOk, DeliveriesEvolve, FilesEvolve;
    Unchanged(st);
    MoreAccounts(st.conversations, st.nextConversationId, st.members, |st.accounts|, |st.accounts| + 1);
  }

  lemma UpdateLastLoginKeeps(st: Store, userId: nat, timeMs: nat)
    requires StoreOk(st)
    ensures var t := UpdateLastLogin(st, userId, timeMs).store; StoreOk(t) && Evolves(st, t)
  {
    hide ConversationsOk, MembersOk, MessagesOk, DeliveriesOk, FilesOk, DeliveriesEvolve, FilesEvolve;
    Unchanged(st);
  }

  lemma EnabledIsAccount(st: Store, userId: nat)
    requires AccountsOk(st.accounts, st.nextUserId)
    ensures AccountIsEnabled(st, userId) <==> IsAccount(st.accounts, userId)
  {
    if IsAccount(st.accounts, userId) {
      assert st.accounts[userId - 1].userId == userId;
    }
  }

  lemma {:induction false} MembersOfAppend(members: seq<Member>, rows: seq<Member>, id: nat)
    requires forall i :: 0 <= i < |rows| ==> rows[i].conversationId != id
    ensures MembersOf(members + rows, id) == MembersOf(members, id)
    decreases |rows|
  {
    if rows == [] {
      assert members + rows == members;
    } else {
      var all := members + rows;
      assert all[|all| - 1] == rows[|rows| - 1] && all[..|all| - 1] == members + rows[..|rows| - 1];
      MembersOfAppend(members, rows[..|rows| - 1], id);
    }
  }

  lemma {:induction false} MembersOfNew(members: seq<Member>, id: nat, users: seq<nat>)
    requires forall i :: 0 <= i < |members| ==> members[i].conversationId != id
    ensures MembersOf(members + MemberRows(id, users), id) == users
    decreases |users|
  {
    var rows := MemberRows(id, users);
    if users == [] {
      assert [] + members == members;
      MembersOfAppend([], members, id);
      assert members + rows == members;
    } else {
      var all := members + rows;
      assert all[..|all| - 1] == members + MemberRows(id, users[..|users| - 1]);
      MembersOfNew(members, id, users[..|users| - 1]);
    }
  }

  lemma {:induction false} CollectedOk(st: Store, ids: seq<nat>, seen: seq<nat>)
    requires AccountsOk(st.accounts, st.nextUserId) && 1 <= |seen| <= MAX_GROUP_MEMBERS && Distinct(seen)
    requires forall k :: 0 <= k < |seen| ==> IsAccount(st.accounts, seen[k])
    ensures var c := CollectMembers(st, ids, seen);
      c.status == OK ==>
        && seen <= c.members && |c.members| <= MAX_GROUP_MEMBERS && Distinct(c.members)
        && (forall k :: 0 <= k < |c.members| ==> IsAccount(st.accounts, c.members[k]))
        && (forall u :: u in c.members <==> u in seen || u in ids)
    decreases |ids|
  {
    hide AccountsOk, AccountIsEnabled;
    if ids != [] && AccountIsEnabled(st, ids[0]) {
      EnabledIsAccount(st, ids[0]);
      var u, rest := ids[0], ids[1..];
      assert ids == [u] + rest;
      if u in seen {
        CollectedOk(st, rest, seen);
      } else if |seen| < MAX_GROUP_MEMBERS {
        CollectedOk(st, rest, seen + [u]);
      }
    }
  }

  /** A new group's members are exactly its creator and the listed users, each once, creator first. */
  lemma CreateGroupMeans(st: Store, name: string, creator: nat, ids: seq<nat>)
    requires StoreOk(st)
    ensures var out := CreateGroup(st, name, creator, ids);
      out.status == OK ==>
        var members := MembersOf(out.store.members, out.id);
        && out.id == |st.conversations| + 1
        && GroupOk(members, |st.accounts|) && members[0] == creator
        && (forall u :: u in members <==> u == creator || u in ids)
  {
    hide MessagesOk, DeliveriesOk, FilesOk, AccountsOk, AccountIsEnabled, CollectMembers, MembersOf, MemberRows,
      StringIsValid;
    var out := CreateGroup(st, name, creator, ids);
    if out.status == OK {
      var users := CollectMembers(st, ids, [creator]).members;
      EnabledIsAccount(st, creator);
      CollectedOk(st, ids, [creator]);
      assert users[0] == creator;
      MembersOfNew(st.members, out.id, users);
    }
  }

  lemma CreateGroupKeeps(st: Store, name: string, creator: nat, ids: seq<nat>)
    requires StoreOk(st)
    ensures var t := CreateGroup(st, name, creator, ids).store; StoreOk(t) && Evolves(st, t)
  {
    hide MessagesOk, DeliveriesOk, FilesOk, AccountsOk, AccountsEvolve, DeliveriesEvolve, FilesEvolve,
      ConversationsOk, MembersOk;
    Unchanged(st);
    var out := CreateGroup(st, name, creator, ids);
    if out.status == OK {
      var t := out.store;
      var g := t.conversations[|st.conversations|];
      GroupAppended(st, g);
      MoreConversations(st.messages, st.nextMessageId, st.conversations, t.conversations);
      CreateGroupMeans(st, name, creator, ids);
      MembersAppended(st.members, MemberRows(g.id, CollectMembers(st, ids, [creator]).members), st.conversations, g,
          |st.accounts|);
    }
  }

  lemma GroupAppended(st: Store, g: Conversation)
    requires ConversationsOk(st.conversations, st.nextConversationId, |st.accounts|)
    requires |st.conversations| < MAX_CONVERSATIONS
    requires g.id == st.nextConversationId && g.isGroup && g.userA == g.userB == 0
    ensures ConversationsOk(st.conversations + [g], st.nextConversationId + 1, |st.accounts|)
  {
    AppendConversation(st.conversations, st.nextConversationId, |st.accounts|, g);
  }

  lemma MoreNumbered(members: seq<Member>, rows: seq<Member>, n: nat)
    requires MembersNumbered(members, n) && forall i :: 0 <= i < |rows| ==> rows[i].conversationId == n + 1
    ensures MembersNumbered(members + rows, n + 1)
  {
  }

  lemma MembersAppended(members: seq<Member>, rows: seq<Member>, conversations: seq<Conversation>, g: Conversation,
        users: nat)
    requires MembersOk(members, conversations, users) && |members + rows| <= MAX_MEMBERS
    requires forall k :: 0 <= k < |rows| ==> rows[k].conversationId == |conversations| + 1
    requires g.isGroup && GroupOk(MembersOf(members + rows, |conversations| + 1), users)
    ensures MembersOk(members + rows, conversations + [g], users)
  {
    hide GroupOk, MembersOf, MembersNumbered;
    MoreNumbered(members, rows, |conversations|);
    forall i | 0 <= i < |conversations| && conversations[i].isGroup
      ensures GroupOk(MembersOf(members + rows, i + 1), users)
    {
      MembersOfAppend(members, rows, i + 1);
    }
  }

  lemma PrivateConversationOk(st: Store, m: Message)
    requires StoreOk(st) && IsAccount(st.accounts, m.sender) && IsAccount(st.accounts, m.receiver)
        && m.sender != m.receiver
    ensures var out := PrivateConversationFor(st, m);
      && StoreOk(out.store) && Evolves(st, out.store)
      && out.store == st.(conversations := out.store.conversations, nextConversationId := out.store.nextConversationId)
      && (out.status == OK ==>
            && 1 <= out.id <= |out.store.conversations|
            && !out.store.conversations[out.id - 1].isGroup
            && HasPair(out.store.conversations[out.id - 1], m.sender, m.receiver))
  {
    hide MessagesOk, DeliveriesOk, FilesOk, AccountsOk, AccountsEvolve, DeliveriesEvolve, FilesEvolve, MembersOk;
    Unchanged(st);
    var out := PrivateConversationFor(st, m);
    if out.store != st {
      var c := Conversation(st.nextConversationId, false, "", Low(m.sender, m.receiver), High(m.sender, m.receiver));
      AppendConversation(st.conversations, st.nextConversationId, |st.accounts|, c);
      MoreConversations(st.messages, st.nextMessageId, st.conversations, out.store.conversations);
      PrivateAddsNoMember(st, c);
    }
  }

  lemma PrivateAddsNoMember(st: Store, c: Conversation)
    requires MembersOk(st.members, st.conversations, |st.accounts|) && !c.isGroup
    ensures MembersOk(st.members, st.conversations + [c], |st.accounts|)
  {
  }

  lemma StorePrivateKeeps(st: Store, m: Message)
    requires StoreOk(st)
    ensures var out := StorePrivateMessage(st, m);
      && StoreOk(out.store) && Evolves(st, out.store)
      && (out.status == OK ==>
            && out.id == |st.messages| + 1 == |out.store.messages|
            && out.store.messages[out.id - 1].sender == m.sender
            && out.store.messages[out.id - 1].receiver == m.receiver
            && out.store.files == st.files && out.store.nextFileId == st.nextFileId)
  {
    hide MessagesOk, DeliveriesOk, FilesOk, AccountsOk, AccountsEvolve, DeliveriesEvolve, FilesEvolve,
      ConversationsOk, MembersOk, AccountIsEnabled, PrivateConversationFor;
    Unchanged(st);
    var out := StorePrivateMessage(st, m);
    if out.status == OK {
      EnabledIsAccount(st, m.sender);
      EnabledIsAccount(st, m.receiver);
      PrivateConversationOk(st, m);
      var found := PrivateConversationFor(st, m);
      var s1 := found.store;
      var stored := out.store.messages[|st.messages|];
      NextIds(s1);
      AppendMessage(s1.messages, s1.nextMessageId, s1.conversations, stored);
      MoreMessages(s1, out.store.messages);
      AppendDelivery(s1.deliveries, s1.nextDeliveryId, out.store.messages, out.store.deliveries[|st.deliveries|]);
    }
  }

  lemma NextIds(st: Store)
    requires StoreOk(st)
    ensures st.nextMessageId == |st.messages| + 1 && st.nextConversationId == |st.conversations| + 1
    ensures st.nextDeliveryId == |st.deliveries| + 1 && st.nextFileId == |st.files| + 1
        && st.nextUserId == |st.accounts| + 1
  {
  }

  lemma FindConversationById(st: Store, id: nat)
    requires ConversationsOk(st.conversations, st.nextConversationId, |st.accounts|)
    ensures FindConversation(st, id) == if 1 <= id <= |st.conversations| then id - 1 else |st.conversations|
  {
    if 1 <= id <= |st.conversations| {
      assert st.conversations[id - 1].id == id;
    }
  }

  lemma StoreGroupKeeps(st: Store, m: Message)
    requires StoreOk(st)
    ensures var t := StoreGroupMessage(st, m).store; StoreOk(t) && Evolves(st, t)
  {
    hide GroupHasMember, FindConversation, MessagesOk, DeliveriesOk, FilesOk, AccountsOk, AccountsEvolve,
      DeliveriesEvolve, FilesEvolve, ConversationsOk, MembersOk;
    FindConversationById(st, m.conversationId);
    Unchanged(st);
    var out := StoreGroupMessage(st, m);
    if out.status == OK {
      NextIds(st);
      AppendMessage(st.messages, st.nextMessageId, st.conversations, out.store.messages[|st.messages|]);
      MoreMessages(st, out.store.messages);
    }
  }

  lemma StoreFileKeeps(st: Store, m: Message, fileName: string, fileSize: nat, crc32: bv32)
    requires StoreOk(st)
    ensures var t := StoreFileTransfer(st, m, fileName, fileSize, crc32).store; StoreOk(t) && Evolves(st, t)
  {
    hide MessagesOk, DeliveriesOk, AccountsOk, AccountsEvolve, DeliveriesEvolve, ConversationsOk, MembersOk,
      StorePrivateMessage;
    var n := m.(contentType := CONTENT_FILE);
    StorePrivateKeeps(st, n);
    Unchanged(st);
    var out := StoreFileTransfer(st, m, fileName, fileSize, crc32);
    var s1 := StorePrivateMessage(st, n).store;
    if out.status == OK {
      AppendFile(s1.files, s1.nextFileId, s1.messages, out.store.files[|st.files|]);
      Unchanged(s1);
      EvolvesTransitive(st, s1, out.store);
    }
  }

  lemma CompleteFileKeeps(st: Store, fileId: nat)
    requires StoreOk(st)
    ensures var t := CompleteFileTransfer(st, fileId).store; StoreOk(t) && Evolves(st, t)
  {
    hide MessagesOk, DeliveriesOk, AccountsOk, AccountsEvolve, DeliveriesEvolve, ConversationsOk, MembersOk;
    Unchanged(st);
  }

  lemma MarkDeliveryKeeps(st: Store, deliveryId: nat, state: nat, timeMs: nat)
    requires StoreOk(st)
    ensures var t := MarkDeliveryState(st, deliveryId, state, timeMs).store; StoreOk(t) && Evolves(st, t)
  {
    hide MessagesOk, FilesOk, AccountsOk, AccountsEvolve, FilesEvolve, ConversationsOk, MembersOk;
    Unchanged(st);
  }

  lemma ApplyKeeps(st: Store, op: Op)
    requires StoreOk(st)
    ensures StoreOk(Apply(st, op).store) && Evolves(st, Apply(st, op).store)
  {
    hide StoreOk, Evolves;
    match op
    case OpCreateAccount(u, n, h, s) => CreateAccountKeeps(st, u, n, h, s);
    case OpUpdateLastLogin(u, t) => UpdateLastLoginKeeps(st, u, t);
    case OpStorePrivate(m) => StorePrivateKeeps(st, m);
    case OpCreateGroup(n, c, ids) => CreateGroupKeeps(st, n, c, ids);
    case OpStoreGroup(m) => StoreGroupKeeps(st, m);
    case OpStoreFile(m, n, size, crc) => StoreFileKeeps(st, m, n, size, crc);
    case OpCompleteFile(f) => CompleteFileKeeps(st, f);
    case OpMarkDelivery(d, s, t) => MarkDeliveryKeeps(st, d, s, t);
  }

  /** Over every run: the tables stay consistent, rows are never lost or rewritten, and states only advance. */
  lemma {:induction false} RunKeeps(st: Store, ops: seq<Op>)
    requires StoreOk(st)
    ensures StoreOk(Run(st, ops)) && Evolves(st, Run(st, ops))
    decreases |ops|
  {
    if ops == [] {
    } else {
      ApplyKeeps(st, ops[0]);
      RunKeeps(Apply(st, ops[0]).store, ops[1..]);
      EvolvesTransitive(st, Apply(st, ops[0]).store, Run(st, ops));
    }
  }

  lemma EmptyStoreOk()
    ensures StoreOk(EMPTY)
  {
  }

  /** Whatever operations have run, the tables are consistent. */
  lemma ReachableStoreOk(ops: seq<Op>)
    ensures StoreOk(Run(EMPTY, ops))
  {
    EmptyStoreOk();
    RunKeeps(EMPTY, ops);
  }

  /** The fan-out listing with its 16 places always succeeds on a group. */
  lemma GroupFanOutFits(st: Store, id: nat)
    requires StoreOk(st) && 1 <= id <= |st.conversations| && st.conversations[id - 1].isGroup
    ensures ListGroupMembers(st, id, MAX_GROUP_MEMBERS)
        == Listing(OK, |MembersOf(st.members, id)|, MembersOf(st.members, id))
  {
    FindConversationById(st, id);
  }

  // ----- private conversations -----

  /** Lookup does not depend on the order of the pair. */
  lemma FindPrivateSymmetric(st: Store, a: nat, b: nat)
    ensures FindPrivate(st, a, b) == FindPrivate(st, b, a)
  {
    assert forall k :: 0 <= k < |st.conversations| ==>
        (HasPair(st.conversations[k], a, b) <==> HasPair(st.conversations[k], b, a));
  }

  /** It finds the one private conversation of the pair, if there is one, and never a group. */
  lemma FindPrivateUnique(st: Store, a: nat, b: nat, i: nat)
    requires StoreOk(st) && 1 <= a && 1 <= b && i < |st.conversations|
    ensures HasPair(st.conversations[i], a, b) <==> i == FindPrivate(st, a, b)
    ensures i == FindPrivate(st, a, b) ==> !st.conversations[i].isGroup
  {
    hide MembersOk, MessagesOk, DeliveriesOk, FilesOk, AccountsOk;
    var j := FindPrivate(st, a, b);
    assert ConversationOk(st.conversations[i], i + 1, |st.accounts|);
    if j < i {
      assert ConversationOk(st.conversations[j], j + 1, |st.accounts|);
      assert !SamePair(st.conversations[j], st.conversations[i]);
    }
  }

  lemma {:induction false} HistoryMembers(messages: seq<Message>, id: nat, before: nat, m: Message)
    ensures m in History(messages, id, before) <==> m in messages && InHistory(m, id, before)
  {
    if messages == [] {
    } else {
      var init, last := messages[..|messages| - 1], messages[|messages| - 1];
      assert messages == init + [last];
      HistoryMembers(init, id, before, m);
    }
  }

  /** A pair's history holds messages between the two of them only, never a group's. */
  lemma HistoryIsolated(st: Store, a: nat, b: nat, before: nat, limit: nat, capacity: nat, m: Message)
    requires StoreOk(st) && m in ListHistory(st, a, b, before, limit, capacity).rows
    ensures (m.sender == a && m.receiver == b) || (m.sender == b && m.receiver == a)
  {
    hide MembersOk, DeliveriesOk, FilesOk, AccountsOk;
    var i := FindPrivate(st, a, b);
    FindPrivateUnique(st, a, b, i);
    var id := st.conversations[i].id;
    HistoryMembers(st.messages, id, before, m);
    var k :| 0 <= k < |st.messages| && st.messages[k] == m;
    assert MessageOk(st.messages[k], k + 1, st.conversations);
    assert ConversationOk(st.conversations[i], i + 1, |st.accounts|);
  }

  // ----- pagination -----

  ghost predicate Numbered(messages: seq<Message>)
  {
    forall i :: 0 <= i < |messages| ==> messages[i].id == i + 1
  }

  /** An id bound cuts the table off at that row. */
  lemma {:induction false} HistoryBelow(messages: seq<Message>, id: nat, before: nat)
    requires Numbered(messages) && 1 <= before <= |messages| + 1
    ensures History(messages, id, before) == History(messages[..before - 1], id, 0)
    decreases |messages|
  {
    if before == |messages| + 1 {
      assert messages[..before - 1] == messages;
      HistoryUnbounded(messages, id, before);
    } else {
      var init := messages[..|messages| - 1];
      HistoryBelow(init, id, before);
      assert init[..before - 1] == messages[..before - 1];
    }
  }

  lemma {:induction false} HistoryUnbounded(messages: seq<Message>, id: nat, before: nat)
    requires Numbered(messages) && |messages| < before
    ensures History(messages, id, before) == History(messages, id, 0)
    decreases |messages|
  {
    if messages == [] {
    } else {
      HistoryUnbounded(messages[..|messages| - 1], id, before);
    }
  }

  ghost predicate Descends(h: seq<Message>)
  {
    forall i, j :: 0 <= i < j < |h| ==> h[i].id > h[j].id
  }

  ghost predicate IdsWithin(h: seq<Message>, max: nat)
  {
    forall i :: 0 <= i < |h| ==> 1 <= h[i].id <= max
  }

  /** A history is in strictly descending id order, so no message occurs twice. */
  lemma {:induction false} HistoryDescends(messages: seq<Message>, id: nat)
    requires Numbered(messages)
    ensures Descends(History(messages, id, 0)) && IdsWithin(History(messages, id, 0), |messages|)
    decreases |messages|
  {
    if messages == [] {
    } else {
      var n := |messages| - 1;
      HistoryDescends(messages[..n], id);
      var t := History(messages[..n], id, 0);
      if InHistory(messages[n], id, 0) {
        DescendsCons(messages[n], t);
      } else {
        assert History(messages, id, 0) == t;
      }
    }
  }

  lemma DescendsCons(m: Message, t: seq<Message>)
    requires m.id >= 1 && Descends(t) && IdsWithin(t, m.id - 1)
    ensures Descends([m] + t) && IdsWithin([m] + t, m.id)
  {
  }

  /** What follows the k-th message of a history is the history before that message. */
  lemma {:induction false} HistoryAfter(messages: seq<Message>, id: nat, k: nat)
    requires Numbered(messages) && k < |History(messages, id, 0)|
    ensures var h := History(messages, id, 0);
        1 <= h[k].id <= |messages| && History(messages[..h[k].id - 1], id, 0) == h[k + 1..]
    decreases |messages|
  {
    var n := |messages| - 1;
    var init := messages[..n];
    var h := History(messages, id, 0);
    if InHistory(messages[n], id, 0) {
      if k > 0 {
        HistoryAfter(init, id, k - 1);
        assert h[k + 1..] == History(init, id, 0)[k..];
        assert init[..h[k].id - 1] == messages[..h[k].id - 1];
      } else {
        assert h[1..] == History(init, id, 0);
      }
    } else {
      HistoryAfter(init, id, k);
      assert h == History(init, id, 0);
      assert init[..h[k].id - 1] == messages[..h[k].id - 1];
    }
  }

  /** The messages a client collects by asking page after page, each time before the last id it has seen;
      `stores[i]` is the state of the tables at the i-th request. It stops at an empty page. */
  function Follow(stores: seq<Store>, a: nat, b: nat, before: nat, limit: nat, capacity: nat): seq<Message>
    decreases |stores|
  {
    if stores == [] then []
    else
      var page := ListHistory(stores[0], a, b, before, limit, capacity).rows;
      if page == [] then [] else page + Follow(stores[1..], a, b, page[|page| - 1].id, limit, capacity)
  }

  ghost predicate Growing(stores: seq<Store>)
  {
    && (forall i :: 0 <= i < |stores| ==> StoreOk(stores[i]))
    && (forall i :: 0 <= i < |stores| - 1 ==> Grows(stores[i], stores[i + 1]))
  }

  predicate Grows(s: Store, t: Store)
  {
    s.messages <= t.messages && s.conversations <= t.conversations
  }

  lemma GrowingTail(stores: seq<Store>)
    requires Growing(stores) && |stores| >= 2
    ensures Growing(stores[1..]) && Grows(stores[0], stores[1]) && StoreOk(stores[0])
  {
    hide StoreOk, Grows;
    assert Grows(stores[0], stores[0 + 1]);
    forall i | 0 <= i < |stores[1..]| - 1 ensures Grows(stores[1..][i], stores[1..][i + 1]) {
      assert Grows(stores[i + 1], stores[i + 1 + 1]);
    }
  }

  /** The pair has the private conversation with id `c`. */
  predicate Talks(st: Store, a: nat, b: nat, c: nat)
  {
    && 1 <= a && 1 <= b && a != b
    && var i := FindPrivate(st, a, b); i < |st.conversations| && st.conversations[i].id == c
  }

  lemma TalksStays(s: Store, t: Store, a: nat, b: nat, c: nat)
    requires Grows(s, t) && Talks(s, a, b, c)
    ensures Talks(t, a, b, c)
  {
    var i, j := FindPrivate(s, a, b), FindPrivate(t, a, b);
    assert t.conversations[i] == s.conversations[i];
    assert forall k :: 0 <= k < i ==> t.conversations[k] == s.conversations[k];
  }

  lemma StoreNumbered(st: Store)
    requires StoreOk(st)
    ensures Numbered(st.messages)
  {
    forall i | 0 <= i < |st.messages| ensures st.messages[i].id == i + 1 {
      assert MessageOk(st.messages[i], i + 1, st.conversations);
    }
  }

  /** One page, asked with the bound that follows the first `|rows|` messages. */
  lemma PageBelow(st: Store, a: nat, b: nat, c: nat, limit: nat, capacity: nat, rows: seq<Message>, before: nat)
    requires StoreOk(st) && Talks(st, a, b, c) && 0 < limit <= capacity
    requires rows <= st.messages && (before == |rows| + 1 || (before == 0 && rows == st.messages))
    ensures var h := History(rows, c, 0); ListHistory(st, a, b, before, limit, capacity).rows == h[..Min(limit, |h|)]
  {
    hide StoreOk, FindPrivate;
    StoreNumbered(st);
    if before != 0 {
      HistoryBelow(st.messages, c, before);
      assert st.messages[..before - 1] == rows;
    }
  }

  /** Pages after a bound: the rest of the history below it, however many messages arrive meanwhile. */
  lemma {:induction false} FollowBelow(stores: seq<Store>, a: nat, b: nat, c: nat, limit: nat, capacity: nat,
        rows: seq<Message>, before: nat)
    requires Growing(stores) && stores != [] && Talks(stores[0], a, b, c) && 0 < limit <= capacity && |rows| < |stores|
    requires rows <= stores[0].messages && (before == |rows| + 1 || (before == 0 && rows == stores[0].messages))
    ensures Follow(stores, a, b, before, limit, capacity) == History(rows, c, 0)
    decreases |stores|
  {
    hide StoreOk, ListHistory, Talks, Growing, Grows, History;
    assert StoreOk(stores[0]) by { FirstOk(stores); }
    PageBelow(stores[0], a, b, c, limit, capacity, rows, before);
    var h := History(rows, c, 0);
    if h == [] {
    } else {
      var n := Min(limit, |h|);
      RowsNumbered(stores[0], rows);
      HistoryAfter(rows, c, n - 1);
      GrowingTail(stores);
      TalksStays(stores[0], stores[1], a, b, c);
      var left := rows[..h[n - 1].id - 1];
      assert left <= stores[1].messages by { PrefixGrows(stores[0], stores[1], rows, left); }
      FollowBelow(stores[1..], a, b, c, limit, capacity, left, h[n - 1].id);
      assert h[..n] + h[n..] == h;
    }
  }

  lemma FirstOk(stores: seq<Store>)
    requires Growing(stores) && stores != []
    ensures StoreOk(stores[0])
  {
  }

  lemma RowsNumbered(st: Store, rows: seq<Message>)
    requires StoreOk(st) && rows <= st.messages
    ensures Numbered(rows)
  {
    StoreNumbered(st);
  }

  lemma PrefixGrows(s: Store, t: Store, rows: seq<Message>, left: seq<Message>)
    requires Grows(s, t) && left <= rows <= s.messages
    ensures left <= t.messages
  {
  }

  /** Pagination is exact and stable: for any limit, following the pages visits every message the pair had
      at the first request, once each, newest first, whatever is stored between requests. */
  lemma PaginationExact(stores: seq<Store>, a: nat, b: nat, c: nat, limit: nat, capacity: nat)
    requires Growing(stores) && stores != [] && |stores[0].messages| < |stores|
    requires Talks(stores[0], a, b, c) && 0 < limit <= capacity
    ensures var all := Follow(stores, a, b, 0, limit, capacity);
      && Descends(all)
      && (forall m: Message :: m in all <==> m in stores[0].messages && m.conversationId == c)
  {
    hide StoreOk, Follow, Talks, History;
    FollowBelow(stores, a, b, c, limit, capacity, stores[0].messages, 0);
    assert StoreOk(stores[0]) by { FirstOk(stores); }
    StoreNumbered(stores[0]);
    HistoryDescends(stores[0].messages, c);
    forall m: Message
      ensures m in History(stores[0].messages, c, 0) <==> m in stores[0].messages && m.conversationId == c
    {
      HistoryMembers(stores[0].messages, c, 0, m);
    }
  }

  /** The tables at successive requests, with the given operations happening in between. */
  function Snapshots(st: Store, between: seq<seq<Op>>): (stores: seq<Store>)
    ensures |stores| == |between| + 1 && stores[0] == st
    decreases |between|
  {
    [st] + if between == [] then [] else Snapshots(Run(st, between[0]), between[1..])
  }

  lemma {:induction false} SnapshotsGrow(st: Store, between: seq<seq<Op>>)
    requires StoreOk(st)
    ensures Growing(Snapshots(st, between))
    decreases |between|
  {
    hide StoreOk, AccountsEvolve, DeliveriesEvolve, FilesEvolve, Run;
    if between == [] {
    } else {
      var next := Run(st, between[0]);
      RunKeeps(st, between[0]);
      SnapshotsGrow(next, between[1..]);
      var stores := Snapshots(st, between);
      assert stores[1..] == Snapshots(next, between[1..]);
      forall i | 0 <= i < |stores| - 1 ensures Grows(stores[i], stores[i + 1]) {
        assert i > 0 ==> Grows(stores[1..][i - 1], stores[1..][i - 1 + 1]);
      }
      forall i | 0 <= i < |stores| ensures StoreOk(stores[i]) {
        assert i > 0 ==> StoreOk(stores[1..][i - 1]);
      }
    }
  }

  /** The same for the tables of a run, whatever operations run before the first request and between
      requests; as many requests as there are messages are enough to reach the end. */
  lemma PaginationOverRuns(before: seq<Op>, between: seq<seq<Op>>, a: nat, b: nat, c: nat, limit: nat, capacity: nat)
    requires Talks(Run(EMPTY, before), a, b, c) && 0 < limit <= capacity && |Run(EMPTY, before).messages| <= |between|
    ensures var st := Run(EMPTY, before);
      var all := Follow(Snapshots(st, between), a, b, 0, limit, capacity);
      && Descends(all)
      && (forall m: Message :: m in all <==> m in st.messages && m.conversationId == c)
  {
    hide StoreOk, Follow, Talks, Snapshots, Growing, Descends, Run;
    ReachableStoreOk(before);
    SnapshotsGrow(Run(EMPTY, before), between);
    PaginationExact(Snapshots(Run(EMPTY, before), between), a, b, c, limit, capacity);
  }

  /** A pair without a conversation has nothing to page through. */
  lemma NothingToFollow(stores: seq<Store>, a: nat, b: nat, limit: nat, capacity: nat)
    requires stores != [] && FindPrivate(stores[0], a, b) == |stores[0].conversations|
    ensures Follow(stores, a, b, 0, limit, capacity) == []
  {
  }

  // ----- pending deliveries -----

  lemma {:induction false} PendingMembers(deliveries: seq<Delivery>, receiver: nat)
    ensures forall d :: d in PendingFor(deliveries, receiver) <==> d in deliveries && IsPendingFor(d, receiver)
  {
    if deliveries == [] {
    } else {
      var init, last := deliveries[..|deliveries| - 1], deliveries[|deliveries| - 1];
      assert deliveries == init + [last];
      PendingMembers(init, receiver);
    }
  }

  ghost predicate Ascends(p: seq<Delivery>)
  {
    forall i, j :: 0 <= i < j < |p| ==> p[i].id < p[j].id
  }

  ghost predicate DeliveryIdsWithin(p: seq<Delivery>, max: nat)
  {
    forall i :: 0 <= i < |p| ==> 1 <= p[i].id <= max
  }

  lemma {:induction false} PendingAscends(deliveries: seq<Delivery>, receiver: nat)
    requires forall i :: 0 <= i < |deliveries| ==> deliveries[i].id == i + 1
    ensures Ascends(PendingFor(deliveries, receiver))
    ensures DeliveryIdsWithin(PendingFor(deliveries, receiver), |deliveries|)
  {
    if deliveries == [] {
    } else {
      var n := |deliveries| - 1;
      PendingAscends(deliveries[..n], receiver);
      var t := PendingFor(deliveries[..n], receiver);
      if IsPendingFor(deliveries[n], receiver) {
        assert PendingFor(deliveries, receiver) == t + [deliveries[n]] && deliveries[n].id == n + 1;
      } else {
        assert PendingFor(deliveries, receiver) == t;
      }
    }
  }

  lemma FindMessageById(st: Store, id: nat)
    requires MessagesOk(st.messages, st.nextMessageId, st.conversations) && 1 <= id <= |st.messages|
    ensures FindMessage(st, id) == id - 1
  {
    assert MessageOk(st.messages[id - 1], id, st.conversations);
    var i := FindMessage(st, id);
    if i < |st.messages| { assert MessageOk(st.messages[i], i + 1, st.conversations); }
  }

  lemma {:induction false} RowsOfDeliveries(st: Store, deliveries: seq<Delivery>)
    requires MessagesOk(st.messages, st.nextMessageId, st.conversations)
    requires forall d :: d in deliveries ==> 1 <= d.messageId <= |st.messages|
    ensures |DeliveryRows(st, deliveries)| == |deliveries|
    ensures forall i :: 0 <= i < |deliveries| ==>
      DeliveryRows(st, deliveries)[i]
          == DeliveryRow(deliveries[i].id, st.messages[deliveries[i].messageId - 1], deliveries[i].state)
    decreases |deliveries|
  {
    if deliveries == [] {
    } else {
      FindMessageById(st, deliveries[0].messageId);
      RowsOfDeliveries(st, deliveries[1..]);
    }
  }

  /** The pending listing never meets a dangling row: it is exactly the first rows still pending for the
      receiver, in id order, each with a message addressed to that receiver. */
  lemma PendingListingSound(st: Store, receiver: nat, limit: nat, capacity: nat)
    requires StoreOk(st)
    ensures var r := ListPendingDeliveries(st, receiver, limit, capacity);
      && r.status != InternalError
      && (r.status == OK && limit > 0 ==>
            var all := PendingFor(st.deliveries, receiver);
            && |r.rows| == r.count == Min(limit, |all|)
            && (forall i :: 0 <= i < |r.rows| ==>
                  && r.rows[i].deliveryId == all[i].id && r.rows[i].message.id == all[i].messageId
                  && r.rows[i].message.receiver == receiver && r.rows[i].state == PENDING)
            && (forall i, j :: 0 <= i < j < |r.rows| ==> r.rows[i].deliveryId < r.rows[j].deliveryId))
  {
    hide StoreOk, AccountIsEnabled, PendingFor, DeliveryRows;
    var all := PendingFor(st.deliveries, receiver);
    PendingNamesMessages(st, receiver);
    RowsOfDeliveries(st, all[..Min(limit, |all|)]);
  }

  lemma PendingNamesMessages(st: Store, receiver: nat)
    requires StoreOk(st)
    ensures MessagesOk(st.messages, st.nextMessageId, st.conversations)
    ensures Ascends(PendingFor(st.deliveries, receiver))
    ensures forall d :: d in PendingFor(st.deliveries, receiver) ==>
      && IsPendingFor(d, receiver) && 1 <= d.messageId <= |st.messages|
      && st.messages[d.messageId - 1].receiver == receiver && st.messages[d.messageId - 1].id == d.messageId
  {
    hide ConversationsOk, MembersOk, FilesOk, AccountsOk, PendingFor;
    PendingMembers(st.deliveries, receiver);
    forall d | d in PendingFor(st.deliveries, receiver)
      ensures 1 <= d.messageId <= |st.messages|
      ensures st.messages[d.messageId - 1].receiver == receiver && st.messages[d.messageId - 1].id == d.messageId
    {
      var k :| 0 <= k < |st.deliveries| && st.deliveries[k] == d;
      assert DeliveryOk(st.deliveries[k], k + 1, st.messages);
      assert MessageOk(st.messages[d.messageId - 1], d.messageId, st.conversations);
    }
    assert forall i :: 0 <= i < |st.deliveries| ==> DeliveryOk(st.deliveries[i], i + 1, st.messages);
    PendingAscends(st.deliveries, receiver);
  }

  /** A delivery that has left a receiver's pending list never comes back, whatever operations follow. */
  lemma LeavesForever(st: Store, ops: seq<Op>, i: nat, receiver: nat)
    requires StoreOk(st) && i < |st.deliveries| && !IsPendingFor(st.deliveries[i], receiver)
    ensures var t := Run(st, ops); i < |t.deliveries| && !IsPendingFor(t.deliveries[i], receiver)
  {
    RunKeeps(st, ops);
    assert SameDelivery(st.deliveries[i], Run(st, ops).deliveries[i]);
    assert DeliveryOk(st.deliveries[i], i + 1, st.messages);
  }
}
