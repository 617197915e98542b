/** What each storage operation does to the tables of a reachable store, and exactly when it does it. */
module StorageEffects {
  import opened Wire
  import opened Storage
  import opened StorageLaws

  predicate IsText(s: string, max: nat) { 1 <= |s| <= max }

  /** Some private conversation is between the two users, whichever comes first. */
  ghost predicate HavePair(st: Store, a: nat, b: nat)
  {
    exists k :: 0 <= k < |st.conversations| && Between(st.conversations[k], a, b)
  }

  predicate Between(c: Conversation, a: nat, b: nat)
  {
    !c.isGroup && ((c.userA == a && c.userB == b) || (c.userA == b && c.userB == a))
  }

  lemma PairFound(st: Store, a: nat, b: nat)
    requires StoreOk(st) && 1 <= a && 1 <= b && a != b
    ensures HavePair(st, a, b) <==> FindPrivate(st, a, b) < |st.conversations|
    ensures FindPrivate(st, a, b) < |st.conversations| ==> Between(st.conversations[FindPrivate(st, a, b)], a, b)
  {
    hide MembersOk, MessagesOk, DeliveriesOk, FilesOk, AccountsOk;
    var i := FindPrivate(st, a, b);
    forall k | 0 <= k < |st.conversations| ensures ConversationOk(st.conversations[k], k + 1, |st.accounts|) {
    }
    if k :| 0 <= k < |st.conversations| && Between(st.conversations[k], a, b) {
      assert HasPair(st.conversations[k], a, b);
    }
  }

  // ----- accounts -----

  /** An account is created exactly when its texts have lengths in range, its name is new and there is room;
      it becomes the last row, enabled, shown under its nickname or else its name. */
  lemma AccountCreated(st: Store, username: string, nickname: Option<string>, hash: string, salt: string)
    ensures var out := CreateAccount(st, username, nickname, hash, salt);
      var texts := IsText(username, 64) && IsText(hash, 128) && IsText(salt, 64)
                   && (nickname.Some? ==> |nickname.value| <= 64);
      var taken := exists k :: 0 <= k < |st.accounts| && st.accounts[k].username == username;
      var shown := match nickname case Some(n) => (if n == "" then username else n) case None => username;
      && (out.status == InvalidArgument <==> !texts)
      && (out.status == AlreadyExists <==> texts && taken)
      && (out.status == BufferTooSmall <==> texts && !taken && |st.accounts| >= 128)
      && (out.status == OK <==> texts && !taken && |st.accounts| < 128)
      && (out.status == OK ==>
            && out.id == st.nextUserId
            && out.store == st.(accounts := st.accounts + [Account(out.id, username, shown, hash, salt, true, 0)],
                                nextUserId := st.nextUserId + 1))
  {
  }

  /** The last login of an account is recorded in its row and nowhere else. */
  lemma LoginRecorded(st: Store, userId: nat, timeMs: nat)
    requires StoreOk(st)
    ensures var out := UpdateLastLogin(st, userId, timeMs);
      && (out.status == OK <==> 1 <= userId <= |st.accounts|)
      && (out.status == InvalidArgument <==> userId == 0)
      && (out.status == NotFound <==> userId > |st.accounts|)
      && (out.status == OK ==>
            out.store == st.(accounts := st.accounts[userId - 1 := st.accounts[userId - 1].(lastLoginMs := timeMs)]))
  {
    hide MembersOk, MessagesOk, DeliveriesOk, FilesOk, ConversationsOk;
    if 1 <= userId <= |st.accounts| { assert st.accounts[userId - 1].userId == userId; }
  }

  // ----- messages -----

  /** A new row: everything as submitted, numbered, in its conversation, stored at the time it was sent unless
      a time was given. */
  function Row(m: Message, id: nat, conversationId: nat, receiver: nat): Message
  {
    Message(id, conversationId, m.sender, receiver, m.contentType, m.content, m.clientMessageId, m.sendTimeMs,
            if m.storeTimeMs != 0 then m.storeTimeMs else m.sendTimeMs)
  }

  predicate IsPrivate(m: Message)
  {
    m.sender != 0 && m.receiver != 0 && m.sender != m.receiver && m.contentType != 0 && IsText(m.content, 4096)
  }

  predicate BothKnown(st: Store, m: Message) { 1 <= m.sender <= |st.accounts| && 1 <= m.receiver <= |st.accounts| }

  predicate HasRoom(st: Store) { |st.messages| < 1024 && |st.deliveries| < 1024 }

  /** The named conversation is the pair's; if none is named, the pair has one or there is room for it. */
  ghost predicate HasPlace(st: Store, m: Message)
  {
    if m.conversationId != 0
    then m.conversationId <= |st.conversations| && Between(st.conversations[m.conversationId - 1], m.sender, m.receiver)
    else HavePair(st, m.sender, m.receiver) || |st.conversations| < 256
  }

  lemma PlaceFound(st: Store, m: Message)
    requires StoreOk(st) && IsPrivate(m) && BothKnown(st, m)
    ensures var out := PrivateConversationFor(st, m);
      && (out.status == OK <==> HasPlace(st, m))
      && (out.status == NotFound <==> m.conversationId != 0 && !HasPlace(st, m))
      && (out.status == BufferTooSmall <==> m.conversationId == 0 && !HasPlace(st, m))
      && (out.status == OK ==>
            && 1 <= out.id <= |out.store.conversations|
            && Between(out.store.conversations[out.id - 1], m.sender, m.receiver)
            && (m.conversationId != 0 ==> out.id == m.conversationId)
            && PairAdded(st, out.store.conversations, m)
            && out.store == st.(conversations := out.store.conversations,
                                nextConversationId := |out.store.conversations| + 1))
  {
    hide MembersOk, MessagesOk, DeliveriesOk, FilesOk, AccountsOk, HavePair, FindPrivate;
    PairFound(st, m.sender, m.receiver);
    FindConversationById(st, m.conversationId);
    ConversationRows(st);
    if 1 <= m.conversationId <= |st.conversations| {
      assert HasPair(st.conversations[m.conversationId - 1], m.sender, m.receiver)
        <==> Between(st.conversations[m.conversationId - 1], m.sender, m.receiver);
    }
  }

  lemma ConversationRows(st: Store)
    requires StoreOk(st)
    ensures forall k :: 0 <= k < |st.conversations| ==> ConversationOk(st.conversations[k], k + 1, |st.accounts|)
  {
  }

  /** The pair's conversation is added if it is needed, lower user first, and otherwise nothing is. */
  ghost predicate PairAdded(st: Store, after: seq<Conversation>, m: Message)
  {
    var lower, higher := if m.sender < m.receiver then m.sender else m.receiver,
                         if m.sender < m.receiver then m.receiver else m.sender;
    after == if m.conversationId == 0 && !HavePair(st, m.sender, m.receiver)
             then st.conversations + [Conversation(|st.conversations| + 1, false, "", lower, higher)]
             else st.conversations
  }

  /** A private message is stored exactly when it is complete, both users are known, and there is room and a
      conversation for it. Then the tables gain its row, one pending delivery and perhaps the conversation. */
  lemma PrivateStored(st: Store, m: Message)
    requires StoreOk(st)
    ensures var out := StorePrivateMessage(st, m);
      && (out.status == InvalidArgument <==> !IsPrivate(m))
      && (out.status == NotFound <==>
            IsPrivate(m) && (!BothKnown(st, m) || (HasRoom(st) && m.conversationId != 0 && !HasPlace(st, m))))
      && (out.status == BufferTooSmall <==>
            IsPrivate(m) && BothKnown(st, m) && (!HasRoom(st) || (m.conversationId == 0 && !HasPlace(st, m))))
      && (out.status == OK <==> IsPrivate(m) && BothKnown(st, m) && HasRoom(st) && HasPlace(st, m))
      && (out.status == OK ==> IsStored(st, m, out))
  {
    hide StoreOk, HasPlace, PairAdded, PrivateConversationFor, AccountIsEnabled;
    AccountsOfStore(st);
    NextIds(st);
    EnabledIsAccount(st, m.sender);
    EnabledIsAccount(st, m.receiver);
    if IsPrivate(m) && BothKnown(st, m) { PlaceFound(st, m); }
  }

  lemma AccountsOfStore(st: Store)
    requires StoreOk(st)
    ensures AccountsOk(st.accounts, st.nextUserId)
  {
  }

  ghost predicate IsStored(st: Store, m: Message, out: Out)
  {
    && out.id == |st.messages| + 1 && out.deliveryId == |st.deliveries| + 1 && out.fileId == 0
    && |out.store.messages| == |st.messages| + 1
    && var c := out.store.messages[|st.messages|].conversationId;
    && 1 <= c <= |out.store.conversations| && Between(out.store.conversations[c - 1], m.sender, m.receiver)
    && (m.conversationId != 0 ==> c == m.conversationId)
    && PairAdded(st, out.store.conversations, m)
    && out.store == st.(
         conversations := out.store.conversations, nextConversationId := |out.store.conversations| + 1,
         messages := st.messages + [Row(m, out.id, c, m.receiver)], nextMessageId := out.id + 1,
         deliveries := st.deliveries + [Delivery(out.deliveryId, out.id, m.receiver, 1, 0, 0)],
         nextDeliveryId := out.deliveryId + 1)
  }

  predicate IsGroupText(m: Message)
  {
    m.conversationId != 0 && m.sender != 0 && m.contentType != 0 && IsText(m.content, 4096)
  }

  ghost predicate IsMember(st: Store, conversationId: nat, userId: nat)
  {
    && 1 <= conversationId <= |st.conversations| && st.conversations[conversationId - 1].isGroup
    && exists k :: 0 <= k < |st.members| && st.members[k] == Member(conversationId, userId, true)
  }

  /** A group message is stored exactly when it is complete, its sender is an active member of that group, and
      there is room. Then the tables gain its row, which has no receiver, and nothing else. */
  lemma GroupTextStored(st: Store, m: Message)
    requires StoreOk(st)
    ensures var out := StoreGroupMessage(st, m);
      && (out.status == InvalidArgument <==> !IsGroupText(m))
      && (out.status == NotFound <==> IsGroupText(m) && !IsMember(st, m.conversationId, m.sender))
      && (out.status == BufferTooSmall <==>
            IsGroupText(m) && IsMember(st, m.conversationId, m.sender) && |st.messages| >= 1024)
      && (out.status == OK <==> IsGroupText(m) && IsMember(st, m.conversationId, m.sender) && |st.messages| < 1024)
      && (out.status == OK ==>
            && out.id == |st.messages| + 1 && out.deliveryId == 0
            && out.store == st.(messages := st.messages + [Row(m, out.id, m.conversationId, 0)],
                                nextMessageId := out.id + 1))
  {
    hide MembersOk, MessagesOk, DeliveriesOk, FilesOk, AccountsOk;
    NextIds(st);
    FindConversationById(st, m.conversationId);
    HasMember(st, m.conversationId, m.sender);
  }

  lemma HasMember(st: Store, conversationId: nat, userId: nat)
    ensures GroupHasMember(st, conversationId, userId) <==>
              exists k :: 0 <= k < |st.members| && st.members[k] == Member(conversationId, userId, true)
  {
    if k :| 0 <= k < |st.members| && st.members[k] == Member(conversationId, userId, true) {
      assert IsActiveMember(st.members[k], conversationId, userId);
    }
  }

  // ----- groups -----

  /** The users in the order in which they are first mentioned. */
  function Mentioned(users: seq<nat>): seq<nat>
  {
    if users == [] then []
    else
      var init, last := users[..|users| - 1], users[|users| - 1];
      Mentioned(init) + (if last in init then [] else [last])
  }

  lemma {:induction false} MentionedMeans(users: seq<nat>)
    ensures |Mentioned(users)| <= |users| && forall u :: u in Mentioned(users) <==> u in users
    decreases |users|
  {
    if users == [] {
    } else {
      var init, last := users[..|users| - 1], users[|users| - 1];
      assert users == init + [last];
      MentionedMeans(init);
    }
  }

  lemma MentionedSnoc(users: seq<nat>, u: nat)
    ensures Mentioned(users + [u]) == if u in users then Mentioned(users) else Mentioned(users) + [u]
  {
    assert (users + [u])[..|users|] == users;
  }

  lemma {:induction false} MentionedGrows(users: seq<nat>, more: seq<nat>)
    ensures |Mentioned(users)| <= |Mentioned(users + more)|
    decreases |more|
  {
    if more == [] {
      assert users + more == users;
    } else {
      MentionedSnoc(users, more[0]);
      MentionedGrows(users + [more[0]], more[1..]);
      assert users + [more[0]] + more[1..] == users + more;
    }
  }

  predicate AllKnown(st: Store, ids: seq<nat>) { forall k :: 0 <= k < |ids| ==> 1 <= ids[k] <= |st.accounts| }

  lemma NobodyKnown(st: Store)
    ensures AllKnown(st, [])
  {
  }

  lemma KnownCons(st: Store, u: nat, rest: seq<nat>)
    ensures AllKnown(st, [u] + rest) <==> 1 <= u <= |st.accounts| && AllKnown(st, rest)
  {
    var all := [u] + rest;
    if AllKnown(st, all) {
      assert all[0] == u;
      forall k | 0 <= k < |rest| ensures 1 <= rest[k] <= |st.accounts| { assert all[k + 1] == rest[k]; }
    }
  }

  lemma {:induction false} Collects(st: Store, ids: seq<nat>, done: seq<nat>)
    requires AccountsOk(st.accounts, st.nextUserId) && |Mentioned(done)| <= 16
    ensures var c := CollectMembers(st, ids, Mentioned(done));
      && (c.status == OK <==> AllKnown(st, ids) && |Mentioned(done + ids)| <= 16)
      && (c.status == OK ==> c.members == Mentioned(done + ids))
      && (c.status == NotFound || c.status == BufferTooSmall || c.status == OK)
      && (|done| + |ids| <= 17 ==> (c.status == NotFound <==> !AllKnown(st, ids)))
    decreases |ids|
  {
    hide AccountsOk, AccountIsEnabled, Mentioned, AllKnown;
    MentionedMeans(done);
    if ids == [] {
      assert done + ids == done;
      assert AllKnown(st, ids) by { NobodyKnown(st); }
    } else {
      var u, rest := ids[0], ids[1..];
      EnabledIsAccount(st, u);
      MentionedSnoc(done, u);
      assert done + [u] + rest == done + ids;
      MentionedGrows(done + [u], rest);
      assert ids == [u] + rest;
      KnownCons(st, u, rest);
      if 1 <= u <= |st.accounts| && |Mentioned(done + [u])| <= 16 { Collects(st, rest, done + [u]); }
      MentionedMeans(done + [u]);
      if |done| + |ids| <= 17 && |Mentioned(done + [u])| > 16 {
        assert rest == [];
        NobodyKnown(st);
      }
    }
  }

  predicate IsGroupShape(name: string, creator: nat, ids: seq<nat>)
  {
    creator != 0 && 1 <= |ids| <= 16 && IsText(name, 64)
  }

  /** A group is created exactly for a creator and listed users who are all known and make 2 to 16 different
      ones, and if there is room. Its members are added in the order of their first mention. */
  lemma GroupCreated(st: Store, name: string, creator: nat, ids: seq<nat>)
    requires StoreOk(st)
    ensures var out := CreateGroup(st, name, creator, ids);
      var users, known := Mentioned([creator] + ids), AllKnown(st, [creator] + ids);
      var room := |users| <= 16 && |st.conversations| < 256 && |st.members| + |users| <= 1024;
      && (out.status == InvalidArgument <==> !IsGroupShape(name, creator, ids) || (known && |users| < 2))
      && (out.status == NotFound <==> IsGroupShape(name, creator, ids) && !known)
      && (out.status == BufferTooSmall <==> IsGroupShape(name, creator, ids) && known && |users| >= 2 && !room)
      && (out.status == OK <==> IsGroupShape(name, creator, ids) && known && |users| >= 2 && room)
      && (out.status == OK ==>
            && out.id == |st.conversations| + 1
            && |out.store.members| == |st.members| + |users| && st.members <= out.store.members
            && (forall k :: 0 <= k < |users| ==>
                  out.store.members[|st.members| + k] == Member(out.id, users[k], true))
            && out.store == st.(conversations := st.conversations + [Conversation(out.id, true, name, 0, 0)],
                                nextConversationId := out.id + 1, members := out.store.members))
  {
    hide MessagesOk, DeliveriesOk, FilesOk, AccountsOk, AccountIsEnabled, CollectMembers, MembersOk, ConversationsOk,
      Mentioned;
    NextIds(st);
    EnabledIsAccount(st, creator);
    MentionedOne(creator);
    KnownCons(st, creator, ids);
    Collects(st, ids, [creator]);
  }

  lemma MentionedOne(u: nat)
    ensures Mentioned([u]) == [u]
  {
    assert [u][..0] == [];
  }

  /** The active members of a group are listed in the order in which they were added, as many as fit. */
  lemma MembersListed(st: Store, id: nat, capacity: nat)
    requires StoreOk(st)
    ensures var r := ListGroupMembers(st, id, capacity);
      var group := 1 <= id <= |st.conversations| && st.conversations[id - 1].isGroup;
      && (r.status == InvalidArgument <==> id == 0)
      && (r.status == NotFound <==> id != 0 && !group)
      && (r.status == BufferTooSmall <==> group && r.count > capacity)
      && (r.status == OK <==> group && r.count <= capacity)
      && (group ==> |r.rows| == Min(r.count, capacity))
      && (r.status == OK ==> forall u: nat :: u in r.rows <==> IsMember(st, id, u))
  {
    hide MembersOk, MessagesOk, DeliveriesOk, FilesOk, AccountsOk, MembersOf;
    FindConversationById(st, id);
    var all := MembersOf(st.members, id);
    assert all[..|all|] == all;
    forall u: nat
      ensures u in all <==> exists k :: 0 <= k < |st.members| && st.members[k] == Member(id, u, true)
    {
      MembersAre(st.members, id, u);
    }
  }

  lemma {:induction false} MembersAre(members: seq<Member>, id: nat, u: nat)
    ensures u in MembersOf(members, id) <==> exists k :: 0 <= k < |members| && members[k] == Member(id, u, true)
    decreases |members|
  {
    if members == [] {
    } else {
      var init, last := members[..|members| - 1], members[|members| - 1];
      MembersAre(init, id, u);
      if k :| 0 <= k < |init| && init[k] == Member(id, u, true) { assert members[k] == Member(id, u, true); }
      if k :| 0 <= k < |members| && members[k] == Member(id, u, true) {
        assert k < |init| ==> init[k] == Member(id, u, true);
      }
    }
  }

  // ----- files -----

  /** A file is stored exactly when its size and name are in range, there is room for its record, and its
      message can be stored as a private one. Then the tables gain what the message brings and its record. */
  lemma FileStored(st: Store, m: Message, fileName: string, fileSize: nat, crc32: bv32)
    requires StoreOk(st)
    ensures var out := StoreFileTransfer(st, m, fileName, fileSize, crc32);
      var text := m.(contentType := 2);
      var shape := 1 <= fileSize <= 1048576 && IsText(fileName, 255);
      && (out.status == OK <==> shape && |st.files| < 128 && IsPrivate(text) && BothKnown(st, text) && HasRoom(st)
                                && HasPlace(st, text))
      && (out.status == InvalidArgument <==> !shape || (|st.files| < 128 && !IsPrivate(text)))
      && (shape && |st.files| >= 128 ==> out.status == BufferTooSmall)
      && (out.status == OK ==>
            && out.fileId == |st.files| + 1
            && out.store.files == st.files
                 + [FileRecord(out.fileId, out.id, m.sender, m.receiver, fileName, fileSize, crc32, false)]
            && out.store.nextFileId == out.fileId + 1
            && IsStored(st, text, out.(store :=
                out.store.(files := st.files, nextFileId := st.nextFileId), fileId := 0)))
  {
    hide StoreOk, HasPlace, StorePrivateMessage, BothKnown, HasRoom, IsPrivate, PairAdded;
    NextIds(st);
    PrivateStored(st, m.(contentType := 2));
  }

  /** Completing marks the record with that id, and nothing else changes. */
  lemma FileCompleted(st: Store, fileId: nat)
    requires StoreOk(st)
    ensures var out := CompleteFileTransfer(st, fileId);
      && (out.status == InvalidArgument <==> fileId == 0)
      && (out.status == NotFound <==> fileId > |st.files|)
      && (out.status == OK <==> 1 <= fileId <= |st.files|)
      && (out.status == OK ==>
            out.store == st.(files := st.files[fileId - 1 := st.files[fileId - 1].(completed := true)]))
  {
    hide MembersOk, MessagesOk, DeliveriesOk, AccountsOk, ConversationsOk;
    if 1 <= fileId <= |st.files| { assert FileOk(st.files[fileId - 1], fileId, st.messages); }
  }

  // ----- deliveries -----

  /** 1 is pending, 2 delivered, 3 acknowledged. */
  predicate IsAllowed(current: nat, next: nat)
  {
    (current, next) in {(1, 1), (2, 2), (3, 3), (1, 2), (1, 3), (2, 3)}
  }

  /** The row after a marking: a repeated state changes nothing, a delivery is stamped when it happens, an
      acknowledgement is stamped too, and stands for the delivery if there was none. */
  predicate IsMarked(d: Delivery, e: Delivery, state: nat, timeMs: nat)
  {
    && e.id == d.id && e.messageId == d.messageId && e.receiver == d.receiver && e.state == state
    && (d.state == state ==> e == d)
    && (d.state != state && state == 2 ==> e.deliveredTimeMs == timeMs && e.ackedTimeMs == d.ackedTimeMs)
    && (d.state != state && state == 3 ==>
          e.ackedTimeMs == timeMs && e.deliveredTimeMs == if d.deliveredTimeMs != 0 then d.deliveredTimeMs else timeMs)
  }

  /** A delivery is marked exactly when its row exists and the transition is allowed; then its row is the
      marked one and nothing else changes. */
  lemma DeliveryMarked(st: Store, id: nat, state: nat, timeMs: nat)
    requires StoreOk(st)
    ensures var out := MarkDeliveryState(st, id, state, timeMs);
      var there := 1 <= id <= |st.deliveries|;
      && (out.status == InvalidArgument <==> id == 0 || state !in {1, 2, 3})
      && (out.status == NotFound <==> state in {1, 2, 3} && id > |st.deliveries|)
      && (out.status == InvalidState <==>
            state in {1, 2, 3} && there && !IsAllowed(st.deliveries[id - 1].state, state))
      && (out.status == OK <==> there && IsAllowed(st.deliveries[id - 1].state, state))
      && (out.status == OK ==>
            && |out.store.deliveries| == |st.deliveries|
            && IsMarked(st.deliveries[id - 1], out.store.deliveries[id - 1], state, timeMs)
            && out.store == st.(deliveries := st.deliveries[id - 1 := out.store.deliveries[id - 1]]))
  {
    hide MembersOk, MessagesOk, FilesOk, AccountsOk, ConversationsOk;
    if 1 <= id <= |st.deliveries| { assert DeliveryOk(st.deliveries[id - 1], id, st.messages); }
    var out := MarkDeliveryState(st, id, state, timeMs);
    if out.status == OK {
      var i := id - 1;
      assert FindDelivery(st, id) == i;
      assert st.deliveries[i := st.deliveries[i]] == st.deliveries;
    }
  }

  /** A delivery that was marked delivered or acknowledged is in no later pending listing, whatever happens. */
  lemma MarkedIsNotPending(st: Store, id: nat, state: nat, timeMs: nat, ops: seq<Op>, receiver: nat, limit: nat,
        capacity: nat)
    requires StoreOk(st) && state in {2, 3} && MarkDeliveryState(st, id, state, timeMs).status == OK
    ensures var t := Run(MarkDeliveryState(st, id, state, timeMs).store, ops);
      forall k :: 0 <= k < |ListPendingDeliveries(t, receiver, limit, capacity).rows| ==>
        ListPendingDeliveries(t, receiver, limit, capacity).rows[k].deliveryId != id
  {
    hide StoreOk, Run, MarkDeliveryState, ListPendingDeliveries, PendingFor;
    DeliveryMarked(st, id, state, timeMs);
    MarkDeliveryKeeps(st, id, state, timeMs);
    var marked := MarkDeliveryState(st, id, state, timeMs).store;
    RunKeeps(marked, ops);
    LeavesForever(marked, ops, id - 1, receiver);
    NotListed(Run(marked, ops), id, receiver, limit, capacity);
  }

  lemma NotListed(st: Store, id: nat, receiver: nat, limit: nat, capacity: nat)
    requires StoreOk(st) && 1 <= id <= |st.deliveries| && !IsPendingFor(st.deliveries[id - 1], receiver)
    ensures forall k :: 0 <= k < |ListPendingDeliveries(st, receiver, limit, capacity).rows| ==>
              ListPendingDeliveries(st, receiver, limit, capacity).rows[k].deliveryId != id
  {
    hide MembersOk, MessagesOk, FilesOk, AccountsOk, ConversationsOk, PendingFor, AccountIsEnabled, DeliveryRows;
    PendingListingSound(st, receiver, limit, capacity);
    PendingMembers(st.deliveries, receiver);
    var r, all := ListPendingDeliveries(st, receiver, limit, capacity), PendingFor(st.deliveries, receiver);
    forall k | 0 <= k < |r.rows| ensures r.rows[k].deliveryId != id {
      assert r.status == OK;
      assert all[k] in st.deliveries && IsPendingFor(all[k], receiver);
      var j :| 0 <= j < |st.deliveries| && st.deliveries[j] == all[k];
      assert DeliveryOk(st.deliveries[j], j + 1, st.messages);
    }
  }

  // ----- what the listings show of it -----

  predicate IsPairs(m: Message, c: Conversation, before: nat)
  {
    m.conversationId == c.id && (before == 0 || m.id < before)
  }

  /** A page of a pair's history: its messages below the bound, newest first, as many as the limit allows and
      none left out in between; it is refused whole when it does not fit. */
  lemma HistoryPage(st: Store, a: nat, b: nat, before: nat, limit: nat, capacity: nat, k: nat)
    requires StoreOk(st) && 1 <= a && 1 <= b && a != b
    requires k < |st.conversations| && Between(st.conversations[k], a, b)
    ensures var r, c := ListHistory(st, a, b, before, limit, capacity), st.conversations[k];
      && (r.status == OK <==> r.count <= capacity) && (r.status == BufferTooSmall <==> r.count > capacity)
      && r.count == ListHistory(st, a, b, before, limit, limit).count <= limit
      && (r.status != OK ==> r.rows == [])
      && (r.status == OK ==>
            && r.count == |r.rows| <= limit && Descends(r.rows)
            && (forall m :: m in r.rows ==> m in st.messages && IsPairs(m, c, before))
            && (forall m :: m in st.messages && IsPairs(m, c, before) && m !in r.rows ==>
                  |r.rows| == limit && forall x :: x in r.rows ==> m.id < x.id))
  {
    hide StoreOk, History, FindPrivate;
    PairIs(st, a, b, k);
    var c := st.conversations[k];
    var all := History(st.messages, c.id, before);
    StoreNumbered(st);
    HistoryOrdered(st.messages, c.id, before);
    var n := Min(limit, |all|);
    forall m: Message ensures m in all <==> m in st.messages && IsPairs(m, c, before) {
      HistoryMembers(st.messages, c.id, before, m);
    }
    forall m | m in all && m !in all[..n] ensures n == limit && forall x :: x in all[..n] ==> m.id < x.id {
      var j :| 0 <= j < |all| && all[j] == m;
      InPrefix(all, n, j);
    }
  }

  lemma InPrefix(all: seq<Message>, n: nat, j: nat)
    requires n <= |all| && j < |all|
    ensures j < n ==> all[j] in all[..n]
  {
    if j < n { assert all[..n][j] == all[j]; }
  }

  lemma PairIs(st: Store, a: nat, b: nat, k: nat)
    requires StoreOk(st) && 1 <= a && 1 <= b && a != b
    requires k < |st.conversations| && Between(st.conversations[k], a, b)
    ensures FindPrivate(st, a, b) == k
  {
    ConversationRows(st);
    assert ConversationOk(st.conversations[k], k + 1, |st.accounts|);
    FindPrivateUnique(st, a, b, k);
  }

  lemma HistoryOrdered(messages: seq<Message>, id: nat, before: nat)
    requires Numbered(messages)
    ensures Descends(History(messages, id, before))
  {
    hide History;
    if before == 0 {
      HistoryDescends(messages, id);
    } else if before <= |messages| + 1 {
      HistoryBelow(messages, id, before);
      HistoryDescends(messages[..before - 1], id);
    } else {
      HistoryUnbounded(messages, id, before);
      HistoryDescends(messages, id);
    }
  }

  /** The listings that need no conversation: nobody's history and an empty page. */
  lemma HistoryOfNobody(st: Store, a: nat, b: nat, before: nat, limit: nat, capacity: nat)
    requires StoreOk(st)
    ensures var r := ListHistory(st, a, b, before, limit, capacity);
      && (r.status == InvalidArgument <==> a == 0 || b == 0 || a == b)
      && (a != 0 && b != 0 && a != b && (!HavePair(st, a, b) || limit == 0) ==> r == Listing(OK, 0, []))
  {
    hide StoreOk, History, FindPrivate, HavePair;
    if 1 <= a && 1 <= b && a != b { PairFound(st, a, b); }
  }

  /** Right after it was stored a message heads the history of its pair, whoever asks. */
  lemma StoredHeadsHistory(st: Store, m: Message, limit: nat, capacity: nat)
    requires StoreOk(st) && StorePrivateMessage(st, m).status == OK && 1 <= limit <= capacity
    ensures var out := StorePrivateMessage(st, m);
      var r := ListHistory(out.store, m.sender, m.receiver, 0, limit, capacity);
      && r == ListHistory(out.store, m.receiver, m.sender, 0, limit, capacity)
      && r.status == OK && r.rows != []
      && r.rows[0] == Row(m, |st.messages| + 1, r.rows[0].conversationId, m.receiver)
  {
    hide StoreOk, StorePrivateMessage, ListHistory, PairAdded, HasPlace;
    PrivateStored(st, m);
    StorePrivateKeeps(st, m);
    var out := StorePrivateMessage(st, m);
    var last := out.store.messages[|st.messages|];
    var k := last.conversationId - 1;
    ConversationRows(out.store);
    HistoryPage(out.store, m.sender, m.receiver, 0, limit, capacity, k);
    HistoryPage(out.store, m.sender, m.receiver, 0, limit, limit, k);
    SameHistory(out.store, m.sender, m.receiver, limit, capacity);
    var r := ListHistory(out.store, m.sender, m.receiver, 0, limit, capacity);
    assert last in out.store.messages && IsPairs(last, out.store.conversations[k], 0);
    StoreNumbered(out.store);
    NewestFirst(out.store.messages, r.rows, last);
  }

  lemma SameHistory(st: Store, a: nat, b: nat, limit: nat, capacity: nat)
    ensures ListHistory(st, a, b, 0, limit, capacity) == ListHistory(st, b, a, 0, limit, capacity)
  {
    hide FindPrivate;
    FindPrivateSymmetric(st, a, b);
  }

  lemma NewestFirst(messages: seq<Message>, rows: seq<Message>, last: Message)
    requires Numbered(messages) && messages != [] && last == messages[|messages| - 1]
    requires Descends(rows) && forall m :: m in rows ==> m in messages
    requires last in rows || (rows != [] && forall x :: x in rows ==> last.id < x.id)
    ensures rows != [] && rows[0] == last
  {
    assert rows[0] in messages;
    var n :| 0 <= n < |messages| && messages[n] == rows[0];
    assert rows[0].id == n + 1 <= last.id;
    var j :| 0 <= j < |rows| && rows[j] == last;
  }

  /** And its delivery ends the receiver's pending ones, with the message in full. */
  lemma StoredIsPending(st: Store, m: Message, limit: nat, capacity: nat)
    requires StoreOk(st) && StorePrivateMessage(st, m).status == OK
    requires |PendingFor(st.deliveries, m.receiver)| < limit <= capacity
    ensures var out := StorePrivateMessage(st, m);
      var before, r := ListPendingDeliveries(st, m.receiver, limit, capacity),
                       ListPendingDeliveries(out.store, m.receiver, limit, capacity);
      && before.status == r.status == OK && |r.rows| == |before.rows| + 1
      && var row := r.rows[|before.rows|];
      && row.deliveryId == out.deliveryId && row.state == 1
      && row.message == Row(m, |st.messages| + 1, row.message.conversationId, m.receiver)
  {
    hide StoreOk, StorePrivateMessage, PairAdded, HasPlace, ListPendingDeliveries, PendingFor;
    PrivateStored(st, m);
    StorePrivateKeeps(st, m);
    var out := StorePrivateMessage(st, m);
    PendingPage(st, m.receiver, limit, capacity);
    PendingPage(out.store, m.receiver, limit, capacity);
    PendingSnoc(st.deliveries, Delivery(out.deliveryId, out.id, m.receiver, 1, 0, 0), m.receiver);
  }

  lemma PendingSnoc(deliveries: seq<Delivery>, d: Delivery, receiver: nat)
    requires IsPendingFor(d, receiver)
    ensures PendingFor(deliveries + [d], receiver) == PendingFor(deliveries, receiver) + [d]
  {
    assert (deliveries + [d])[..|deliveries|] == deliveries;
  }

  /** A pending listing: the receiver's first pending deliveries with their messages, or the reason why not. */
  lemma PendingPage(st: Store, receiver: nat, limit: nat, capacity: nat)
    requires StoreOk(st)
    ensures var r, all := ListPendingDeliveries(st, receiver, limit, capacity), PendingFor(st.deliveries, receiver);
      && (r.status == InvalidArgument <==> receiver == 0)
      && (r.status == NotFound <==> receiver > |st.accounts|)
      && (r.status == BufferTooSmall <==> 1 <= receiver <= |st.accounts| && Min(limit, |all|) > capacity)
      && (r.status == OK <==> 1 <= receiver <= |st.accounts| && Min(limit, |all|) <= capacity)
      && (r.status == OK ==>
            && |r.rows| == r.count == Min(limit, |all|)
            && (forall i :: 0 <= i < |r.rows| ==>
                  && 1 <= all[i].messageId <= |st.messages|
                  && r.rows[i] == DeliveryRow(all[i].id, st.messages[all[i].messageId - 1], 1)))
      && (r.status != OK ==> r.rows == [])
  {
    hide StoreOk, PendingFor, DeliveryRows, AccountIsEnabled;
    AccountsOfStore(st);
    EnabledIsAccount(st, receiver);
    PendingNamesMessages(st, receiver);
    var all := PendingFor(st.deliveries, receiver);
    RowsOfDeliveries(st, all[..Min(limit, |all|)]);
  }
}
