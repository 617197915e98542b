/** Which notifies are lost: a message is stored, and a file marked completed, whether or not the other
    side could be told. */
module Delivery {
  import opened Wire
  import opened Server
  import opened ServerTraces
  import opened ServerLaws
  import opened ServerSteps
  import S = Storage
  import L = StorageLaws

  /** The user is logged in on a connection whose send slot is free. */
  predicate CanBeTold(clients: seq<Client>, userId: nat)
  {
    var i := FindUser(clients, userId);
    i < |clients| && clients[i].pending.None?
  }

  predicate IsReady(c: Client) { c.isOpen && c.pending.None? }

  /** Queueing on a ready connection succeeds and fills its slot only. */
  lemma QueueReady(s: Server, i: Slot, p: Packet)
    requires IsReady(s.clients[i]) && !p.CallNotify?
    ensures Queue(s, i, p) == Outcome(s.(clients := s.clients[i := s.clients[i].(pending := Some(p))],
                                         log := s.log + [Entry(i, s.clients[i].userId, p)]), OK)
  {
  }

  /** Filling another user's slot changes neither who is where nor whether this user can be told. */
  lemma StillThere(clients: seq<Client>, i: nat, p: Packet, userId: nat)
    requires i < |clients| && clients[i].userId != userId
    ensures var after := clients[i := clients[i].(pending := Some(p))];
      FindUser(after, userId) == FindUser(clients, userId) && (CanBeTold(after, userId) <==> CanBeTold(clients, userId))
  {
    var after := clients[i := clients[i].(pending := Some(p))];
    var a, b := FindUser(clients, userId), FindUser(after, userId);
    assert a < |clients| ==> IsUser(after[a], userId);
    assert b < |clients| ==> IsUser(clients[b], userId);
  }

  /** On a connection whose slot is busy the same packet is refused and nothing changes. */
  lemma QueueBusy(s: Server, i: Slot, p: Packet)
    requires s.clients[i].isOpen && s.clients[i].pending.Some? && !p.CallNotify?
    ensures Queue(s, i, p) == Outcome(s, BufferTooSmall)
  {
  }

  /** `more` continues `log` and `e` is among the new entries. */
  predicate NewlyLogged(log: seq<Entry>, more: seq<Entry>, e: Entry)
  {
    log <= more && e in more[|log|..]
  }

  lemma TailIff(log: seq<Entry>, x: Entry, y: Entry, hasX: bool, hasY: bool)
    requires x != y
    ensures var more := log + (if hasX then [x] else []) + (if hasY then [y] else []);
      && (NewlyLogged(log, more, x) <==> hasX) && (NewlyLogged(log, more, y) <==> hasY)
      && (!hasX ==> more == log + (if hasY then [y] else [])) && (!hasX && !hasY ==> more == log)
      && (!hasY ==> more == log + (if hasX then [x] else []))
  {
    var tail := (if hasX then [x] else []) + (if hasY then [y] else []);
    var more := log + (if hasX then [x] else []) + (if hasY then [y] else []);
    assert more == log + tail && more[|log|..] == tail;
  }

  // ----- private messages -----

  /** A private message that can be stored is stored. It is answered if and only if the sender's own send
      slot is free, and it is offered to the receiver if and only if, besides, the receiver is logged in on
      a connection whose send slot is free; otherwise nothing but the store knows of it. */
  lemma ChatIsOfferedIff(s: Server, i: Slot, receiver: nat, content: string, clientMessageId: nat)
    requires s.clients[i].isOpen && receiver != 0 && S.StringIsValid(content, S.MAX_MESSAGE_TEXT_LEN, false)
    requires var m := S.Message(0, 0, s.clients[i].userId, receiver, 1, content, clientMessageId, 0, 0);
      S.StorePrivateMessage(s.store, m).status == OK
    ensures var sender, ready := s.clients[i].userId, IsReady(s.clients[i]);
      var out := S.StorePrivateMessage(s.store, S.Message(0, 0, sender, receiver, 1, content, clientMessageId, 0, 0));
      var told := HandleChat(s, i, receiver, content, clientMessageId);
      var reply := Entry(i, sender, Reply(ChatGroup, OK, [out.id, out.deliveryId]));
      var notify := Entry(FindUser(s.clients, receiver), receiver,
                          ChatNotify(out.id, out.deliveryId, sender, receiver, content));
      && told.server.store == out.store && told.status == (if ready then OK else BufferTooSmall)
      && (NewlyLogged(s.log, told.server.log, reply) <==> ready)
      && (NewlyLogged(s.log, told.server.log, notify) <==> ready && CanBeTold(s.clients, receiver))
      && told.server.log == s.log + (if ready then [reply] else [])
                            + (if ready && CanBeTold(s.clients, receiver) then [notify] else [])
  {
    hide S.StringIsValid, S.StorePrivateMessage, Queue, NewlyLogged;
    var sender, ready := s.clients[i].userId, IsReady(s.clients[i]);
    var m := S.Message(0, 0, sender, receiver, 1, content, clientMessageId, 0, 0);
    var out := S.StorePrivateMessage(s.store, m);
    NotToOneself(s.store, m);
    var s0, reply := s.(store := out.store), Reply(ChatGroup, OK, [out.id, out.deliveryId]);
    var notify := ChatNotify(out.id, out.deliveryId, sender, receiver, content);
    var peer := FindUser(s.clients, receiver);
    TailIff(s.log, Entry(i, sender, reply), Entry(peer, receiver, notify), ready,
        ready && CanBeTold(s.clients, receiver));
    if ready {
      QueueReady(s0, i, reply);
      StillThere(s.clients, i, reply, receiver);
      var s1 := Queue(s0, i, reply).server;
      if CanBeTold(s.clients, receiver) { QueueReady(s1, peer, notify); }
      if peer < MAX_CLIENTS && s.clients[peer].pending.Some? { QueueBusy(s1, peer, notify); }
    } else {
      QueueBusy(s0, i, reply);
    }
  }

  lemma NotToOneself(st: S.Store, m: S.Message)
    requires S.StorePrivateMessage(st, m).status == OK
    ensures m.sender != m.receiver
  {
  }

  /** Only hang-ups are queued while connections are closed. */
  predicate OnlyHangups(log: seq<Entry>, more: seq<Entry>)
  {
    log <= more && forall k :: |log| <= k < |more| ==> more[k].packet.CallNotify?
  }

  lemma {:induction false} ClearCallsLogs(s: Server, userId: nat, k: nat)
    requires k <= MAX_CLIENTS
    ensures OnlyHangups(s.log, ClearCallsFrom(s, userId, k).log)
    decreases MAX_CLIENTS - k
  {
    if k == MAX_CLIENTS {
    } else if s.calls[k].active && InCall(s.calls[k], userId) {
      ClearCallsLogs(DropCall(s, k, userId), userId, k + 1);
    } else {
      ClearCallsLogs(s, userId, k + 1);
    }
  }

  lemma CloseLogs(s: Server, i: Slot)
    ensures var t := CloseClient(s, i); OnlyHangups(s.log, t.log) && t.clients[i] == NO_CLIENT && t.store == s.store
  {
    hide ClearCallsFrom;
    var c := s.clients[i];
    var userId := if c.authenticated then c.userId else 0;
    var s1 := if c.isOpen then s.(clients := s.clients[i := c.(isOpen := false, pending := None)]) else s;
    var s2 := ClearTransfersFor(s1, userId);
    ClearCallsLogs(s2, userId, 0);
    ClearCallsFromStore(s2, userId, 0);
  }

  lemma {:induction false} ClearCallsFromStore(s: Server, userId: nat, k: nat)
    requires k <= MAX_CLIENTS
    ensures ClearCallsFrom(s, userId, k).store == s.store
    decreases MAX_CLIENTS - k
  {
    if k == MAX_CLIENTS {
    } else if s.calls[k].active && InCall(s.calls[k], userId) {
      ClearCallsFromStore(DropCall(s, k, userId), userId, k + 1);
    } else {
      ClearCallsFromStore(s, userId, k + 1);
    }
  }

  /** A sender whose own slot could not be flushed: its message is stored, neither it nor the receiver is
      told anything of it, and its connection is closed. */
  lemma BusySenderIsCutOff(s: Server, i: Slot, receiver: nat, content: string, clientMessageId: nat)
    requires s.clients[i].isOpen && s.clients[i].pending.Some? && s.clients[i].authenticated
    requires receiver != 0 && S.StringIsValid(content, S.MAX_MESSAGE_TEXT_LEN, false)
    requires var m := S.Message(0, 0, s.clients[i].userId, receiver, 1, content, clientMessageId, 0, 0);
      S.StorePrivateMessage(s.store, m).status == OK
    ensures var out := S.StorePrivateMessage(s.store,
        S.Message(0, 0, s.clients[i].userId, receiver, 1, content, clientMessageId, 0, 0));
      var t := Serve(s, i, ClientIo(Blocked, Received(Chat(receiver, content, clientMessageId))));
      t.store == out.store && t.clients[i] == NO_CLIENT && OnlyHangups(s.log, t.log)
  {
    hide CloseClient, HandleChat, S.StorePrivateMessage, S.StringIsValid;
    ChatIsOfferedIff(s, i, receiver, content, clientMessageId);
    CloseLogs(HandleChat(s, i, receiver, content, clientMessageId).server, i);
  }

  // ----- group messages -----

  function GroupEntry(clients: seq<Client>, sender: nat, member: nat, conversationId: nat, messageId: nat,
        content: string): Entry
  {
    Entry(FindUser(clients, member), member, GroupNotify(conversationId, messageId, sender, member, content))
  }

  /** One entry, in member order, for each listed member but the sender that can be told. */
  function Offers(clients: seq<Client>, sender: nat, members: seq<nat>, conversationId: nat, messageId: nat,
      content: string): seq<Entry>
    decreases |members|
  {
    if members == [] then []
    else
      (if members[0] != sender && CanBeTold(clients, members[0])
       then [GroupEntry(clients, sender, members[0], conversationId, messageId, content)] else [])
      + Offers(clients, sender, members[1..], conversationId, messageId, content)
  }

  /** Filling the slot of a user who is not among the members changes no offer. */
  lemma {:induction false} OffersStill(clients: seq<Client>, i: nat, p: Packet, sender: nat, members: seq<nat>,
        conversationId: nat, messageId: nat, content: string)
    requires i < |clients| && forall k :: 0 <= k < |members| ==> members[k] == sender || members[k] != clients[i].userId
    ensures Offers(clients[i := clients[i].(pending := Some(p))], sender, members, conversationId, messageId, content)
         == Offers(clients, sender, members, conversationId, messageId, content)
    decreases |members|
  {
    hide CanBeTold;
    if members == [] {
    } else {
      if members[0] != sender { StillThere(clients, i, p, members[0]); }
      OffersStill(clients, i, p, sender, members[1..], conversationId, messageId, content);
    }
  }

  /** The state after the first member's turn in the fan-out. */
  function FanOutNext(s: Server, i: Slot, member: nat, conversationId: nat, messageId: nat, content: string): Server
  {
    var sender, peer := s.clients[i].userId, FindUser(s.clients, member);
    if member == sender || peer == MAX_CLIENTS then s
    else Queue(s, peer, GroupNotify(conversationId, messageId, sender, member, content)).server
  }

  /** That turn queues the member's offer, if there is one, and changes no other. */
  lemma FanOutStep(s: Server, i: Slot, members: seq<nat>, conversationId: nat, messageId: nat, content: string)
    requires L.Distinct(members) && members != []
    ensures var t, sender, rest := FanOutNext(s, i, members[0], conversationId, messageId, content),
              s.clients[i].userId, members[1..];
      && t.clients[i].userId == sender && t.store == s.store && L.Distinct(rest)
      && t.log + Offers(t.clients, sender, rest, conversationId, messageId, content)
           == s.log + Offers(s.clients, sender, members, conversationId, messageId, content)
  {
    hide Queue, L.Distinct, FindUser;
    var sender, member, rest := s.clients[i].userId, members[0], members[1..];
    var peer := FindUser(s.clients, member);
    var p := GroupNotify(conversationId, messageId, sender, member, content);
    TailDistinct(members);
    OffersCons(s, sender, members, conversationId, messageId, content);
    if member != sender && peer < MAX_CLIENTS {
      if s.clients[peer].pending.None? {
        QueueReady(s, peer, p);
        OffersStill(s.clients, peer, p, sender, rest, conversationId, messageId, content);
      } else {
        QueueBusy(s, peer, p);
      }
    }
  }

  lemma OffersCons(s: Server, sender: nat, members: seq<nat>, conversationId: nat, messageId: nat, content: string)
    requires members != []
    ensures var all := s.log + Offers(s.clients, sender, members, conversationId, messageId, content);
      var others := Offers(s.clients, sender, members[1..], conversationId, messageId, content);
      if members[0] != sender && CanBeTold(s.clients, members[0])
      then all == (s.log + [GroupEntry(s.clients, sender, members[0], conversationId, messageId, content)]) + others
      else all == s.log + others
  {
    hide CanBeTold, GroupEntry;
    var others := Offers(s.clients, sender, members[1..], conversationId, messageId, content);
    Reassociate(s.log, [GroupEntry(s.clients, sender, members[0], conversationId, messageId, content)], others);
    assert [] + others == others;
  }

  /** The fan-out queues exactly those offers. */
  lemma {:induction false} FanOutExact(s: Server, i: Slot, members: seq<nat>, conversationId: nat, messageId: nat,
        content: string)
    requires L.Distinct(members)
    ensures FanOut(s, i, members, conversationId, messageId, content).log
         == s.log + Offers(s.clients, s.clients[i].userId, members, conversationId, messageId, content)
    ensures FanOut(s, i, members, conversationId, messageId, content).store == s.store
    decreases |members|
  {
    hide Queue, L.Distinct, CanBeTold, FindUser;
    if members == [] {
      assert s.log + [] == s.log;
    } else {
      FanOutStep(s, i, members, conversationId, messageId, content);
      FanOutExact(FanOutNext(s, i, members[0], conversationId, messageId, content), i, members[1..], conversationId,
          messageId, content);
    }
  }

  lemma TailDistinct(members: seq<nat>)
    requires L.Distinct(members) && members != []
    ensures L.Distinct(members[1..]) && members[0] !in members[1..]
  {
  }

  /** Among the offers there is one for a user exactly when it is a listed member other than the sender
      that can be told, and no user gets two. */
  lemma {:induction false} OfferedIff(clients: seq<Client>, sender: nat, members: seq<nat>, conversationId: nat,
        messageId: nat, content: string, e: Entry)
    requires L.Distinct(members)
    ensures var offers := Offers(clients, sender, members, conversationId, messageId, content);
      && (e in offers <==> e.user in members && e.user != sender && CanBeTold(clients, e.user)
                           && e == GroupEntry(clients, sender, e.user, conversationId, messageId, content))
      && (forall m, n :: 0 <= m < n < |offers| ==> offers[m].user != offers[n].user)
      && (forall m :: 0 <= m < |offers| ==> offers[m].user in members)
    decreases |members|
  {
    hide CanBeTold, L.Distinct;
    if members == [] {
    } else {
      TailDistinct(members);
      assert members == [members[0]] + members[1..];
      OfferedIff(clients, sender, members[1..], conversationId, messageId, content, e);
    }
  }

  lemma ListedGroup(st: S.Store, m: S.Message)
    requires L.StoreOk(st) && S.StoreGroupMessage(st, m).status == OK
    ensures var out := S.StoreGroupMessage(st, m);
      var members := S.MembersOf(st.members, m.conversationId);
      S.ListGroupMembers(out.store, m.conversationId, S.MAX_GROUP_MEMBERS) == S.Listing(OK, |members|, members)
          && L.Distinct(members)
  {
    hide L.StoreOk, S.MembersOf;
    var out := S.StoreGroupMessage(st, m);
    var k := S.FindConversation(st, m.conversationId);
    L.StoreGroupKeeps(st, m);
    GroupById(st, k);
    L.GroupFanOutFits(out.store, m.conversationId);
  }

  lemma GroupById(st: S.Store, k: nat)
    requires L.StoreOk(st) && k < |st.conversations| && st.conversations[k].isGroup
    ensures st.conversations[k].id == k + 1 && L.Distinct(S.MembersOf(st.members, k + 1))
  {
    hide L.MessagesOk, L.DeliveriesOk, L.FilesOk, L.AccountsOk, L.Distinct, S.MembersOf;
  }

  /** A group message that can be stored is stored; it is answered if and only if the sender's own send slot
      is free, and then exactly the members that can be told are offered it, once each. */
  lemma GroupMessageIsOfferedIff(s: Server, i: Slot, conversationId: nat, content: string, clientMessageId: nat)
    requires Inv(s) && s.clients[i].isOpen && conversationId != 0
        && S.StringIsValid(content, S.MAX_MESSAGE_TEXT_LEN, false)
    requires var m := S.Message(0, conversationId, s.clients[i].userId, 0, 1, content, clientMessageId, 0, 0);
      S.StoreGroupMessage(s.store, m).status == OK
    ensures var sender, ready := s.clients[i].userId, IsReady(s.clients[i]);
      var out := S.StoreGroupMessage(s.store,
          S.Message(0, conversationId, sender, 0, 1, content, clientMessageId, 0, 0));
      var told := HandleGroupSend(s, i, conversationId, content, clientMessageId);
      var members := S.MembersOf(s.store.members, conversationId);
      && told.server.store == out.store && told.status == (if ready then OK else BufferTooSmall)
      && told.server.log
         == s.log + (if ready
                     then [Entry(i, sender, Reply(ConversationGroup, OK, [conversationId, out.id]))]
                          + Offers(s.clients, sender, members, conversationId, out.id, content)
                     else [])
  {
    hide Inv, L.StoreOk, S.StringIsValid, S.StoreGroupMessage, S.ListGroupMembers, S.MembersOf, FanOut, Offers,
      Queue, L.Distinct;
    StoreOfInv(s);
    var sender := s.clients[i].userId;
    var m := S.Message(0, conversationId, sender, 0, 1, content, clientMessageId, 0, 0);
    var out := S.StoreGroupMessage(s.store, m);
    var members := S.MembersOf(s.store.members, conversationId);
    ListedGroup(s.store, m);
    var s0, reply := s.(store := out.store), Reply(ConversationGroup, OK, [conversationId, out.id]);
    if IsReady(s.clients[i]) {
      QueueReady(s0, i, reply);
      OffersStill(s.clients, i, reply, sender, members, conversationId, out.id, content);
      FanOutExact(Queue(s0, i, reply).server, i, members, conversationId, out.id, content);
      Reassociate(s.log, [Entry(i, sender, reply)],
          Offers(s.clients, sender, members, conversationId, out.id, content));
    } else {
      QueueBusy(s0, i, reply);
    }
  }

  // ----- completed transfers -----

  /** Completing a fully relayed transfer always marks its record. The receiver is told if and only if it is
      logged in on a connection whose send slot is free, whether or not the sender can be answered. */
  lemma CompletionIsToldIff(s: Server, i: Slot, transferId: nat)
    requires Inv(s) && s.clients[i].isOpen
    requires var k := FindTransfer(s.transfers, transferId);
      && k < MAX_CLIENTS && s.transfers[k].sender == s.clients[i].userId
      && s.transfers[k].bytesSeen == s.transfers[k].fileSize
    ensures var t, ready := s.transfers[FindTransfer(s.transfers, transferId)], IsReady(s.clients[i]);
      var told := HandleFileComplete(s, i, transferId);
      var notify := Entry(FindUser(s.clients, t.receiver), t.receiver, FileComplete(t.id, t.sender, t.receiver));
      var reply := Entry(i, t.sender, Reply(FileGroup, OK, [t.id, t.messageId, t.deliveryId]));
      && told.status == (if ready then OK else BufferTooSmall)
      && 1 <= t.storageId <= |told.server.store.files| && told.server.store.files[t.storageId - 1].completed
      && (NewlyLogged(s.log, told.server.log, notify) <==> CanBeTold(s.clients, t.receiver))
      && told.server.log == s.log + (if CanBeTold(s.clients, t.receiver) then [notify] else [])
          + (if ready then [reply] else [])
  {
    hide Inv, S.CompleteFileTransfer, Queue, NewlyLogged;
    var k := FindTransfer(s.transfers, transferId);
    var t := s.transfers[k];
    TransferRecord(s, k);
    MarkedCompleted(s.store, t.storageId);
    var p, peer := FileComplete(t.id, t.sender, t.receiver), FindUser(s.clients, t.receiver);
    var told := TellCompleted(s, t);
    if CanBeTold(s.clients, t.receiver) { QueueReady(s, peer, p); }
    if peer < MAX_CLIENTS && s.clients[peer].pending.Some? { QueueBusy(s, peer, p); }
    var stored := told.(store := S.CompleteFileTransfer(told.store, t.storageId).store);
    var reply := Reply(FileGroup, OK, [t.id, t.messageId, t.deliveryId]);
    TailIff(s.log, Entry(peer, t.receiver, p), Entry(i, t.sender, reply), CanBeTold(s.clients, t.receiver),
        IsReady(s.clients[i]));
    if IsReady(s.clients[i]) { QueueReady(stored, i, reply); } else { QueueBusy(stored, i, reply); }
  }

  lemma TransferRecord(s: Server, k: Slot)
    requires Inv(s) && s.transfers[k].active
    ensures s.transfers[k].sender != s.transfers[k].receiver && 1 <= s.transfers[k].storageId <= |s.store.files|
    ensures L.StoreOk(s.store)
  {
    hide CallsOk, ClientsOk, LogOk, L.StoreOk, FileTracesOk, RecordsOk, FileTrace, Relayed;
    assert TransferOk(s.transfers[k], s.nextTransfer, s.store.files, FileTrace(s.log, s.transfers[k].id));
  }

  lemma MarkedCompleted(st: S.Store, id: nat)
    requires L.StoreOk(st) && 1 <= id <= |st.files|
    ensures var after := S.CompleteFileTransfer(st, id).store;
        |after.files| == |st.files| && after.files[id - 1].completed
  {
    hide L.StoreOk;
    FindFileById(st, id);
  }
}
