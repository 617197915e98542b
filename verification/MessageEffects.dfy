/** What requests about messages do to the server, and the answers to requests that are refused. */
module MessageEffects {
  import opened Wire
  import opened Server
  import opened ServerLaws
  import opened ServerSteps
  import opened Delivery
  import opened CallEffects
  import opened FileEffects
  import S = Storage
  import L = StorageLaws
  import X = StorageEffects
  import U = UserBlob

  // ----- refusals -----

  /** The group that answers a request. */
  function AnsweredBy(r: Request): Group
  {
    match r
    case Malformed(group, _) => group
    case Register(_, _, _, _) => AuthGroup
    case Login(_, _) => AuthGroup
    case OtherAuth => AuthGroup
    case Heartbeat => AuthGroup
    case Chat(_, _, _) => ChatGroup
    case GroupCreate(_, _) => ConversationGroup
    case GroupSend(_, _, _) => ConversationGroup
    case OtherConversation => ConversationGroup
    case StartFile(_, _, _, _, _) => FileGroup
    case SendChunk(_, _, _) => FileGroup
    case CompleteFile(_) => FileGroup
    case OtherFile => FileGroup
    case OnlineList => UserGroup
    case OtherUser => UserGroup
    case CallRequest(_, _, _, _, _) => CallGroup
    case Unsupported => ErrorGroup
  }

  /** A refusal names its group and status; that of a user request is an empty list with the status. */
  function Refusal(group: Group, status: Status): Packet
  {
    if group == UserGroup then UserList(status, []) else Reply(group, status, [])
  }

  /** Before a login only requests to log in, heartbeats and unsupported ones get anything but a refusal. */
  lemma LoginRequired(s: Server, i: Slot, r: Request)
    requires s.clients[i].isOpen && !s.clients[i].authenticated && AnsweredBy(r) !in {AuthGroup, ErrorGroup}
    ensures Dispatch(s, i, r) == Answered(s, i, Refusal(AnsweredBy(r), InvalidState))
  {
  }

  /** Requests that could not be parsed or are unknown are answered with the reason; a heartbeat is returned. */
  lemma PlainAnswers(s: Server, i: Slot, r: Request)
    requires s.clients[i].isOpen && (s.clients[i].authenticated || AnsweredBy(r) in {AuthGroup, ErrorGroup})
    ensures r.Malformed? ==> Dispatch(s, i, r) == Answered(s, i, Refusal(r.group, r.status))
    ensures r.OtherAuth? || r.OtherConversation? || r.OtherFile? || r.OtherUser? ==>
              Dispatch(s, i, r) == Answered(s, i, Refusal(AnsweredBy(r), InvalidArgument))
    ensures r.Unsupported? ==> Dispatch(s, i, r) == Answered(s, i, Reply(ErrorGroup, UnsupportedField, []))
    ensures r.Heartbeat? ==> Dispatch(s, i, r) == Answered(s, i, HeartbeatReply)
  {
  }

  /** The list of who is online is that of the users logged in on the other connections. */
  lemma OnlineListAnswered(s: Server, i: Slot, u: OnlineUser)
    requires s.clients[i].isOpen && s.clients[i].authenticated
    ensures var users := OnlineBelow(s.clients, i, 16);
      && Dispatch(s, i, OnlineList) == Answered(s, i, UserList(OK, users))
      && (u in users <==> exists j: Slot :: j != i && s.clients[j].isOpen && s.clients[j].authenticated
                            && u == OnlineUser(s.clients[j].userId, s.clients[j].username))
  {
    hide OnlineBelow;
    U.OnlineMembers(s.clients, i, 16, u);
    forall j: Slot
      ensures IsUser(s.clients[j], u.userId) && s.clients[j].username == u.username <==>
        s.clients[j].isOpen && s.clients[j].authenticated && u == OnlineUser(s.clients[j].userId, s.clients[j].username)
    {
    }
  }

  // ----- private messages -----

  /** A message without a receiver or with a text that is not between 1 and 4096 long is refused, and so is one
      that cannot be stored, with the storage's reason. */
  lemma ChatRefused(s: Server, i: Slot, to: nat, text: string, id: nat)
    requires s.clients[i].isOpen && s.clients[i].authenticated
    ensures var out, storing := Dispatch(s, i, Chat(to, text, id)), StoringText(s, i, to, text, id);
      && (to == 0 || !X.IsText(text, 4096) ==> out == Answered(s, i, Reply(ChatGroup, InvalidArgument, [])))
      && (to != 0 && X.IsText(text, 4096) && storing.status != OK ==>
            out == Answered(s, i, Reply(ChatGroup, storing.status, [])))
  {
    hide Queue, Answered, S.StorePrivateMessage, FindUser;
    AllReplies(s, i);
  }

  /** The storing of a text from the user on slot `i`. */
  function StoringText(s: Server, i: Slot, to: nat, text: string, id: nat): S.Out
  {
    S.StorePrivateMessage(s.store, S.Message(0, 0, s.clients[i].userId, to, 1, text, id, 0, 0))
  }

  /** A message that can be stored is stored. Its sender is told its numbers if its own slot is free, and then
      its receiver of the text, as it was submitted, if that one is on a free slot; nothing else changes. */
  lemma ChatExact(s: Server, i: Slot, to: nat, text: string, id: nat, j: Slot)
    requires Inv(s) && s.clients[i].isOpen && s.clients[i].authenticated
    requires to != 0 && X.IsText(text, 4096) && StoringText(s, i, to, text, id).status == OK
    ensures var out, stored := Dispatch(s, i, Chat(to, text, id)), s.(store := StoringText(s, i, to, text, id).store);
      var messageId, deliveryId := |s.store.messages| + 1, |s.store.deliveries| + 1;
      var reply := Reply(ChatGroup, OK, [messageId, deliveryId]);
      var notify := ChatNotify(messageId, deliveryId, s.clients[i].userId, to, text);
      && (s.clients[i].pending.Some? ==> out == Outcome(stored, BufferTooSmall))
      && (s.clients[i].pending.None? && IsAt(s, to, j) ==>
            i != j && out == Outcome(if s.clients[j].pending.None? then Given(Given(stored, i, reply), j, notify)
                                     else Given(stored, i, reply), OK))
      && (s.clients[i].pending.None? && IsAway(s, to) ==> out == Outcome(Given(stored, i, reply), OK))
  {
    hide Inv, S.StorePrivateMessage, FindUser, L.StoreOk, X.PairAdded, X.HasPlace;
    StoreOfInv(s);
    var m := S.Message(0, 0, s.clients[i].userId, to, 1, text, id, 0, 0);
    X.PrivateStored(s.store, m);
    NotToOneself(s.store, m);
    PlaceOf(s, to, j);
    StillThere(s.clients, i, Reply(ChatGroup, OK, [|s.store.messages| + 1, |s.store.deliveries| + 1]), to);
  }

  // ----- groups -----

  /** A new group is answered with its number, or with the storage's reason why not. */
  lemma GroupCreateExact(s: Server, i: Slot, name: string, ids: seq<nat>)
    requires s.clients[i].isOpen && s.clients[i].authenticated
    ensures var making := S.CreateGroup(s.store, name, s.clients[i].userId, ids);
      Dispatch(s, i, GroupCreate(name, ids))
        == if making.status == OK then Answered(s.(store := making.store), i, Reply(ConversationGroup, OK, [making.id]))
           else Answered(s, i, Reply(ConversationGroup, making.status, []))
  {
    hide Queue, Answered, S.CreateGroup;
    L.AllOrNothing(s.store, L.OpCreateGroup(name, s.clients[i].userId, ids));
    AllReplies(s, i);
  }

  function StoringGroupText(s: Server, i: Slot, group: nat, text: string, id: nat): S.Out
  {
    S.StoreGroupMessage(s.store, S.Message(0, group, s.clients[i].userId, 0, 1, text, id, 0, 0))
  }

  lemma GroupSendRefused(s: Server, i: Slot, group: nat, text: string, id: nat)
    requires s.clients[i].isOpen && s.clients[i].authenticated
    ensures var out, storing := Dispatch(s, i, GroupSend(group, text, id)), StoringGroupText(s, i, group, text, id);
      && (group == 0 || !X.IsText(text, 4096) ==> out == Answered(s, i, Reply(ConversationGroup, InvalidArgument, [])))
      && (group != 0 && X.IsText(text, 4096) && storing.status != OK ==>
            out == Answered(s, i, Reply(ConversationGroup, storing.status, [])))
  {
    hide Queue, Answered, S.StoreGroupMessage, S.ListGroupMembers, FanOut;
    AllReplies(s, i);
  }

  lemma {:induction false} FanOutFrame(s: Server, i: Slot, members: seq<nat>, group: nat, messageId: nat, text: string)
    ensures var t := FanOut(s, i, members, group, messageId, text);
      t == s.(clients := t.clients, log := t.log) && SameClients(s.clients, t.clients)
    decreases |members|
  {
    hide Queue, SameClients;
    SameClientsRefl(s.clients);
    if members == [] {
    } else {
      var peer := FindUser(s.clients, members[0]);
      var p := GroupNotify(group, messageId, s.clients[i].userId, members[0], text);
      if peer < MAX_CLIENTS { QueueFrame(s, peer, p); }
      var s1 := if members[0] == s.clients[i].userId || peer == MAX_CLIENTS then s else Queue(s, peer, p).server;
      FanOutFrame(s1, i, members[1..], group, messageId, text);
      SameClientsTrans(s.clients, s1.clients, FanOut(s1, i, members[1..], group, messageId, text).clients);
    }
  }

  /** A group message that can be stored adds its row to the store; what is logged of it is
      `GroupMessageIsOfferedIff`, and besides that only send slots change. */
  lemma GroupSendFrame(s: Server, i: Slot, group: nat, text: string, id: nat)
    requires Inv(s) && s.clients[i].isOpen && s.clients[i].authenticated
    requires group != 0 && X.IsText(text, 4096) && StoringGroupText(s, i, group, text, id).status == OK
    ensures var t := Dispatch(s, i, GroupSend(group, text, id)).server;
      var m := S.Message(0, group, s.clients[i].userId, 0, 1, text, id, 0, 0);
      var row := X.Row(m, |s.store.messages| + 1, group, 0);
      && SameClients(s.clients, t.clients)
      && t == s.(clients := t.clients, log := t.log, store := t.store)
      && t.store == s.store.(messages := s.store.messages + [row], nextMessageId := |s.store.messages| + 2)
  {
    hide Inv, Queue, S.StoreGroupMessage, S.ListGroupMembers, FanOut, SameClients, X.IsMember, L.StoreOk;
    StoreOfInv(s);
    X.GroupTextStored(s.store, S.Message(0, group, s.clients[i].userId, 0, 1, text, id, 0, 0));
    var out := StoringGroupText(s, i, group, text, id);
    var s0, p := s.(store := out.store), Reply(ConversationGroup, OK, [group, out.id]);
    QueueFrame(s0, i, p);
    SameClientsRefl(s.clients);
    var s1 := Queue(s0, i, p).server;
    var members := S.ListGroupMembers(out.store, group, S.MAX_GROUP_MEMBERS).rows;
    FanOutFrame(s1, i, members, group, out.id, text);
    SameClientsTrans(s.clients, s1.clients, FanOut(s1, i, members, group, out.id, text).clients);
  }
}
