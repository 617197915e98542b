/** Short runs from empty tables in which something is lost or left behind. */
module Scenarios {
  import opened Wire
  import opened Server
  import opened ServerLaws
  import opened ServerSteps
  import opened Delivery
  import opened Presence
  import S = Storage
  import R = Refusals
  import T = ServerTheorems

  const HELLO := NO_CLIENT.(isOpen := true)

  function Asks(i: Slot, r: Request): Event { Turn(i, ClientIo(Sent, Received(r))) }

  function SignUp(name: string): Request { Register(name, None, "h", "s") }

  lemma RunCons(s: Server, e: Event, rest: seq<Event>)
    ensures Run(s, [e] + rest) == Run(Step(s, e), rest)
  {
    hide Step;
    assert ([e] + rest)[1..] == rest;
  }

  lemma RunSnoc(events: seq<Event>, e: Event)
    ensures T.After(events + [e]) == Step(T.After(events), e)
  {
    hide Step, Run;
    T.RunAppend(START, events, [e]);
    T.RunOne(T.After(events), e);
  }

  // ----- two users sign up -----

  lemma TwoArrive()
    ensures AcceptClients(START, 2) == START.(clients := START.clients[0 := HELLO][1 := HELLO])
  {
    var s1 := START.(clients := START.clients[0 := HELLO]);
    var s2 := s1.(clients := s1.clients[1 := HELLO]);
    assert FindClosed(START.clients) == 0;
    assert s1.clients[0].isOpen && !s1.clients[1].isOpen && FindClosed(s1.clients) == 1;
    assert s2.clients[0].isOpen && s2.clients[1].isOpen && !s2.clients[2].isOpen && FindClosed(s2.clients) == 2;
    assert s2.clients[2 := NO_CLIENT] == s2.clients;
    assert AcceptClients(s2, 0) == s2;
    assert AcceptClients(s1, 1) == AcceptClients(s2, 0);
  }

  function Member(id: nat, session: nat, name: string): Client
  {
    Client(true, Some(Reply(AuthGroup, OK, [id, session])), true, id, session, name)
  }

  /** The state after somebody has signed up under a new name. */
  function SignedUp(s: Server, i: Slot, name: string): Server
  {
    var id := s.store.nextUserId;
    s.(store := S.CreateAccount(s.store, name, None, "h", "s").store,
       clients := s.clients[i := Member(id, s.nextSession, name)], nextSession := s.nextSession + 1,
       log := s.log + [Entry(i, id, Reply(AuthGroup, OK, [id, s.nextSession]))])
  }

  lemma SignUpTurn(s: Server, i: Slot, name: string)
    requires s.clients[i].isOpen && S.CreateAccount(s.store, name, None, "h", "s").status == OK
    requires forall j :: 0 <= j < MAX_CLIENTS && j != i ==> !IsUser(s.clients[j], s.store.nextUserId)
    ensures Step(s, Asks(i, SignUp(name))) == SignedUp(s, i, name)
  {
    hide KickOthersFrom;
    var s1 := s.(clients := s.clients[i := s.clients[i].(pending := None)]);
    var s2 := s1.(store := S.CreateAccount(s.store, name, None, "h", "s").store);
    R.KickNobody(s2, i, s.store.nextUserId, 0);
  }

  const OPENING := [Arrive(2), Asks(0, SignUp("a")), Asks(1, SignUp("b"))]

  /** Users 1 and 2 are logged in on slots 0 and 1; the replies to their sign-ups are still pending. */
  predicate Opened(s: Server)
  {
    && s.clients[0] == Member(1, 1, "a") && s.clients[1] == Member(2, 2, "b")
    && (forall j :: 2 <= j < MAX_CLIENTS ==> s.clients[j] == NO_CLIENT)
    && s.calls == Slots(NO_CALL) && s.transfers == Slots(NO_TRANSFER)
    && s.nextCall == 1 && s.nextTransfer == 1
    && s.store == TwoAccounts() && |s.log| == 2 && s.log[0].packet.Reply? && s.log[1].packet.Reply?
  }

  function OneAccount(): S.Store
  {
    S.EMPTY.(accounts := [S.Account(1, "a", "a", "h", "s", true, 0)], nextUserId := 2)
  }

  function TwoAccounts(): S.Store
  {
    S.EMPTY.(accounts := [S.Account(1, "a", "a", "h", "s", true, 0), S.Account(2, "b", "b", "h", "s", true, 0)],
        nextUserId := 3)
  }

  lemma Accounts()
    ensures S.CreateAccount(S.EMPTY, "a", None, "h", "s") == S.Done(OneAccount(), 1)
    ensures S.CreateAccount(OneAccount(), "b", None, "h", "s") == S.Done(TwoAccounts(), 2)
    ensures S.CreateAccount(TwoAccounts(), "c", None, "h", "s").status == OK
    ensures S.CreateAccount(TwoAccounts(), "c", None, "h", "s").id == 3
  {
    hide S.First, S.FindAccountByName;
    assert "a" != "b" && "a" != "c" && "b" != "c";
  }

  lemma AfterOpening()
    ensures Opened(T.After(OPENING))
  {
    hide Step, Run, S.CreateAccount;
    Accounts();
    TwoArrive();
    var s1 := START.(clients := START.clients[0 := HELLO][1 := HELLO]);
    RunCons(START, Arrive(2), [Asks(0, SignUp("a")), Asks(1, SignUp("b"))]);
    ArriveStep();
    SignUpTurn(s1, 0, "a");
    var s2 := SignedUp(s1, 0, "a");
    RunCons(s1, Asks(0, SignUp("a")), [Asks(1, SignUp("b"))]);
    SignUpTurn(s2, 1, "b");
    T.RunOne(s2, Asks(1, SignUp("b")));
    assert [Arrive(2)] + [Asks(0, SignUp("a")), Asks(1, SignUp("b"))] == OPENING;
    assert [Asks(0, SignUp("a"))] + [Asks(1, SignUp("b"))] == [Asks(0, SignUp("a")), Asks(1, SignUp("b"))];
  }

  lemma ArriveStep()
    ensures Step(START, Arrive(2)) == AcceptClients(START, 2)
  {
  }

  // ----- a message nobody is told of -----

  const GREETING := Chat(2, "hi", 1)

  function Greeting(): S.Message { S.Message(0, 0, 1, 2, 1, "hi", 1, 0, 0) }

  lemma GreetingIsStored()
    ensures var out := S.StorePrivateMessage(TwoAccounts(), Greeting()); out.status == OK && |out.store.messages| == 1
  {
    hide S.First, S.FindAccountById;
    assert TwoAccounts().accounts[0].userId == 1 && TwoAccounts().accounts[1].userId == 2;
  }

  predicate Untold(s: Server)
  {
    |s.store.messages| == 1 && forall k :: 0 <= k < |s.log| ==> !s.log[k].packet.ChatNotify?
  }

  /** User 1 greets user 2, whose slot still holds the reply to its sign-up: the message is stored and
      answered, and user 2 is not told. */
  lemma GreetingCanBeLost()
    ensures Untold(T.After(OPENING + [Asks(0, GREETING)]))
  {
    hide Run, S.StorePrivateMessage, CloseClient, HandleChat;
    AfterOpening();
    RunSnoc(OPENING, Asks(0, GREETING));
    GreetingIsStored();
    var s := T.After(OPENING);
    var s1 := s.(clients := s.clients[0 := s.clients[0].(pending := None)]);
    ChatIsOfferedIff(s1, 0, 2, "hi", 1);
    assert IsUser(s1.clients[1], 2) && !IsUser(s1.clients[0], 2) && FindUser(s1.clients, 2) == 1;
  }

  const READY := [Turn(1, ClientIo(Sent, Nothing))]

  /** The opening, and user 2 can be told things. */
  predicate Listens(s: Server)
  {
    Opened(s.(clients := s.clients[1 := Member(2, 2, "b")])) && s.clients[1] == Member(2, 2, "b").(pending := None)
  }

  lemma AfterReady()
    ensures Listens(T.After(OPENING + READY))
  {
    hide Run;
    AfterOpening();
    RunSnoc(OPENING, READY[0]);
    var s := T.After(OPENING);
    assert s.clients[1 := s.clients[1].(pending := None)][1 := Member(2, 2, "b")] == s.clients;
    assert OPENING + READY == OPENING + [READY[0]];
  }

  /** User 1 greets user 2, who could be told, while its own slot cannot be flushed: the message is stored,
      user 2 is not told, and user 1 is disconnected. */
  lemma GreetingCanCutOff()
    ensures var t := T.After(OPENING + READY + [Turn(0, ClientIo(Blocked, Received(GREETING)))]);
      Untold(t) && t.clients[0] == NO_CLIENT
    ensures CanBeTold(T.After(OPENING + READY).clients, 2)
  {
    hide Run, Serve, S.StorePrivateMessage;
    AfterReady();
    RunSnoc(OPENING + READY, Turn(0, ClientIo(Blocked, Received(GREETING))));
    GreetingIsStored();
    var s := T.After(OPENING + READY);
    BusySenderIsCutOff(s, 0, 2, "hi", 1);
    assert IsUser(s.clients[1], 2) && !IsUser(s.clients[0], 2) && FindUser(s.clients, 2) == 1;
  }

  // ----- a call whose caller has left -----

  const INVITE := CallRequest(Invite, 0, 2, "", NO_SIGNAL)

  predicate Ringing(s: Server)
  {
    && s.calls[0] == Call(true, 1, 1, 2, false, "audio")
    && s.clients[0].isOpen && s.clients[0].authenticated && s.clients[0].userId == 1
    && IsUser(s.clients[1], 2) && s.store == TwoAccounts()
  }

  lemma AfterInvite()
    ensures Ringing(T.After(OPENING + READY + [Asks(0, INVITE)]))
  {
    hide Run, CloseClient, CallBodyLength;
    AfterReady();
    RunSnoc(OPENING + READY, Asks(0, INVITE));
    InviteFits();
    var s := T.After(OPENING + READY);
    var s1 := s.(clients := s.clients[0 := s.clients[0].(pending := None)]);
    assert IsUser(s1.clients[1], 2) && !IsUser(s1.clients[0], 2) && FindUser(s1.clients, 2) == 1;
    assert FindFreeCall(s1.calls) == 0;
  }

  lemma InviteFits()
    ensures CallBodyLength(Invite, "audio", NO_SIGNAL) <= CALL_BODY_CAPACITY
  {
  }

  /** User 1, who is calling user 2, signs up as somebody else on the same connection: between this turn and
      the end of the pass the call is still active and its caller is not online. */
  lemma CallCanBeDeserted()
    ensures var t := T.After(OPENING + READY + [Asks(0, INVITE)] + [Asks(0, SignUp("c"))]); !BothOnline(t)
    ensures BothOnline(T.After(OPENING + READY + [Asks(0, INVITE)]))
  {
    hide Run, Serve, BothOnline, Engaged, S.CreateAccount;
    var calling := OPENING + READY + [Asks(0, INVITE)];
    AfterInvite();
    RunSnoc(calling, Asks(0, SignUp("c")));
    T.AfterOk(calling);
    CallingIsUp();
    Accounts();
    var s := T.After(calling);
    assert CallWithout(s.calls[0], 1, 3);
    EngagedIn(s, 0, 1, 3);
    TurnKeepsBothOnlineIff(s, 0, ClientIo(Sent, Received(SignUp("c"))));
  }

  lemma EngagedIn(s: Server, k: Slot, user: nat, other: nat)
    requires CallWithout(s.calls[k], user, other)
    ensures Engaged(s, user, other)
  {
  }

  lemma CallingIsUp()
    ensures BothOnline(T.After(OPENING + READY + [Asks(0, INVITE)]))
  {
    hide Run, Serve, BothOnline, Relogin;
    AfterReady();
    ReadyIsUp();
    T.AfterOk(OPENING + READY);
    RunSnoc(OPENING + READY, Asks(0, INVITE));
    var s := T.After(OPENING + READY);
    TurnKeepsBothOnlineIff(s, 0, ClientIo(Sent, Received(INVITE)));
    InviteIsNoLogin(s);
  }

  lemma InviteIsNoLogin(s: Server)
    ensures !Relogin(s, 0, ClientIo(Sent, Received(INVITE)))
  {
  }

  lemma ReadyIsUp()
    ensures BothOnline(T.After(OPENING + READY))
  {
    hide Run, IsOnline;
    AfterReady();
  }

  /** User 1, who is calling user 2, logs in as user 2 on the same connection: user 2's other connection is
      kicked, the hang-up that follows fills the slot that the reply needs, and the connection is closed. */
  lemma CallerCutsItselfOff()
    ensures var t := T.After(OPENING + READY + [Asks(0, INVITE)] + [Asks(0, Login("b", "h"))]); !t.clients[0].isOpen
  {
    hide Run, Serve, R.Reachable, R.MustTell;
    var calling := OPENING + READY + [Asks(0, INVITE)];
    AfterInvite();
    RunSnoc(calling, Asks(0, Login("b", "h")));
    T.AfterOk(calling);
    var s := T.After(calling);
    var s1 := s.(clients := s.clients[0 := s.clients[0].(pending := None)]);
    LoginOfTwo();
    assert R.IsCallOf(s1.calls[0], 2) && IsUser(s1.clients[0], PeerOf(s1.calls[0], 2)) && IsUser(s1.clients[1], 2);
    R.TurnSurvivesIff(s, 0, Sent, Login("b", "h"));
  }

  lemma LoginOfTwo()
    ensures LoginAs(TwoAccounts(), Login("b", "h")) == Some(2)
  {
    hide S.First, S.FindAccountByName;
    assert "a" != "b" && TwoAccounts().accounts[1].username == "b";
  }

  // ----- a peer that is busy, and a signalling text that is too long -----

  lemma SecondUser(clients: seq<Client>)
    requires |clients| == MAX_CLIENTS && clients[0].userId == 1 && IsUser(clients[1], 2)
    ensures FindUser(clients, 2) == 1 && IsOnline(clients, 2)
    ensures CanBeTold(clients, 2) <==> clients[1].pending.None?
  {
    assert !IsUser(clients[0], 2);
  }

  function Flushed(s: Server, i: Slot): Server { s.(clients := s.clients[i := s.clients[i].(pending := None)]) }

  lemma MustReachPeer(s: Server)
    requires s.clients[0].authenticated && s.clients[0].userId == 1 && FindUser(s.clients, 2) == 1
    requires s.calls == Slots(NO_CALL)
    ensures R.MustTell(s, 0, INVITE) == Some(R.Must(2, true))
  {
    hide FindUser, Fits;
    assert FindFreeCall(s.calls) == 0;
  }

  /** User 1 invites user 2, who is online and whose slot still holds the reply to its sign-up: the call
      cannot be announced and the inviter is disconnected. */
  lemma InviterIsCutOff()
    ensures var s := T.After(OPENING); IsOnline(s.clients, 2) && s.clients[0].isOpen
    ensures !T.After(OPENING + [Asks(0, INVITE)]).clients[0].isOpen
  {
    hide Run, Serve, R.MustTell, FindUser, Inv, CanBeTold, LoginAs;
    AfterOpening();
    T.AfterOk(OPENING);
    RunSnoc(OPENING, Asks(0, INVITE));
    var s := T.After(OPENING);
    SecondUser(s.clients);
    SecondUser(Flushed(s, 0).clients);
    MustReachPeer(Flushed(s, 0));
    R.TurnSurvivesIff(s, 0, Sent, INVITE);
  }

  const TALKING := OPENING + READY + [Asks(0, INVITE)] + READY

  /** The call is open, and user 2 can be told things. */
  predicate Talks(s: Server)
  {
    Ringing(s) && s.clients[1].pending.None?
  }

  lemma AfterTalking()
    ensures Talks(T.After(TALKING))
  {
    hide Run;
    AfterInvite();
    RunSnoc(OPENING + READY + [Asks(0, INVITE)], READY[0]);
    assert TALKING == OPENING + READY + [Asks(0, INVITE)] + [READY[0]];
  }

  /** Each text on its own is within the limit of 60000 characters. */
  function LongOffer(sdp: string, candidate: string): Request
  {
    CallRequest(Offer, 1, 0, "", Signal(sdp, candidate, "", None))
  }

  lemma LongOfferMust(s: Server, sdp: string, candidate: string)
    requires Talks(s) && |sdp| == 60000 && |candidate| == 500 && FindUser(s.clients, 2) == 1
    ensures R.MustTell(s, 0, LongOffer(sdp, candidate)) == Some(R.Must(2, false))
  {
    hide FindUser;
    assert FindCall(s.calls, 1) == 0;
  }

  /** In a call with a peer that can be told, an offer of 60000 characters with a candidate of 500 does not
      fit the buffer of the notify, and costs its sender the connection. */
  lemma LongOfferIsCutOff(sdp: string, candidate: string)
    requires |sdp| == 60000 && |candidate| == 500
    ensures var s := T.After(TALKING); CanBeTold(s.clients, 2) && s.clients[0].isOpen
    ensures !T.After(TALKING + [Asks(0, LongOffer(sdp, candidate))]).clients[0].isOpen
  {
    hide Run, Serve, R.MustTell, FindUser, Inv, CanBeTold, LoginAs;
    AfterTalking();
    T.AfterOk(TALKING);
    RunSnoc(TALKING, Asks(0, LongOffer(sdp, candidate)));
    var s := T.After(TALKING);
    SecondUser(s.clients);
    SecondUser(Flushed(s, 0).clients);
    LongOfferMust(Flushed(s, 0), sdp, candidate);
    R.TurnSurvivesIff(s, 0, Sent, LongOffer(sdp, candidate));
  }

  // ----- a group message that a member is never offered -----

  const GATHER := GroupCreate("g", [2])
  const ANNOUNCE := GroupSend(1, "hi", 1)

  function Announcement(): S.Message { S.Message(0, 1, 1, 0, 1, "hi", 1, 0, 0) }

  function OneGroup(): S.Store
  {
    TwoAccounts().(conversations := [S.Conversation(1, true, "g", 0, 0)], nextConversationId := 2,
                   members := [S.Member(1, 1, true), S.Member(1, 2, true)])
  }

  lemma GroupIsCreated()
    ensures S.CreateGroup(TwoAccounts(), "g", 1, [2]) == S.Done(OneGroup(), 1)
  {
    hide S.First, S.FindAccountById;
    var st := TwoAccounts();
    assert st.accounts[0].userId == 1 && st.accounts[1].userId == 2;
    assert S.CollectMembers(st, [2], [1]) == S.CollectMembers(st, [], [1] + [2]);
    assert S.MemberRows(1, [1, 2]) == [S.Member(1, 1, true), S.Member(1, 2, true)];
  }

  lemma AnnouncementIsStored()
    ensures S.MembersOf(OneGroup().members, 1) == [1, 2]
    ensures var out := S.StoreGroupMessage(OneGroup(), Announcement());
        out.status == OK && out.id == 1 && |out.store.messages| == 1
    ensures S.StoreGroupMessage(OneGroup(), Announcement()).store.members == OneGroup().members
  {
    hide S.First, S.FindConversation;
    var st := OneGroup();
    var a, b := S.Member(1, 1, true), S.Member(1, 2, true);
    assert S.IsActiveMember(st.members[0], 1, 1);
    assert st.conversations[0].id == 1;
    assert [a, b][..1] == [a] && [a][..0] == [];
    assert S.MembersOf([a], 1) == [1];
  }

  /** Users 1 and 2 are the members of conversation 1; the slot of user 2 is busy and so is that of user 1. */
  predicate Gathered(s: Server)
  {
    && s.store == OneGroup() && s.clients[0].isOpen && s.clients[0].authenticated && s.clients[0].userId == 1
    && IsUser(s.clients[1], 2) && s.clients[1].pending.Some?
    && forall k :: 0 <= k < |s.log| ==> s.log[k].packet.Reply?
  }

  lemma AfterGather()
    ensures Gathered(T.After(OPENING + [Asks(0, GATHER)]))
  {
    hide Run, S.CreateGroup, CloseClient;
    AfterOpening();
    RunSnoc(OPENING, Asks(0, GATHER));
    GroupIsCreated();
  }

  /** User 1 creates a group with user 2, whose slot still holds the reply to its sign-up, and sends it a
      message: the message is stored and answered, and its only other member is never offered it. */
  lemma AnnouncementCanBeLost()
    ensures var before, s := T.After(OPENING + [Asks(0, GATHER)]),
                             T.After(OPENING + [Asks(0, GATHER)] + [Asks(0, ANNOUNCE)]);
      && S.MembersOf(s.store.members, 1) == [1, 2] && IsOnline(before.clients, 2) && |s.store.messages| == 1
      && s.log == before.log + [Entry(0, 1, Reply(ConversationGroup, OK, [1, 1]))]
      && forall k :: 0 <= k < |s.log| ==> !s.log[k].packet.GroupNotify?
  {
    hide Run, S.StoreGroupMessage, S.MembersOf, CloseClient, HandleGroupSend, CanBeTold, FindUser, Inv;
    var gathered := OPENING + [Asks(0, GATHER)];
    AfterGather();
    T.AfterOk(gathered);
    RunSnoc(gathered, Asks(0, ANNOUNCE));
    AnnouncementIsStored();
    var s := T.After(gathered);
    var s1 := Flushed(s, 0);
    FlushedOk(s, 0);
    SecondUser(s.clients);
    SecondUser(s1.clients);
    GroupMessageIsOfferedIff(s1, 0, 1, "hi", 1);
    NobodyToOffer(s1.clients, 1, "hi");
    AnnouncementOnly(s, HandleGroupSend(s1, 0, 1, "hi", 1).server);
  }

  lemma AnnouncementOnly(s: Server, t: Server)
    requires Gathered(s) && t.log == s.log + ([Entry(0, 1, Reply(ConversationGroup, OK, [1, 1]))] + [])
    ensures t.log == s.log + [Entry(0, 1, Reply(ConversationGroup, OK, [1, 1]))]
    ensures forall k :: 0 <= k < |t.log| ==> !t.log[k].packet.GroupNotify?
  {
  }

  lemma NobodyToOffer(clients: seq<Client>, messageId: nat, content: string)
    requires !CanBeTold(clients, 2)
    ensures Offers(clients, 1, [1, 2], 1, messageId, content) == []
  {
    hide CanBeTold;
    assert [1, 2][1..] == [2] && [2][1..] == [];
    assert Offers(clients, 1, [2], 1, messageId, content) == [];
  }
}
