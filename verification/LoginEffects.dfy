/** What becomes of a connection that closes, and of one that logs in. */
module LoginEffects {
  import opened Wire
  import opened Server
  import opened ServerTraces
  import opened ServerLaws
  import opened ServerSteps
  import opened Delivery
  import opened Presence
  import opened CallEffects
  import opened FileEffects
  import opened Histories
  import S = Storage
  import L = StorageLaws
  import X = StorageEffects
  import R = Refusals
  import T = ServerTheorems

  // ----- closing -----

  /** The connection is gone, and with it every transfer of its user. */
  function Left(s: Server, i: Slot, user: nat): Server
  {
    s.(clients := s.clients[i := Client(false, None, false, 0, 0, "")],
       transfers := seq(MAX_CLIENTS, n requires 0 <= n < MAX_CLIENTS =>
                          var x := s.transfers[n];
                          if x.active && (x.sender == user || x.receiver == user) then BLANK else x))
  }

  lemma {:induction false} ClearNone(s: Server, user: nat, k: nat)
    requires k <= MAX_CLIENTS && forall n :: k <= n < MAX_CLIENTS ==> !(s.calls[n].active && InCall(s.calls[n], user))
    ensures ClearCallsFrom(s, user, k) == s
    decreases MAX_CLIENTS - k
  {
    if k == MAX_CLIENTS {
    } else {
      ClearNone(s, user, k + 1);
    }
  }

  lemma {:induction false} ClearOne(s: Server, user: nat, k: nat, n: Slot)
    requires k <= n && s.calls[n].active && InCall(s.calls[n], user)
    requires forall m :: 0 <= m < MAX_CLIENTS && m != n ==> !(s.calls[m].active && InCall(s.calls[m], user))
    ensures ClearCallsFrom(s, user, k) == DropCall(s, n, user)
    decreases MAX_CLIENTS - k
  {
    hide DropCall;
    if k < n {
      ClearOne(s, user, k + 1, n);
    } else {
      DropCallExact(s, n, user);
      ClearNone(DropCall(s, n, user), user, k + 1);
    }
  }

  /** The user's call is in slot `n`. */
  predicate IsCallOf(s: Server, user: nat, n: Slot)
  {
    s.calls[n].active && (s.calls[n].caller == user || s.calls[n].callee == user)
  }

  lemma OnlyCall(s: Server, user: nat, n: Slot, m: Slot)
    requires Inv(s) && IsCallOf(s, user, n) && m != n
    ensures !IsCallOf(s, user, m)
  {
    hide ClientsOk, TransfersOk, LogOk, CallTracesOk;
    if m < n { assert Disjoint(s.calls[m], s.calls[n]); } else { assert Disjoint(s.calls[n], s.calls[m]); }
  }

  /** A connection on which nobody is logged in just goes. */
  lemma CloseNobody(s: Server, i: Slot)
    requires !s.clients[i].authenticated
    ensures CloseClient(s, i) == s.(clients := s.clients[i := Client(false, None, false, 0, 0, "")])
  {
  }

  lemma CloseShape(s: Server, i: Slot, user: nat, s2: Server)
    requires s.clients[i].isOpen && s.clients[i].authenticated && user == s.clients[i].userId != 0
    requires s2 == Left(s, i, user).(clients := s.clients[i := s.clients[i].(isOpen := false, pending := None)])
    ensures CloseClient(s, i).transfers == Left(s, i, user).transfers
    ensures var t := ClearCallsFrom(s2, user, 0); CloseClient(s, i) == t.(clients := t.clients[i := NO_CLIENT])
  {
    hide ClearCallsFrom;
    var s1 := s.(clients := s.clients[i := s.clients[i].(isOpen := false, pending := None)]);
    assert ClearTransfersFor(s1, user).transfers == s2.transfers;
    ClearCallsExact(s2, user, 0, 0);
  }

  /** With its user in no call, nobody is told. */
  lemma CloseIdle(s: Server, i: Slot)
    requires Inv(s) && s.clients[i].isOpen && s.clients[i].authenticated && !IsEngaged(s, s.clients[i].userId)
    ensures CloseClient(s, i) == Left(s, i, s.clients[i].userId)
  {
    hide Inv, CloseClient, ClearCallsFrom;
    var user := s.clients[i].userId;
    LoggedInIsUser(s, i);
    var s2 := Left(s, i, user).(clients := s.clients[i := s.clients[i].(isOpen := false, pending := None)]);
    CloseShape(s, i, user, s2);
    ClearNone(s2, user, 0);
  }

  /** With its user in a call, that call is over. The other party is told so by a hang-up if it is on a free
      slot, and otherwise nobody is. */
  lemma CloseEngaged(s: Server, i: Slot, n: Slot, j: Slot)
    requires Inv(s) && s.clients[i].isOpen && s.clients[i].authenticated && IsCallOf(s, s.clients[i].userId, n)
    ensures var user, c := s.clients[i].userId, s.calls[n];
      var other, rest := OtherParty(c, user), Left(s, i, user).(calls := s.calls[n := Call(false, 0, 0, 0, false, "")]);
      var hangup := CallNotify(Hangup, c.id, user, other, c.media, Signal("", "", "", None));
      && (IsAt(s, other, j) ==>
          i != j && CloseClient(s, i) == if s.clients[j].pending.None? then Given(rest, j, hangup) else rest)
      && (IsAway(s, other) ==> CloseClient(s, i) == rest)
  {
    hide Inv, CloseClient, ClearCallsFrom, DropCall;
    var user, c := s.clients[i].userId, s.calls[n];
    LoggedInIsUser(s, i);
    CallPartiesDiffer(s, n);
    var s2 := Left(s, i, user).(clients := s.clients[i := s.clients[i].(isOpen := false, pending := None)]);
    CloseShape(s, i, user, s2);
    forall m | 0 <= m < MAX_CLIENTS && m != n ensures !(s2.calls[m].active && InCall(s2.calls[m], user)) {
      OnlyCall(s, user, n, m);
    }
    ClearOne(s2, user, 0, n);
    OtherPlace(s, i, OtherParty(c, user), j);
    DropTells(s2, n, user, j);
  }

  /** Closing one connection leaves everybody else where they are. */
  lemma OtherPlace(s: Server, i: Slot, other: nat, j: Slot)
    requires Inv(s) && s.clients[i].isOpen && s.clients[i].authenticated && other != s.clients[i].userId
    ensures var cs := s.clients[i := s.clients[i].(isOpen := false, pending := None)];
      && (IsAt(s, other, j) ==> i != j && FindUser(cs, other) == j)
      && (IsAway(s, other) ==> FindUser(cs, other) == MAX_CLIENTS)
  {
    hide TablesOk;
    var cs := s.clients[i := s.clients[i].(isOpen := false, pending := None)];
    if IsAt(s, other, j) {
      ApartUsers(s.clients, s.nextSession, j);
      assert IsUser(cs[j], other);
      forall m | 0 <= m < MAX_CLIENTS && m != j ensures !IsUser(cs[m], other) {
        assert !IsUser(s.clients[m], other);
      }
    }
    if IsAway(s, other) {
      forall m | 0 <= m < MAX_CLIENTS ensures !IsUser(cs[m], other) {
        assert !IsUser(s.clients[m], other);
      }
    }
  }

  lemma DropTells(s: Server, n: Slot, user: nat, j: Slot)
    requires var c := s.calls[n];
      s.calls[n].active && c.caller != c.callee && (c.caller == user || c.callee == user)
    ensures var c := s.calls[n];
      var other, rest := OtherParty(c, user), s.(calls := s.calls[n := NO_CALL]);
      var hangup := CallNotify(Hangup, c.id, user, other, c.media, NO_SIGNAL);
      && (FindUser(s.clients, other) == j && IsUser(s.clients[j], other) ==>
            DropCall(s, n, user) == if s.clients[j].pending.None? then Given(rest, j, hangup) else rest)
      && (FindUser(s.clients, other) == MAX_CLIENTS ==> DropCall(s, n, user) == rest)
  {
    hide FindUser, Fits;
    R.HangupFits(s.calls[n], user, OtherParty(s.calls[n], user));
  }

  // ----- logging in -----

  /** Slot `i` is logged in under the next session id. */
  function LoggedIn(s: Server, i: Slot, user: nat, name: string): Server
  {
    s.(clients := s.clients[i := Client(s.clients[i].isOpen, s.clients[i].pending, true, user, s.nextSession, name)],
       nextSession := s.nextSession + 1)
  }

  /** Every logged-in user has an account. */
  predicate UsersKnown(s: Server)
  {
    forall j :: 0 <= j < MAX_CLIENTS ==> IsKnown(s.clients[j], s.store)
  }

  predicate IsKnown(c: Client, st: S.Store) { c.authenticated ==> 1 <= c.userId <= |st.accounts| }

  /** A registration that cannot be made is answered with the storage's reason. */
  lemma RegisterRefused(s: Server, i: Slot, name: string, nickname: Option<string>, hash: string, salt: string)
    requires s.clients[i].isOpen && S.CreateAccount(s.store, name, nickname, hash, salt).status != OK
    ensures var status := S.CreateAccount(s.store, name, nickname, hash, salt).status;
      Dispatch(s, i, Register(name, nickname, hash, salt)) == Answered(s, i, Reply(AuthGroup, status, []))
  {
    hide Queue, Answered, S.CreateAccount, Authenticate;
    L.AllOrNothing(s.store, L.OpCreateAccount(name, nickname, hash, salt));
    AllReplies(s, i);
  }

  /** A registration makes the account and logs the connection in as its user, who is told its number and that
      of the session. Whoever was logged in there before is logged in no more; nobody else is concerned. */
  lemma RegisterExact(s: Server, i: Slot, name: string, nickname: Option<string>, hash: string, salt: string)
    requires Inv(s) && UsersKnown(s) && s.clients[i].isOpen
    requires S.CreateAccount(s.store, name, nickname, hash, salt).status == OK
    ensures var user, made := |s.store.accounts| + 1, S.CreateAccount(s.store, name, nickname, hash, salt);
      Dispatch(s, i, Register(name, nickname, hash, salt))
        == Answered(LoggedIn(s.(store := made.store), i, user, name), i, Reply(AuthGroup, OK, [user, s.nextSession]))
  {
    hide Inv, Queue, Answered, S.CreateAccount, KickOthersFrom, L.StoreOk;
    StoreOfInv(s);
    L.NextIds(s.store);
    X.AccountCreated(s.store, name, nickname, hash, salt);
    var made, user := S.CreateAccount(s.store, name, nickname, hash, salt), |s.store.accounts| + 1;
    forall j | 0 <= j < MAX_CLIENTS && j != i ensures !IsUser(s.clients[j], user) {
      assert IsKnown(s.clients[j], s.store);
    }
    R.KickNobody(s.(store := made.store), i, user, 0);
    Replies(LoggedIn(s.(store := made.store), i, user, name), i, Reply(AuthGroup, OK, [user, s.nextSession]));
  }

  /** The account with the name is in row `n`. */
  predicate IsAccountOf(s: Server, name: string, n: nat)
  {
    n < |s.store.accounts| && s.store.accounts[n].username == name
  }

  lemma AccountRow(s: Server, n: nat)
    requires Inv(s) && n < |s.store.accounts|
    ensures s.store.accounts[n].userId == n + 1 && s.store.accounts[n].enabled
  {
    hide ClientsOk, CallsOk, TransfersOk, LogOk, L.ConversationsOk, L.MembersOk, L.MessagesOk, L.DeliveriesOk,
        L.FilesOk;
  }

  lemma AccountFound(s: Server, name: string, n: nat)
    requires Inv(s)
    ensures IsAccountOf(s, name, n) ==> S.FindAccountByName(s.store, name) == n
    ensures IsAccountOf(s, name, n) ==> s.store.accounts[n].userId == n + 1 && s.store.accounts[n].enabled
    ensures (forall m: nat :: !IsAccountOf(s, name, m)) <==> S.FindAccountByName(s.store, name) == |s.store.accounts|
  {
    hide Inv, L.StoreOk;
    StoreOfInv(s);
    var f := S.FindAccountByName(s.store, name);
    if f < |s.store.accounts| { assert IsAccountOf(s, name, f); }
    if IsAccountOf(s, name, n) {
      AccountRow(s, n);
      if f != n { NamesDiffer(s.store, f, n); }
    }
  }

  lemma NamesDiffer(st: S.Store, a: nat, b: nat)
    requires L.StoreOk(st) && a < |st.accounts| && b < |st.accounts| && a != b
    ensures st.accounts[a].username != st.accounts[b].username
  {
    hide L.ConversationsOk, L.MembersOk, L.MessagesOk, L.DeliveriesOk, L.FilesOk;
    if a < b { assert st.accounts[a].username != st.accounts[b].username; }
    else { assert st.accounts[b].username != st.accounts[a].username; }
  }

  /** A login with a name out of range, of nobody, or with another password hash is refused. */
  lemma LoginRefused(s: Server, i: Slot, name: string, hash: string, n: nat)
    requires Inv(s) && s.clients[i].isOpen
    ensures var out := Dispatch(s, i, Login(name, hash));
      && (!X.IsText(name, 64) ==> out == Answered(s, i, Reply(AuthGroup, InvalidArgument, [])))
      && (X.IsText(name, 64) && (forall m: nat :: !IsAccountOf(s, name, m)) ==>
            out == Answered(s, i, Reply(AuthGroup, NotFound, [])))
      && (X.IsText(name, 64) && IsAccountOf(s, name, n) && s.store.accounts[n].passwordHash != hash ==>
            out == Answered(s, i, Reply(AuthGroup, InvalidArgument, [])))
  {
    hide Inv, Queue, Answered, Authenticate, S.FindAccountByName, S.UpdateLastLogin;
    AccountFound(s, name, n);
    AllReplies(s, i);
  }

  /** A login of a disabled account is refused, in whatever state. */
  lemma DisabledRefused(s: Server, i: Slot, name: string, hash: string, n: nat)
    requires s.clients[i].isOpen && X.IsText(name, 64)
    requires IsAccountOf(s, name, n) && !s.store.accounts[n].enabled && forall m :: 0 <= m < n ==>
        !IsAccountOf(s, name, m)
    ensures Dispatch(s, i, Login(name, hash)) == Answered(s, i, Reply(AuthGroup, InvalidState, []))
  {
    hide Queue, Answered, Authenticate, S.UpdateLastLogin;
    var f := S.FindAccountByName(s.store, name);
    assert IsAccountOf(s, name, f);
    AllReplies(s, i);
  }

  /** The login is noted in the account's row. */
  function Noted(s: Server, n: nat): Server
    requires n < |s.store.accounts|
  {
    s.(store := s.store.(accounts := s.store.accounts[n := s.store.accounts[n].(lastLoginMs := 0)]))
  }

  lemma NotedAside(s: Server, n: nat)
    requires n < |s.store.accounts|
    ensures Noted(s, n).clients == s.clients && Noted(s, n).nextSession == s.nextSession
  {
  }

  lemma LoginAuthenticates(s: Server, i: Slot, name: string, hash: string, n: nat)
    requires Inv(s) && s.clients[i].isOpen && X.IsText(name, 64)
    requires IsAccountOf(s, name, n) && s.store.accounts[n].passwordHash == hash
    ensures var t := Authenticate(Noted(s, n), i, n + 1, name);
      Dispatch(s, i, Login(name, hash)) == Queue(t, i, Reply(AuthGroup, OK, [n + 1, t.clients[i].sessionId]))
  {
    hide Inv, Queue, S.FindAccountByName, S.UpdateLastLogin, Authenticate, L.StoreOk;
    AccountFound(s, name, n);
    StoreOfInv(s);
    X.LoginRecorded(s.store, n + 1, 0);
  }

  predicate IsNowhereElse(s: Server, user: nat, i: Slot) { forall m: Slot :: m != i ==> !IsAt(s, user, m) }

  /** A login with the right password hash logs the connection in, as the account's user, who is told its number
      and that of the session. If the user was logged in on another connection, that one is closed first. */
  lemma LoginExact(s: Server, i: Slot, name: string, hash: string, n: nat, j: Slot)
    requires Inv(s) && s.clients[i].isOpen && X.IsText(name, 64)
    requires IsAccountOf(s, name, n) && s.store.accounts[n].passwordHash == hash
    ensures var out, reply := Dispatch(s, i, Login(name, hash)), Reply(AuthGroup, OK, [n + 1, s.nextSession]);
      && (IsNowhereElse(s, n + 1, i) ==>
            out == Answered(LoggedIn(Noted(s, n), i, n + 1, name), i, reply))
      && (j != i && IsAt(s, n + 1, j) ==>
            out == Answered(LoggedIn(CloseClient(Noted(s, n), j), i, n + 1, name), i, reply))
  {
    hide Inv, Queue, Answered, Dispatch, KickOthersFrom, CloseClient, Noted;
    LoginAuthenticates(s, i, name, hash, n);
    NotedOk(s, n);
    NotedAside(s, n);
    var t := Noted(s, n);
    var reply := Reply(AuthGroup, OK, [n + 1, s.nextSession]);
    if IsNowhereElse(s, n + 1, i) {
      forall m | 0 <= m < MAX_CLIENTS && m != i ensures !IsUser(t.clients[m], n + 1) {
        assert !IsAt(s, n + 1, m);
      }
      R.KickNobody(t, i, n + 1, 0);
      Replies(LoggedIn(t, i, n + 1, name), i, reply);
    }
    if j != i && IsAt(s, n + 1, j) {
      R.KickOne(t, i, n + 1, 0, j);
      CloseSession(t, j, i);
      Replies(LoggedIn(CloseClient(t, j), i, n + 1, name), i, reply);
    }
  }

  lemma NotedOk(s: Server, n: nat)
    requires Inv(s) && n < |s.store.accounts|
    ensures Inv(Noted(s, n))
  {
    hide Inv, L.StoreOk, S.UpdateLastLogin;
    StoreOfInv(s);
    X.LoginRecorded(s.store, n + 1, 0);
    L.UpdateLastLoginKeeps(s.store, n + 1, 0);
    StoreChange(s, Noted(s, n).store);
  }

  lemma CloseSession(s: Server, j: Slot, i: Slot)
    requires i != j
    ensures CloseClient(s, j).nextSession == s.nextSession && CloseClient(s, j).clients[i].isOpen == s.clients[i].isOpen
  {
    hide CloseClient, SameClients;
    CloseExact(s, j, 0);
    var t := CloseClient(s, j);
    assert SameClient(s.clients[i], t.clients[i]);
    SessionKept(s, j);
  }

  lemma SessionKept(s: Server, j: Slot)
    ensures CloseClient(s, j).nextSession == s.nextSession
  {
    hide ClearCallsFrom;
    var c := s.clients[j];
    var user := if c.authenticated then c.userId else 0;
    var s1 := if c.isOpen then s.(clients := s.clients[j := c.(isOpen := false, pending := None)]) else s;
    ClearSession(ClearTransfersFor(s1, user), user, 0);
  }

  lemma {:induction false} ClearSession(s: Server, user: nat, k: nat)
    requires k <= MAX_CLIENTS
    ensures ClearCallsFrom(s, user, k).nextSession == s.nextSession
    decreases MAX_CLIENTS - k
  {
    if k == MAX_CLIENTS {
    } else if s.calls[k].active && InCall(s.calls[k], user) {
      ClearSession(DropCall(s, k, user), user, k + 1);
    } else {
      ClearSession(s, user, k + 1);
    }
  }

  // ----- whoever is logged in has an account -----

  lemma {:induction false} AcceptKnown(s: Server, arrivals: nat)
    requires UsersKnown(s)
    ensures UsersKnown(AcceptClients(s, arrivals)) && AcceptClients(s, arrivals).store == s.store
    decreases arrivals
  {
    hide IsKnown;
    NobodyIsKnown(s.store, false);
    NobodyIsKnown(s.store, true);
    var k := FindClosed(s.clients);
    if k < MAX_CLIENTS && arrivals > 0 {
      AcceptKnown(s.(clients := s.clients[k := NO_CLIENT.(isOpen := true)]), arrivals - 1);
    }
  }

  lemma NobodyIsKnown(st: S.Store, open: bool)
    ensures IsKnown(NO_CLIENT.(isOpen := open), st)
  {
  }

  /** Everybody stays, under the same user, or is logged out. */
  predicate StayOrGo(cs: seq<Client>, ds: seq<Client>)
  {
    |cs| == |ds| && forall j :: 0 <= j < |cs| ==> IsSameOrOut(cs[j], ds[j])
  }

  predicate IsSameOrOut(c: Client, d: Client) { d.authenticated ==> c.authenticated && c.userId == d.userId }

  lemma StillKnown(s: Server, t: Server)
    requires UsersKnown(s) && StayOrGo(s.clients, t.clients) && |s.store.accounts| <= |t.store.accounts|
    ensures UsersKnown(t)
  {
    forall j | 0 <= j < MAX_CLIENTS ensures IsKnown(t.clients[j], t.store) {
      assert IsKnown(s.clients[j], s.store) && IsSameOrOut(s.clients[j], t.clients[j]);
    }
  }

  lemma CloseKnown(s: Server, i: Slot)
    requires UsersKnown(s)
    ensures UsersKnown(CloseClient(s, i))
  {
    hide CloseClient, UsersKnown, IsSameOrOut;
    CloseExact(s, i, 0);
    CloseLogs(s, i);
    var t := CloseClient(s, i);
    forall j | 0 <= j < MAX_CLIENTS ensures IsSameOrOut(s.clients[j], t.clients[j]) {
      if j != i { SameIsSame(s.clients[j], t.clients[j]); } else { OutIsOut(s.clients[j]); }
    }
    StillKnown(s, t);
  }

  lemma OutIsOut(c: Client)
    ensures IsSameOrOut(c, NO_CLIENT)
  {
  }

  lemma SameIsSame(c: Client, d: Client)
    requires SameClient(c, d)
    ensures IsSameOrOut(c, d)
  {
  }

  lemma DispatchKnown(s: Server, i: Slot, r: Request)
    requires Inv(s) && UsersKnown(s) && s.clients[i].isOpen
    requires |s.store.accounts| <= |Dispatch(s, i, r).server.store.accounts|
    ensures UsersKnown(Dispatch(s, i, r).server)
  {
    hide Inv, Dispatch, LoginAs, UsersKnown, IsSameOrOut, Calm, KickedFrom, Authenticate, Queue;
    var t := Dispatch(s, i, r).server;
    if LoginAs(s.store, r).None? {
      DispatchCalm(s, i, r);
      CalmIsSame(s, t);
      StillKnown(s, t);
    } else {
      LoginKnown(s, i, r);
    }
  }

  lemma CalmIsSame(s: Server, t: Server)
    requires Calm(s, t)
    ensures StayOrGo(s.clients, t.clients)
  {
    forall j | 0 <= j < MAX_CLIENTS ensures IsSameOrOut(s.clients[j], t.clients[j]) {
      assert SameClient(s.clients[j], t.clients[j]);
    }
  }

  lemma LoginKnown(s: Server, i: Slot, r: Request)
    requires Inv(s) && UsersKnown(s) && s.clients[i].isOpen && LoginAs(s.store, r).Some?
    ensures UsersKnown(Dispatch(s, i, r).server)
  {
    hide Inv, Dispatch, LoginAs, KickOthersFrom, Queue, L.StoreOk;
    var store, name, ids := LoginShape(s, i, r);
    var user := LoginAs(s.store, r).value;
    LoginStoreIs(s, i, r, store, name, ids);
    var s0 := s.(store := store);
    KickOthersKeeps(s0, i, user, 0);
    KickStore(s0, i, user, 0);
    var kicked, t := KickOthersFrom(s0, i, user, 0), Authenticate(s0, i, user, name);
    forall j | 0 <= j < MAX_CLIENTS ensures IsKnown(t.clients[j], store) {
      assert IsKnown(s.clients[j], s.store);
      if j != i { assert SameClient(s.clients[j], kicked.clients[j]) || kicked.clients[j] == NO_CLIENT; }
    }
    QueueFrame(t, i, Reply(AuthGroup, OK, ids));
    var u := Queue(t, i, Reply(AuthGroup, OK, ids)).server;
    forall j | 0 <= j < MAX_CLIENTS ensures IsKnown(u.clients[j], store) {
      assert SameClient(t.clients[j], u.clients[j]) && IsKnown(t.clients[j], store);
    }
  }

  lemma LoginStoreIs(s: Server, i: Slot, r: Request, store: S.Store, name: string, ids: seq<nat>)
    requires Inv(s) && LoginAs(s.store, r).Some?
    requires Dispatch(s, i, r)
        == Respond(Authenticate(s.(store := store), i, LoginAs(s.store, r).value, name), i, AuthGroup, OK, ids)
    ensures |s.store.accounts| <= |store.accounts| && 1 <= LoginAs(s.store, r).value <= |store.accounts|
  {
    hide Inv, Authenticate, Queue, L.StoreOk, S.CreateAccount, S.FindAccountByName, S.UpdateLastLogin;
    StoreOfInv(s);
    QueueStore();
    OwnStore(i);
    if r.Register? {
      X.AccountCreated(s.store, r.username, r.nickname, r.hash, r.salt);
      L.NextIds(s.store);
    } else {
      var n := S.FindAccountByName(s.store, r.username);
      AccountRow(s, n);
      X.LoginRecorded(s.store, n + 1, 0);
    }
  }

  lemma StepKnown(s: Server, e: Event)
    requires Inv(s) && UsersKnown(s) && |s.store.accounts| <= |Step(s, e).store.accounts|
    ensures UsersKnown(Step(s, e))
  {
    hide Inv, Dispatch, CloseClient, UsersKnown, AcceptClients;
    if e.Arrive? { AcceptKnown(s, e.n); }
    if e.DropTransfers? || e.DropCalls? { SameKnown(s, Step(s, e)); }
    if e.Turn? && s.clients[e.i].isOpen {
      var s1 := if e.io.flush == Sent then s.(clients := s.clients[e.i := s.clients[e.i].(pending := None)]) else s;
      FlushedOk(s, e.i);
      FlushKnown(s, e.i);
      CloseKnown(s, e.i);
      CloseKnown(s1, e.i);
      if e.io.flush != FlushFailed && e.io.recv.Received? {
        var out := Dispatch(s1, e.i, e.io.recv.request);
        CloseLogs(out.server, e.i);
        DispatchKnown(s1, e.i, e.io.recv.request);
        CloseKnown(out.server, e.i);
      }
    }
  }

  lemma SameKnown(s: Server, t: Server)
    requires UsersKnown(s) && t.clients == s.clients && t.store == s.store
    ensures UsersKnown(t)
  {
  }

  lemma FlushKnown(s: Server, i: Slot)
    requires UsersKnown(s)
    ensures UsersKnown(s.(clients := s.clients[i := s.clients[i].(pending := None)]))
  {
    var t := s.(clients := s.clients[i := s.clients[i].(pending := None)]);
    forall j | 0 <= j < MAX_CLIENTS ensures IsKnown(t.clients[j], t.store) {
      assert IsKnown(s.clients[j], s.store);
    }
  }

  /** Over any run, whoever is logged in has an account. */
  lemma {:induction false} UsersStayKnown(s: Server, events: seq<Event>)
    requires Inv(s) && UsersKnown(s)
    ensures UsersKnown(Run(s, events))
    decreases |events|
  {
    hide Inv, Step, UsersKnown, L.StoreOk, L.DeliveriesEvolve, L.FilesEvolve, L.Run;
    if events == [] {
    } else {
      var ops := StepStore(s, events[0]);
      StoreOfInv(s);
      L.RunKeeps(s.store, ops);
      StepKnown(s, events[0]);
      StepKeeps(s, events[0]);
      UsersStayKnown(Step(s, events[0]), events[1..]);
    }
  }

  lemma UsersAreKnown(events: seq<Event>)
    ensures UsersKnown(T.After(events))
  {
    hide Run, IsKnown;
    StartOk();
    NobodyIsKnown(S.EMPTY, false);
    UsersStayKnown(START, events);
  }
}
