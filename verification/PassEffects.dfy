/** What a pass does besides serving its connections: it accepts new ones and sweeps. */
module PassEffects {
  import opened Wire
  import opened Server
  import opened ServerTraces
  import opened ServerLaws
  import opened ServerSteps
  import opened CallEffects
  import opened FileEffects

  function OpenCount(clients: seq<Client>): nat
  {
    if clients == [] then 0
    else OpenCount(clients[..|clients| - 1]) + (if clients[|clients| - 1].isOpen then 1 else 0)
  }

  lemma {:induction false} CountOpened(clients: seq<Client>, k: nat, c: Client)
    requires k < |clients| && !clients[k].isOpen && c.isOpen
    ensures OpenCount(clients[k := c]) == OpenCount(clients) + 1
    decreases |clients|
  {
    var n := |clients| - 1;
    if k == n {
      assert clients[k := c][..n] == clients[..n];
    } else {
      CountOpened(clients[..n], k, c);
      assert clients[k := c][..n] == clients[..n][k := c];
    }
  }

  lemma {:induction false} CountSame(clients: seq<Client>, k: nat, c: Client)
    requires k < |clients| && clients[k].isOpen == c.isOpen
    ensures OpenCount(clients[k := c]) == OpenCount(clients)
    decreases |clients|
  {
    var n := |clients| - 1;
    if k == n {
      assert clients[k := c][..n] == clients[..n];
    } else {
      CountSame(clients[..n], k, c);
      assert clients[k := c][..n] == clients[..n][k := c];
    }
  }

  lemma {:induction false} CountFull(clients: seq<Client>)
    ensures OpenCount(clients) <= |clients|
    ensures OpenCount(clients) == |clients| <==> forall k :: 0 <= k < |clients| ==> clients[k].isOpen
    decreases |clients|
  {
    if clients == [] {
    } else {
      CountFull(clients[..|clients| - 1]);
    }
  }

  const FRESH := Client(true, None, false, 0, 0, "")

  /** As many arrivals are accepted as there are free slots, the lowest ones first. An accepted connection is
      idle and nobody is logged in on it; open ones are left alone, and so is everything else. */
  lemma {:induction false} AcceptExact(s: Server, arrivals: nat)
    requires Inv(s)
    ensures var t := AcceptClients(s, arrivals);
      && t == s.(clients := t.clients)
      && OpenCount(t.clients) == Min(16, OpenCount(s.clients) + arrivals)
      && (forall j: Slot :: s.clients[j].isOpen ==> t.clients[j] == s.clients[j])
      && (forall j: Slot :: !s.clients[j].isOpen ==> t.clients[j] == s.clients[j] || t.clients[j] == FRESH)
      && (forall j: Slot, m: Slot :: !s.clients[j].isOpen && t.clients[j].isOpen && m < j ==> t.clients[m].isOpen)
    decreases arrivals
  {
    hide TablesOk, OpenCount;
    var k := FindClosed(s.clients);
    CountFull(s.clients);
    if k == MAX_CLIENTS {
    } else if arrivals == 0 {
      assert ClientOk(s.clients[k], s.nextSession);
      assert s.clients[k := NO_CLIENT] == s.clients;
    } else {
      var s1 := s.(clients := s.clients[k := FRESH]);
      ClosedSlotFilled(s, k, true);
      CountOpened(s.clients, k, FRESH);
      assert ClientOk(s.clients[k], s.nextSession);
      AcceptExact(s1, arrivals - 1);
      CountFull(AcceptClients(s1, arrivals - 1).clients);
    }
  }

  /** Exactly the calls and transfers with a party who is not online are cleared, and nothing else changes. */
  lemma SweepExact(s: Server, k: Slot)
    requires Inv(s)
    ensures var t, c, x := SweepCalls(SweepTransfers(s)), s.calls[k], s.transfers[k];
      && t == s.(calls := t.calls, transfers := t.transfers)
      && t.calls[k] == (if c.active && (IsAway(s, c.caller) || IsAway(s, c.callee))
                        then Call(false, 0, 0, 0, false, "") else c)
      && t.transfers[k] == (if x.active
          && (x.sender == 0 || x.receiver == 0 || IsAway(s, x.sender) || IsAway(s, x.receiver))
                            then BLANK else x)
  {
    hide Inv, FindUser;
    var c, x := s.calls[k], s.transfers[k];
    if c.active { CallPartiesDiffer(s, k); }
    PlaceOf(s, c.caller, 0);
    PlaceOf(s, c.callee, 0);
    PlaceOf(s, x.sender, 0);
    PlaceOf(s, x.receiver, 0);
  }
}
