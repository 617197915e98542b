/** What holds of every run of the server from empty tables. */
module ServerTheorems {
  import opened Wire
  import opened Server
  import opened ServerTraces
  import opened ServerLaws
  import opened ServerSteps
  import S = Storage
  import L = StorageLaws

  function After(events: seq<Event>): Server { Run(START, events) }

  lemma AfterOk(events: seq<Event>)
    ensures Inv(After(events))
  {
    StartOk();
    RunKeeps(START, events);
  }

  // ----- calls -----

  predicate OfCall(e: Entry, id: nat)
  {
    e.packet.CallNotify? && e.packet.callId == id
  }

  /** A logged call packet is in its call's trace, at the place given by the call's packets before it. */
  lemma {:induction false} CallPosition(log: seq<Entry>, id: nat, i: nat)
    requires i < |log| && OfCall(log[i], id)
    ensures var n, t := |CallTrace(log[..i], id)|, CallTrace(log, id); n < |t| && t[n] == log[i].packet
    decreases |log|
  {
    var init := log[..|log| - 1];
    if i == |log| - 1 {
      assert log[..i] == init;
    } else {
      CallPosition(init, id, i);
      assert init[..i] == log[..i];
    }
  }

  lemma CallOrder(log: seq<Entry>, id: nat, i: nat, j: nat)
    requires i < j < |log| && OfCall(log[i], id)
    ensures |CallTrace(log[..i], id)| < |CallTrace(log[..j], id)|
  {
    CallPosition(log[..j], id, i);
    assert log[..j][..i] == log[..i];
  }

  lemma {:induction false} TraceHasOpening(log: seq<Entry>, id: nat) returns (i: nat)
    requires CallTrace(log, id) != []
    ensures i < |log| && OfCall(log[i], id) && CallTrace(log, id)[0] == log[i].packet && CallTrace(log[..i], id) == []
    decreases |log|
  {
    var init := log[..|log| - 1];
    if CallTrace(init, id) == [] {
      i := |log| - 1;
      assert log[..i] == init;
    } else {
      i := TraceHasOpening(init, id);
      assert init[..i] == log[..i];
    }
  }

  /** Over any run the packets queued for a call form invite (accept | offer | answer | ice)* (reject | hangup)?. */
  lemma CallProtocol(events: seq<Event>, id: nat)
    ensures CallLanguage(CallTrace(After(events).log, id))
  {
    hide CallLanguage, CallTrace, CallSlotsOk, TransfersOk, ClientsOk, L.StoreOk, LogOk, After, FileTrace;
    AfterOk(events);
  }

  /** Every packet of a call other than an invite answers an earlier invite of that call and runs
      between the two users of that invite; only the invited one accepts. */
  lemma EveryCallPacketHasItsInvite(events: seq<Event>, j: nat)
    requires j < |After(events).log| && After(events).log[j].packet.CallNotify?
    ensures var log := After(events).log;
      var p := log[j].packet;
      p.op == Invite ||
      exists i :: 0 <= i < j && OfCall(log[i], p.callId) && log[i].packet.op == Invite
               && Follows(p, log[i].packet.from, log[i].packet.to)
  {
    hide After;
    var log := After(events).log;
    var id := log[j].packet.callId;
    CallProtocol(events, id);
    CallPosition(log, id, j);
    var i := TraceHasOpening(log, id);
    if j < i { CallOrder(log, id, j, i); }
  }

  /** An id is invited once, nothing follows a reject or a hangup, and so no id is ever used again. */
  lemma CallIdsAreNotReused(events: seq<Event>, i: nat, j: nat)
    requires i < j < |After(events).log|
    requires After(events).log[i].packet.CallNotify? && OfCall(After(events).log[j], After(events).log[i].packet.callId)
    ensures var log := After(events).log; log[j].packet.op != Invite && !Terminal(log[i].packet)
  {
    hide After;
    var log := After(events).log;
    var id := log[i].packet.callId;
    CallProtocol(events, id);
    CallPosition(log, id, i);
    CallPosition(log, id, j);
    CallOrder(log, id, i, j);
  }

  // ----- exclusivity -----

  /** Between any two events no two logged-in connections share a user or a session, and no user is in
      two active calls or in both ends of one. */
  lemma Exclusive(events: seq<Event>, i: Slot, j: Slot)
    requires i < j
    ensures var s := After(events);
      && Apart(s.clients[i], s.clients[j])
      && Disjoint(s.calls[i], s.calls[j])
      && (s.calls[i].active ==> s.calls[i].caller != s.calls[i].callee)
  {
    hide After, CallTrace, CallLanguage, TransfersOk, L.StoreOk, LogOk, Apart, Disjoint;
    AfterOk(events);
    var s := After(events);
    assert CallOk(s.calls[i], s.nextCall, CallTrace(s.log, s.calls[i].id));
  }

  /** Every notify ever queued went to a connection where its addressee was logged in. */
  lemma NotifiesReachTheirAddressee(events: seq<Event>, i: nat)
    requires i < |After(events).log|
    ensures Addressed(After(events).log[i])
  {
    hide After, CallsOk, TransfersOk, ClientsOk, L.StoreOk, Addressed;
    AfterOk(events);
  }

  /** A group message is never kept from its members by the size of the fan-out listing. */
  lemma FanOutListsEveryMember(events: seq<Event>, id: nat)
    ensures var st := After(events).store;
      var listing := S.ListGroupMembers(st, id, S.MAX_GROUP_MEMBERS);
      listing.status == OK ==> listing.rows == S.MembersOf(st.members, id)
    ensures S.ListGroupMembers(After(events).store, id, S.MAX_GROUP_MEMBERS).status != BufferTooSmall
  {
    hide After, CallsOk, TransfersOk, ClientsOk, LogOk, L.StoreOk, S.MembersOf;
    AfterOk(events);
    var st := After(events).store;
    var i := S.FindConversation(st, id);
    if i < |st.conversations| {
      ConversationIdIsIndex(st, i);
      if st.conversations[i].isGroup { L.GroupFanOutFits(st, id); }
    }
  }

  lemma ConversationIdIsIndex(st: S.Store, i: nat)
    requires L.StoreOk(st) && i < |st.conversations|
    ensures st.conversations[i].id == i + 1
  {
  }

  // ----- the relay ledger -----

  /** An active transfer's counters are exactly what has been relayed for it. */
  lemma RelayLedger(events: seq<Event>, k: Slot)
    requires After(events).transfers[k].active
    ensures var s := After(events);
      var t := s.transfers[k];
      var trace := FileTrace(s.log, t.id);
      && |trace| == t.nextChunk + 1 && trace[0] == StartOf(t)
      && (forall n :: 1 <= n < |trace| ==> IsChunk(trace[n], n - 1, trace[0]))
      && |Relayed(trace)| == t.bytesSeen
      && t.nextChunk <= t.bytesSeen <= Min(t.fileSize, FILE_CHUNK_SIZE * t.nextChunk)
  {
    hide After, CallsOk, ClientsOk, LogOk, L.StoreOk, FileTrace, Relayed, RecordsOk;
    AfterOk(events);
    var s := After(events);
    var t := s.transfers[k];
    var trace := FileTrace(s.log, t.id);
    assert TransferOk(t, s.nextTransfer, s.store.files, trace) && FileLanguage(trace);
    LedgerBounds(trace);
    forall n | 1 <= n < |trace| ensures IsChunk(trace[n], n - 1, trace[0]) {
      InnerIsChunk(trace, n);
    }
  }

  lemma FileProtocol(events: seq<Event>, id: nat)
    ensures FileLanguage(FileTrace(After(events).log, id))
  {
    hide After, CallsOk, ClientsOk, LogOk, L.StoreOk, FileTrace, FileLanguage, TransferSlotsOk, RecordsOk;
    AfterOk(events);
  }

  /** A completion is queued only when the announced number of bytes has been relayed. */
  lemma CompletionMeansWhole(events: seq<Event>, id: nat)
    requires IsCompleted(FileTrace(After(events).log, id))
    ensures var t := FileTrace(After(events).log, id); t[0].FileStart? && |Relayed(t)| == t[0].fileSize
  {
    hide After, FileTrace, Relayed;
    FileProtocol(events, id);
    var t := FileTrace(After(events).log, id);
    assert IsChunk(t[|t| - 1], |t| - 2, t[0]) || IsComplete(t, |t| - 1);
  }

  /** A stored record is marked completed only when some transfer relayed all the bytes it stands for. */
  lemma CompletedRecordWasRelayed(events: seq<Event>, i: nat)
    requires i < |After(events).store.files| && After(events).store.files[i].completed
    ensures WasCarried(After(events).log, After(events).store.files[i])
  {
    hide After, CallsOk, ClientsOk, LogOk, L.StoreOk, FileTracesOk, TransferSlotsOk, WasCarried;
    AfterOk(events);
  }

  // ----- passes -----

  datatype Pass = Pass(arrivals: nat, ios: seq<ClientIo>)

  predicate IsPass(p: Pass) { |p.ios| == MAX_CLIENTS }

  function AfterPasses(s: Server, passes: seq<Pass>): Server
    requires forall k :: 0 <= k < |passes| ==> IsPass(passes[k])
    decreases |passes|
  {
    if passes == [] then s
    else
      var p := passes[0];
      assert IsPass(p);
      AfterPasses(RunOnce(s, p.arrivals, p.ios), passes[1..])
  }

  function Turns(ios: seq<ClientIo>, k: nat): seq<Event>
    requires k <= MAX_CLIENTS == |ios|
    decreases MAX_CLIENTS - k
  {
    if k == MAX_CLIENTS then [] else [Turn(k, ios[k])] + Turns(ios, k + 1)
  }

  function EventsOf(p: Pass): seq<Event>
    requires IsPass(p)
  {
    [Arrive(p.arrivals)] + Turns(p.ios, 0) + [DropTransfers, DropCalls]
  }

  lemma {:induction false} RunAppend(s: Server, a: seq<Event>, b: seq<Event>)
    ensures Run(s, a + b) == Run(Run(s, a), b)
    decreases |a|
  {
    hide Step;
    if a == [] {
      assert a + b == b;
    } else {
      assert (a + b)[0] == a[0] && (a + b)[1..] == a[1..] + b;
      RunAppend(Step(s, a[0]), a[1..], b);
    }
  }

  lemma {:induction false} TurnsAreServeFrom(s: Server, ios: seq<ClientIo>, k: nat)
    requires k <= MAX_CLIENTS == |ios|
    ensures Run(s, Turns(ios, k)) == ServeFrom(s, ios, k)
    decreases MAX_CLIENTS - k
  {
    hide Serve;
    if k == MAX_CLIENTS {
    } else {
      var e, rest := Turn(k, ios[k]), Turns(ios, k + 1);
      assert Turns(ios, k)[0] == e && Turns(ios, k)[1..] == rest;
      TurnsAreServeFrom(Serve(s, k, ios[k]), ios, k + 1);
    }
  }

  lemma RunOne(s: Server, e: Event)
    ensures Run(s, [e]) == Step(s, e)
  {
    hide Step;
    assert [e][1..] == [];
  }

  /** One pass of the server is a run of events. */
  lemma PassIsRun(s: Server, p: Pass)
    requires IsPass(p)
    ensures Run(s, EventsOf(p)) == RunOnce(s, p.arrivals, p.ios)
  {
    hide Run, AcceptClients, ServeFrom, SweepTransfers, SweepCalls, Turns;
    var a, b, c := [Arrive(p.arrivals)], Turns(p.ios, 0), [DropTransfers, DropCalls];
    RunAppend(s, a + b, c);
    RunAppend(s, a, b);
    RunOne(s, Arrive(p.arrivals));
    var s1 := AcceptClients(s, p.arrivals);
    TurnsAreServeFrom(s1, p.ios, 0);
    var s2 := ServeFrom(s1, p.ios, 0);
    assert c == [DropTransfers] + [DropCalls];
    RunAppend(s2, [DropTransfers], [DropCalls]);
    RunOne(s2, DropTransfers);
    RunOne(SweepTransfers(s2), DropCalls);
  }

  lemma PassKeeps(s: Server, p: Pass)
    requires Inv(s) && IsPass(p)
    ensures Inv(RunOnce(s, p.arrivals, p.ios))
  {
    hide Inv, RunOnce, Run, EventsOf;
    PassIsRun(s, p);
    RunKeeps(s, EventsOf(p));
  }

  /** All that is said here of runs of events holds after any number of passes. */
  lemma {:induction false} PassesAreRun(s: Server, passes: seq<Pass>) returns (events: seq<Event>)
    requires forall k :: 0 <= k < |passes| ==> IsPass(passes[k])
    ensures AfterPasses(s, passes) == Run(s, events)
    decreases |passes|
  {
    hide RunOnce, Step;
    if passes == [] {
      events := [];
    } else {
      var p := passes[0];
      assert IsPass(p);
      var rest := PassesAreRun(RunOnce(s, p.arrivals, p.ios), passes[1..]);
      events := EventsOf(p) + rest;
      RunAppend(s, EventsOf(p), rest);
      PassIsRun(s, p);
    }
  }

  /** After every pass, whatever happened in it, both parties of every active call and of every active
      transfer are online, so nobody stays busy because of a departed peer. */
  lemma PassLeavesBothOnline(s: Server, p: Pass)
    requires IsPass(p)
    ensures var t := RunOnce(s, p.arrivals, p.ios);
      && (forall k :: 0 <= k < MAX_CLIENTS && t.calls[k].active ==>
            IsOnline(t.clients, t.calls[k].caller) && IsOnline(t.clients, t.calls[k].callee))
      && (forall k :: 0 <= k < MAX_CLIENTS && t.transfers[k].active ==>
            IsOnline(t.clients, t.transfers[k].sender) && IsOnline(t.clients, t.transfers[k].receiver))
      && (forall user :: HasActiveCall(t.calls, user) ==> IsOnline(t.clients, user))
  {
    hide IsOnline, ServeFrom, AcceptClients;
    var s1 := ServeFrom(AcceptClients(s, p.arrivals), p.ios, 0);
    var s2 := SweepTransfers(s1);
    var t := SweepCalls(s2);
    assert t.clients == s1.clients && t.transfers == s2.transfers;
  }
}
