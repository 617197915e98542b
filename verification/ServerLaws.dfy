/** What every event at the server keeps. */
module ServerLaws {
  import opened Wire
  import opened Server
  import opened ServerTraces
  import S = Storage
  import L = StorageLaws

  // ----- the invariant, table by table -----

  /** A closed slot is blank; a logged-in connection has an account's id and name and a spent session id. */
  predicate ClientOk(c: Client, nextSession: nat)
  {
    && (!c.isOpen ==> c == NO_CLIENT)
    && (c.authenticated ==> IsIdentity(c.userId, c.username) && 1 <= c.sessionId < nextSession)
  }

  predicate IsIdentity(userId: nat, username: string)
  {
    1 <= userId <= S.MAX_ACCOUNTS && 1 <= |username| <= S.MAX_USERNAME_LEN
  }

  /** No two logged-in connections share a user or a session. */
  predicate Apart(c: Client, d: Client)
  {
    c.authenticated && d.authenticated ==> c.userId != d.userId && c.sessionId != d.sessionId
  }

  ghost predicate ClientsOk(clients: seq<Client>, nextSession: nat)
  {
    && nextSession >= 1
    && (forall i :: 0 <= i < |clients| ==> ClientOk(clients[i], nextSession))
    && (forall i, j :: 0 <= i < j < |clients| ==> Apart(clients[i], clients[j]))
  }

  /** An active call is in progress: its trace starts with its invite and has not ended. */
  predicate CallOk(c: Call, next: nat, trace: seq<Packet>)
  {
    c.active ==>
      && 1 <= c.id < next && c.caller != 0 && c.callee != 0 && c.caller != c.callee
      && trace != [] && trace[0].CallNotify? && trace[0].from == c.caller && trace[0].to == c.callee
      && !Terminal(trace[|trace| - 1])
  }

  predicate Disjoint(c: Call, d: Call)
  {
    c.active && d.active ==>
      c.id != d.id && c.caller != d.caller && c.caller != d.callee && c.callee != d.caller && c.callee != d.callee
  }

  ghost predicate CallTracesOk(next: nat, log: seq<Entry>)
  {
    && next >= 1
    && (forall id: nat :: CallLanguage(CallTrace(log, id)))
    && (forall id: nat :: id == 0 || id >= next ==> CallTrace(log, id) == [])
  }

  ghost predicate CallSlotsOk(calls: seq<Call>, next: nat, log: seq<Entry>)
  {
    && (forall i :: 0 <= i < |calls| ==> CallOk(calls[i], next, CallTrace(log, calls[i].id)))
    && (forall i, j :: 0 <= i < j < |calls| ==> Disjoint(calls[i], calls[j]))
  }

  ghost predicate CallsOk(calls: seq<Call>, next: nat, log: seq<Entry>)
  {
    CallTracesOk(next, log) && CallSlotsOk(calls, next, log)
  }

  /** An active transfer's counters are what its trace has relayed, and its record says the same size. */
  predicate TransferOk(t: Transfer, next: nat, files: seq<S.FileRecord>, trace: seq<Packet>)
  {
    t.active ==>
      && 1 <= t.id < next && t.sender != t.receiver
      && trace != [] && trace[0] == StartOf(t) && !IsCompleted(trace)
      && t.nextChunk == |trace| - 1 && t.bytesSeen == |Relayed(trace)|
      && 1 <= t.storageId <= |files|
      && files[t.storageId - 1].messageId == t.messageId && files[t.storageId - 1].fileSize == t.fileSize
  }

  predicate Separate(t: Transfer, u: Transfer)
  {
    t.active && u.active ==> t.id != u.id
  }

  /** A trace that has relayed the whole of the file a record stands for. */
  predicate Carries(trace: seq<Packet>, f: S.FileRecord)
  {
    trace != [] && trace[0].FileStart? && trace[0].messageId == f.messageId && trace[0].fileSize == f.fileSize
    && |Relayed(trace)| == f.fileSize
  }

  ghost predicate WasCarried(log: seq<Entry>, f: S.FileRecord)
  {
    exists id: nat :: Carries(FileTrace(log, id), f)
  }

  ghost predicate FileTracesOk(next: nat, log: seq<Entry>)
  {
    && next >= 1
    && (forall id: nat :: FileLanguage(FileTrace(log, id)))
    && (forall id: nat :: id == 0 || id >= next ==> FileTrace(log, id) == [])
  }

  ghost predicate TransferSlotsOk(ts: seq<Transfer>, next: nat, files: seq<S.FileRecord>, log: seq<Entry>)
  {
    && (forall i :: 0 <= i < |ts| ==> TransferOk(ts[i], next, files, FileTrace(log, ts[i].id)))
    && (forall i, j :: 0 <= i < j < |ts| ==> Separate(ts[i], ts[j]))
  }

  ghost predicate RecordsOk(files: seq<S.FileRecord>, log: seq<Entry>)
  {
    forall i :: 0 <= i < |files| && files[i].completed ==> WasCarried(log, files[i])
  }

  ghost predicate TransfersOk(ts: seq<Transfer>, next: nat, files: seq<S.FileRecord>, log: seq<Entry>)
  {
    FileTracesOk(next, log) && TransferSlotsOk(ts, next, files, log) && RecordsOk(files, log)
  }

  /** A notify is queued on a connection where its addressee is logged in. */
  predicate Addressed(e: Entry)
  {
    match e.packet
    case ChatNotify(_, _, _, to, _) => e.user == to
    case GroupNotify(_, _, _, to, _) => e.user == to
    case CallNotify(_, _, _, to, _, _) => e.user == to
    case FileStart(_, _, _, _, to, _, _, _) => e.user == to
    case FileChunk(_, _, _, to, _) => e.user == to
    case FileComplete(_, _, to) => e.user == to
    case _ => true
  }

  ghost predicate LogOk(log: seq<Entry>)
  {
    forall i :: 0 <= i < |log| ==> Addressed(log[i])
  }

  /** Everything but the connections. */
  ghost predicate TablesOk(s: Server)
  {
    && CallsOk(s.calls, s.nextCall, s.log)
    && TransfersOk(s.transfers, s.nextTransfer, s.store.files, s.log)
    && L.StoreOk(s.store)
    && LogOk(s.log)
  }

  ghost predicate Inv(s: Server)
  {
    ClientsOk(s.clients, s.nextSession) && TablesOk(s)
  }

  lemma StartOk()
    ensures Inv(START)
  {
    L.EmptyStoreOk();
    assert forall id: nat :: CallTrace([], id) == [];
    assert forall id: nat :: FileTrace([], id) == [];
  }

  // ----- connections -----

  predicate SameClient(c: Client, d: Client)
  {
    d == c.(pending := d.pending) && (!c.isOpen ==> d == c)
  }

  predicate SameClients(cs: seq<Client>, ds: seq<Client>)
  {
    |cs| == |ds| && forall i :: 0 <= i < |cs| ==> SameClient(cs[i], ds[i])
  }

  lemma SameClientsOk(cs: seq<Client>, ds: seq<Client>, next: nat)
    requires ClientsOk(cs, next) && SameClients(cs, ds)
    ensures ClientsOk(ds, next)
  {
    forall i, j | 0 <= i < j < |ds| ensures Apart(ds[i], ds[j]) {
      assert Apart(cs[i], cs[j]);
    }
  }

  lemma SameClientsTrans(cs: seq<Client>, ds: seq<Client>, es: seq<Client>)
    requires SameClients(cs, ds) && SameClients(ds, es)
    ensures SameClients(cs, es)
  {
    forall i | 0 <= i < |cs| ensures SameClient(cs[i], es[i]) {
      assert SameClient(cs[i], ds[i]) && SameClient(ds[i], es[i]);
    }
  }

  // ----- what a log entry does to the other tables' invariants -----

  lemma CallsIgnore(calls: seq<Call>, next: nat, log: seq<Entry>, e: Entry)
    requires CallsOk(calls, next, log) && !e.packet.CallNotify?
    ensures CallsOk(calls, next, log + [e])
  {
    forall id: nat ensures CallTrace(log + [e], id) == CallTrace(log, id) {
      CallTraceSnoc(log, e, id);
    }
  }

  lemma TransfersIgnore(transfers: seq<Transfer>, next: nat, files: seq<S.FileRecord>, log: seq<Entry>, e: Entry)
    requires TransfersOk(transfers, next, files, log) && !IsFilePacket(e.packet)
    ensures TransfersOk(transfers, next, files, log + [e])
  {
    hide FileLanguage, TransferOk, Carries, FileTrace;
    forall id: nat ensures FileTrace(log + [e], id) == FileTrace(log, id) {
      FileTraceSnoc(log, e, id);
    }
    forall i | 0 <= i < |files| && files[i].completed ensures WasCarried(log + [e], files[i]) {
      var id: nat :| Carries(FileTrace(log, id), files[i]);
      assert Carries(FileTrace(log + [e], id), files[i]);
    }
  }

  /** Queueing changes at most one send slot and the log. */
  lemma QueueFrame(s: Server, i: Slot, p: Packet)
    ensures var o := Queue(s, i, p);
      && SameClients(s.clients, o.server.clients)
      && o.server == s.(clients := o.server.clients, log := o.server.log)
      && o.server.log == (if o.status == OK then s.log + [EntryFor(s, i, p)] else s.log)
      && (o.status != OK ==> o.server == s)
  {
  }

  /** Packets that belong to no call and no transfer leave the tables in order. */
  lemma QueueOther(s: Server, i: Slot, p: Packet)
    requires TablesOk(s) && !p.CallNotify? && !IsFilePacket(p) && Addressed(EntryFor(s, i, p))
    ensures TablesOk(Queue(s, i, p).server)
    ensures ClientsOk(s.clients, s.nextSession) ==> Inv(Queue(s, i, p).server)
  {
    hide CallsOk, TransfersOk, SameClients, ClientsOk, LogOk, Addressed, Queue;
    QueueFrame(s, i, p);
    var o := Queue(s, i, p);
    if o.status == OK {
      CallsIgnore(s.calls, s.nextCall, s.log, EntryFor(s, i, p));
      TransfersIgnore(s.transfers, s.nextTransfer, s.store.files, s.log, EntryFor(s, i, p));
      LogGrows(s.log, EntryFor(s, i, p));
    }
    if ClientsOk(s.clients, s.nextSession) { SameClientsOk(s.clients, o.server.clients, s.nextSession); }
  }

  // ----- clearing slots -----

  predicate CallCleared(c: Call, d: Call)
  {
    d == c.(accepted := d.accepted) || !d.active
  }

  lemma CallsShrink(calls: seq<Call>, less: seq<Call>, next: nat, log: seq<Entry>)
    requires CallsOk(calls, next, log) && |less| == |calls|
    requires forall i :: 0 <= i < |calls| ==> CallCleared(calls[i], less[i])
    ensures CallsOk(less, next, log)
  {
    hide CallLanguage, CallTrace;
    forall i | 0 <= i < |less| ensures CallOk(less[i], next, CallTrace(log, less[i].id)) {
      assert CallCleared(calls[i], less[i]) && CallOk(calls[i], next, CallTrace(log, calls[i].id));
    }
    forall i, j | 0 <= i < j < |less| ensures Disjoint(less[i], less[j]) {
      assert CallCleared(calls[i], less[i]) && CallCleared(calls[j], less[j]) && Disjoint(calls[i], calls[j]);
    }
  }

  lemma TransfersShrink(ts: seq<Transfer>, less: seq<Transfer>, next: nat, files: seq<S.FileRecord>, log: seq<Entry>)
    requires TransfersOk(ts, next, files, log) && |less| == |ts|
    requires forall i :: 0 <= i < |ts| ==> less[i] == ts[i] || !less[i].active
    ensures TransfersOk(less, next, files, log)
  {
    hide FileLanguage, FileTrace, WasCarried;
    forall i | 0 <= i < |less| ensures TransferOk(less[i], next, files, FileTrace(log, less[i].id)) {
      assert TransferOk(ts[i], next, files, FileTrace(log, ts[i].id));
    }
    forall i, j | 0 <= i < j < |less| ensures Separate(less[i], less[j]) {
      assert Separate(ts[i], ts[j]);
    }
  }

  lemma ClearCallSlot(s: Server, k: Slot)
    requires TablesOk(s)
    ensures TablesOk(s.(calls := s.calls[k := NO_CALL]))
  {
    hide CallsOk, TransfersOk, LogOk;
    CallsShrink(s.calls, s.calls[k := NO_CALL], s.nextCall, s.log);
  }

  lemma ClearTransferSlot(s: Server, k: Slot)
    requires TablesOk(s)
    ensures TablesOk(s.(transfers := s.transfers[k := NO_TRANSFER]))
  {
    hide CallsOk, TransfersOk, LogOk;
    TransfersShrink(s.transfers, s.transfers[k := NO_TRANSFER], s.nextTransfer, s.store.files, s.log);
  }

  // ----- packets of a call -----

  /** A packet of call `id` leaves every other call's trace alone. */
  lemma OtherCallTraces(log: seq<Entry>, e: Entry, id: nat)
    requires e.packet.CallNotify? && e.packet.callId == id
    ensures CallTrace(log + [e], id) == CallTrace(log, id) + [e.packet]
    ensures forall k: nat :: k != id ==> CallTrace(log + [e], k) == CallTrace(log, k)
  {
    forall k: nat ensures k != id ==> CallTrace(log + [e], k) == CallTrace(log, k) {
      CallTraceSnoc(log, e, k);
    }
    CallTraceSnoc(log, e, id);
  }

  lemma CallTracesExtend(next: nat, more: nat, log: seq<Entry>, e: Entry, id: nat)
    requires CallTracesOk(next, log) && 1 <= id < more && next <= more
    requires e.packet.CallNotify? && e.packet.callId == id && CallLanguage(CallTrace(log, id) + [e.packet])
    ensures CallTracesOk(more, log + [e])
  {
    hide CallTrace, CallLanguage;
    OtherCallTraces(log, e, id);
    forall k: nat ensures CallLanguage(CallTrace(log + [e], k)) {
      if k != id { assert CallTrace(log + [e], k) == CallTrace(log, k); }
    }
  }

  /** An operation of an active call extends its trace. */
  lemma RelayedTrace(calls: seq<Call>, next: nat, log: seq<Entry>, k: nat, e: Entry)
    requires CallsOk(calls, next, log) && k < |calls| && calls[k].active && OfCallSlot(calls[k], e.packet)
    ensures CallTracesOk(next, log + [e])
    ensures CallOk(calls[k], next, CallTrace(log, calls[k].id))
    ensures Terminal(e.packet) || CallOk(calls[k], next, CallTrace(log + [e], calls[k].id))
  {
    var c, p := calls[k], e.packet;
    assert CallOk(c, next, CallTrace(log, c.id)) && CallLanguage(CallTrace(log, c.id));
    CallLanguageExtends(CallTrace(log, c.id), p);
    CallTracesExtend(next, next, log, e, c.id);
    OtherCallTraces(log, e, c.id);
  }

  predicate OfCallSlot(c: Call, p: Packet)
  {
    p.CallNotify? && p.callId == c.id && Follows(p, c.caller, c.callee)
  }

  /** Relaying an operation of an active call extends its trace; reject and hangup end the call. */
  lemma CallsRelay(calls: seq<Call>, next: nat, log: seq<Entry>, k: nat, e: Entry)
    requires CallsOk(calls, next, log) && k < |calls| && calls[k].active && OfCallSlot(calls[k], e.packet)
    ensures CallsOk(if Terminal(e.packet) then calls[k := NO_CALL] else calls, next, log + [e])
  {
    hide CallLanguage, CallTrace, CallTracesOk, Follows, Terminal;
    RelayedTrace(calls, next, log, k, e);
    OtherCallTraces(log, e, calls[k].id);
    var after := if Terminal(e.packet) then calls[k := NO_CALL] else calls;
    forall i | 0 <= i < |after| ensures CallOk(after[i], next, CallTrace(log + [e], after[i].id)) {
      assert i != k ==> CallOk(calls[i], next, CallTrace(log, calls[i].id));
      if i < k { assert Disjoint(calls[i], calls[k]); }
      if k < i { assert Disjoint(calls[k], calls[i]); }
    }
    forall i, j | 0 <= i < j < |after| ensures Disjoint(after[i], after[j]) {
      assert Disjoint(calls[i], calls[j]);
    }
  }

  /** A new call gets an id that no packet carries yet, and parties that are in no other call. */
  lemma CallsInvite(calls: seq<Call>, next: nat, log: seq<Entry>, k: nat, c: Call, e: Entry)
    requires CallsOk(calls, next, log) && k < |calls|
    requires c.active && c.id == next && c.caller != 0 && c.callee != 0 && c.caller != c.callee
    requires !HasActiveCall(calls, c.caller) && !HasActiveCall(calls, c.callee)
    requires e.packet.CallNotify? && e.packet.op == Invite && e.packet.callId == c.id
    requires e.packet.from == c.caller && e.packet.to == c.callee
    ensures CallsOk(calls[k := c], next + 1, log + [e])
  {
    assert CallTrace(log, next) == [];
    assert CallLanguage([e.packet]) && [] + [e.packet] == [e.packet];
    CallTracesExtend(next, next + 1, log, e, next);
    OtherCallTraces(log, e, next);
    forall i | 0 <= i < |calls|
      ensures calls[i].active ==> Disjoint(calls[i], c) && Disjoint(c, calls[i])
      ensures i != k ==> CallOk(calls[i], next + 1, CallTrace(log + [e], calls[i].id))
    {
      assert CallOk(calls[i], next, CallTrace(log, calls[i].id));
      assert !(calls[i].active && InCall(calls[i], c.caller)) && !(calls[i].active && InCall(calls[i], c.callee));
    }
    var after := calls[k := c];
    assert CallOk(c, next + 1, CallTrace(log + [e], next));
    forall i, j | 0 <= i < j < |after| ensures Disjoint(after[i], after[j]) {
      assert Disjoint(calls[i], calls[j]);
    }
  }

  /** When the invite cannot be queued, its id is spent all the same. */
  lemma CallsSpendId(calls: seq<Call>, next: nat, log: seq<Entry>)
    requires CallsOk(calls, next, log)
    ensures CallsOk(calls, next + 1, log)
  {
    hide CallLanguage, CallTrace, Terminal;
    forall i | 0 <= i < |calls| ensures CallOk(calls[i], next + 1, CallTrace(log, calls[i].id)) {
      assert CallOk(calls[i], next, CallTrace(log, calls[i].id));
    }
  }

  // ----- packets of a transfer -----

  lemma OtherFileTraces(log: seq<Entry>, e: Entry, id: nat)
    requires IsFilePacket(e.packet) && e.packet.transferId == id
    ensures FileTrace(log + [e], id) == FileTrace(log, id) + [e.packet]
    ensures forall k: nat :: k != id ==> FileTrace(log + [e], k) == FileTrace(log, k)
  {
    forall k: nat ensures k != id ==> FileTrace(log + [e], k) == FileTrace(log, k) {
      FileTraceSnoc(log, e, k);
    }
    FileTraceSnoc(log, e, id);
  }

  lemma FileTracesExtend(next: nat, more: nat, log: seq<Entry>, e: Entry, id: nat)
    requires FileTracesOk(next, log) && 1 <= id < more && next <= more
    requires IsFilePacket(e.packet) && e.packet.transferId == id && FileLanguage(FileTrace(log, id) + [e.packet])
    ensures FileTracesOk(more, log + [e])
  {
    hide FileTrace, FileLanguage;
    OtherFileTraces(log, e, id);
    forall k: nat ensures FileLanguage(FileTrace(log + [e], k)) {
      if k != id { assert FileTrace(log + [e], k) == FileTrace(log, k); }
    }
  }

  /** A file that was carried still is after one more packet. */
  lemma CarriedSurvives(next: nat, log: seq<Entry>, e: Entry, f: S.FileRecord)
    requires WasCarried(log, f) && FileTracesOk(next, log + [e])
    ensures WasCarried(log + [e], f)
  {
    var id: nat :| Carries(FileTrace(log, id), f);
    var t, u := FileTrace(log, id), FileTrace(log + [e], id);
    FileTraceSnoc(log, e, id);
    if u != t {
      RelayedSnoc(t, e.packet);
      assert FileLanguage(u);
    }
    assert Carries(u, f);
  }

  lemma RecordsSurvive(next: nat, files: seq<S.FileRecord>, log: seq<Entry>, e: Entry)
    requires RecordsOk(files, log) && FileTracesOk(next, log + [e])
    ensures RecordsOk(files, log + [e])
  {
    hide FileTracesOk, WasCarried;
    forall i | 0 <= i < |files| && files[i].completed ensures WasCarried(log + [e], files[i]) {
      CarriedSurvives(next, log, e, files[i]);
    }
  }

  /** A packet of transfer slot `k` extends its trace, and the slot is updated to match or cleared. */
  lemma TransfersRelay(ts: seq<Transfer>, next: nat, files: seq<S.FileRecord>, log: seq<Entry>, k: nat, t: Transfer,
        e: Entry)
    requires TransfersOk(ts, next, files, log) && k < |ts| && ts[k].active
    requires IsFilePacket(e.packet) && e.packet.transferId == ts[k].id
    requires FileLanguage(FileTrace(log, ts[k].id) + [e.packet])
    requires t.active ==> t.id == ts[k].id && TransferOk(t, next, files, FileTrace(log, t.id) + [e.packet])
    ensures TransfersOk(ts[k := t], next, files, log + [e])
  {
    hide FileTrace, FileLanguage, Relayed, FileTracesOk, RecordsOk, IsCompleted;
    var after, r := ts[k := t], ts[k].id;
    OtherFileTraces(log, e, r);
    assert TransferOk(ts[k], next, files, FileTrace(log, r));
    FileTracesExtend(next, next, log, e, r);
    RecordsSurvive(next, files, log, e);
    forall i | 0 <= i < |after| ensures TransferOk(after[i], next, files, FileTrace(log + [e], after[i].id)) {
      assert TransferOk(ts[i], next, files, FileTrace(log, ts[i].id));
      if i < k { assert Separate(ts[i], ts[k]); }
      if k < i { assert Separate(ts[k], ts[i]); }
    }
    forall i, j | 0 <= i < j < |after| ensures Separate(after[i], after[j]) {
      assert Separate(ts[i], ts[j]);
    }
  }

  function AfterChunk(t: Transfer, data: seq<byte>): Transfer
  {
    t.(bytesSeen := t.bytesSeen + |data|, nextChunk := t.nextChunk + 1)
  }

  lemma TransfersChunk(ts: seq<Transfer>, next: nat, files: seq<S.FileRecord>, log: seq<Entry>, k: nat, e: Entry,
        data: seq<byte>)
    requires TransfersOk(ts, next, files, log) && k < |ts| && ts[k].active
    requires e.packet == FileChunk(ts[k].id, ts[k].nextChunk, ts[k].sender, ts[k].receiver, data)
    requires 1 <= |data| <= FILE_CHUNK_SIZE && ts[k].bytesSeen + |data| <= ts[k].fileSize
    ensures TransfersOk(ts[k := AfterChunk(ts[k], data)], next, files, log + [e])
  {
    var t, trace := ts[k], FileTrace(log, ts[k].id);
    assert TransferOk(t, next, files, trace) && FileLanguage(trace);
    hide TransfersOk, FileTrace;
    ChunkFits(t, next, files, trace, e.packet);
    TransfersRelay(ts, next, files, log, k, AfterChunk(t, data), e);
  }

  lemma ChunkFits(t: Transfer, next: nat, files: seq<S.FileRecord>, trace: seq<Packet>, p: Packet)
    requires t.active && TransferOk(t, next, files, trace) && FileLanguage(trace)
    requires p.FileChunk? && p.index == t.nextChunk && p.from == t.sender && p.to == t.receiver
    requires 1 <= |p.data| <= FILE_CHUNK_SIZE && t.bytesSeen + |p.data| <= t.fileSize
    ensures FileLanguage(trace + [p]) && TransferOk(AfterChunk(t, p.data), next, files, trace + [p])
  {
    hide Relayed, FileLanguage;
    ChunkExtends(trace, p);
  }

  lemma TransfersComplete(ts: seq<Transfer>, next: nat, files: seq<S.FileRecord>, log: seq<Entry>, k: nat, e: Entry)
    requires TransfersOk(ts, next, files, log) && k < |ts| && ts[k].active && ts[k].bytesSeen == ts[k].fileSize
    requires e.packet == FileComplete(ts[k].id, ts[k].sender, ts[k].receiver)
    ensures TransfersOk(ts[k := NO_TRANSFER], next, files, log + [e])
  {
    var t, trace := ts[k], FileTrace(log, ts[k].id);
    assert TransferOk(t, next, files, trace) && FileLanguage(trace);
    CompleteExtends(trace, e.packet);
    hide FileLanguage, Relayed, FileTrace, TransfersOk;
    TransfersRelay(ts, next, files, log, k, NO_TRANSFER, e);
  }

  /** A finished transfer has carried the file of its record. */
  lemma FinishedIsCarried(ts: seq<Transfer>, next: nat, files: seq<S.FileRecord>, log: seq<Entry>, k: nat)
    requires TransfersOk(ts, next, files, log) && k < |ts| && ts[k].active && ts[k].bytesSeen == ts[k].fileSize
    ensures 1 <= ts[k].storageId <= |files| && WasCarried(log, files[ts[k].storageId - 1])
  {
    var trace := FileTrace(log, ts[k].id);
    assert TransferOk(ts[k], next, files, trace);
    assert Carries(trace, files[ts[k].storageId - 1]);
  }

  /** A record may be marked completed once its file has been carried. */
  lemma TransfersMark(ts: seq<Transfer>, next: nat, files: seq<S.FileRecord>, log: seq<Entry>, j: nat)
    requires TransfersOk(ts, next, files, log) && j < |files| && WasCarried(log, files[j])
    ensures TransfersOk(ts, next, files[j := files[j].(completed := true)], log)
  {
    hide FileLanguage, FileTrace, Relayed, FileTracesOk;
    var marked := files[j := files[j].(completed := true)];
    forall i | 0 <= i < |ts| ensures TransferOk(ts[i], next, marked, FileTrace(log, ts[i].id)) {
      assert TransferOk(ts[i], next, files, FileTrace(log, ts[i].id));
    }
    var id: nat :| Carries(FileTrace(log, id), files[j]);
    assert Carries(FileTrace(log, id), marked[j]);
  }

  lemma TransfersStart(ts: seq<Transfer>, next: nat, files: seq<S.FileRecord>, log: seq<Entry>, k: nat, t: Transfer,
        e: Entry)
    requires TransfersOk(ts, next, files, log) && k < |ts| && t.active && t.id == next && t.sender != t.receiver
    requires 1 <= t.fileSize <= MAX_FILE_SIZE && t.bytesSeen == t.nextChunk == 0
    requires 1 <= t.storageId <= |files| && files[t.storageId - 1].messageId == t.messageId
        && files[t.storageId - 1].fileSize == t.fileSize
    requires e.packet == StartOf(t)
    ensures TransfersOk(ts[k := t], next + 1, files, log + [e])
  {
    hide FileTrace, FileLanguage, Relayed, RecordsOk, IsCompleted;
    assert FileTrace(log, next) == [];
    StartTrace(t, next, files);
    assert [] + [e.packet] == [e.packet];
    FileTracesExtend(next, next + 1, log, e, next);
    RecordsSurvive(next + 1, files, log, e);
    OtherFileTraces(log, e, next);
    forall i | 0 <= i < |ts|
      ensures i != k ==> TransferOk(ts[i], next + 1, files, FileTrace(log + [e], ts[i].id))
      ensures ts[i].active ==> ts[i].id != next
    {
      assert TransferOk(ts[i], next, files, FileTrace(log, ts[i].id));
    }
    var after := ts[k := t];
    forall i, j | 0 <= i < j < |ts| ensures Separate(after[i], after[j]) {
      assert Separate(ts[i], ts[j]);
    }
  }

  lemma StartTrace(t: Transfer, next: nat, files: seq<S.FileRecord>)
    requires t.active && t.id == next && 1 <= next && t.sender != t.receiver
    requires 1 <= t.fileSize <= MAX_FILE_SIZE && t.bytesSeen == t.nextChunk == 0
    requires 1 <= t.storageId <= |files| && files[t.storageId - 1].messageId == t.messageId
        && files[t.storageId - 1].fileSize == t.fileSize
    ensures TransferOk(t, next + 1, files, [StartOf(t)]) && FileLanguage([StartOf(t)])
  {
    RelayedSnoc([], StartOf(t));
    assert [] + [StartOf(t)] == [StartOf(t)];
  }

  /** When the start cannot be queued, its id is spent all the same. */
  lemma TransfersSpendId(ts: seq<Transfer>, next: nat, files: seq<S.FileRecord>, log: seq<Entry>)
    requires TransfersOk(ts, next, files, log)
    ensures TransfersOk(ts, next + 1, files, log)
  {
    hide FileLanguage, FileTrace, Relayed, RecordsOk, IsCompleted;
    forall i | 0 <= i < |ts| ensures TransferOk(ts[i], next + 1, files, FileTrace(log, ts[i].id)) {
      assert TransferOk(ts[i], next, files, FileTrace(log, ts[i].id));
    }
  }

  /** New records, not yet completed, disturb no transfer. */
  lemma FilesGrow(ts: seq<Transfer>, next: nat, files: seq<S.FileRecord>, more: seq<S.FileRecord>, log: seq<Entry>)
    requires TransfersOk(ts, next, files, log) && files <= more
    requires forall i :: |files| <= i < |more| ==> !more[i].completed
    ensures TransfersOk(ts, next, more, log)
  {
    hide FileLanguage, FileTrace, Relayed, WasCarried;
    forall i | 0 <= i < |ts| ensures TransferOk(ts[i], next, more, FileTrace(log, ts[i].id)) {
      assert TransferOk(ts[i], next, files, FileTrace(log, ts[i].id));
    }
  }

  lemma LogGrows(log: seq<Entry>, e: Entry)
    requires LogOk(log) && Addressed(e)
    ensures LogOk(log + [e])
  {
  }
}
