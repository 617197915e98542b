/** What a file request does to the server: what is stored, what is queued for whom, and what becomes of the
    transfer. */
module FileEffects {
  import opened Wire
  import opened Server
  import opened ServerTraces
  import opened ServerLaws
  import opened ServerSteps
  import opened Delivery
  import opened CallEffects
  import S = Storage
  import L = StorageLaws
  import X = StorageEffects

  const BLANK := Transfer(false, 0, 0, 0, 0, 0, 0, "", 0, 0, 0, 0)

  lemma AllReplies(s: Server, i: Slot)
    requires s.clients[i].isOpen
    ensures forall t: Server, group: Group, status: Status,
        ids: seq<nat> {:trigger Queue(t, i, Reply(group, status, ids))} ::
              t.clients == s.clients ==>
                  Queue(t, i, Reply(group, status, ids)) == Answered(t, i, Reply(group, status, ids))
  {
  }

  /** The active transfer with this id is in slot `k`. */
  predicate IsTransferAt(s: Server, id: nat, k: Slot) { s.transfers[k].active && s.transfers[k].id == id }

  lemma TransferIds(s: Server, a: Slot, b: Slot)
    requires Inv(s) && s.transfers[a].active
    ensures s.transfers[a].id != 0 && s.transfers[a].sender != s.transfers[a].receiver
    ensures a != b && s.transfers[b].active ==> s.transfers[a].id != s.transfers[b].id
  {
    hide ClientsOk, CallsOk, LogOk, FileTracesOk, RecordsOk, L.StoreOk, FileTrace, Relayed;
    assert TransferOk(s.transfers[a], s.nextTransfer, s.store.files, FileTrace(s.log, s.transfers[a].id));
    if a < b { assert Separate(s.transfers[a], s.transfers[b]); }
    if b < a { assert Separate(s.transfers[b], s.transfers[a]); }
  }

  lemma TransferFound(s: Server, id: nat, k: Slot)
    requires Inv(s)
    ensures IsTransferAt(s, id, k) ==> id != 0 && FindTransfer(s.transfers, id) == k
    ensures id != 0 && (forall n: Slot :: !IsTransferAt(s, id, n)) ==> FindTransfer(s.transfers, id) == MAX_CLIENTS
    ensures FindTransfer(s.transfers, id) < MAX_CLIENTS ==> IsTransferAt(s, id, FindTransfer(s.transfers, id))
  {
    hide Inv;
    var f := FindTransfer(s.transfers, id);
    if IsTransferAt(s, id, k) { TransferIds(s, k, k); }
    if f < MAX_CLIENTS {
      assert IsTransferAt(s, id, f);
      TransferIds(s, f, k);
    }
  }

  /** Slot `k` is the first without an active transfer. */
  predicate IsFirstIdle(s: Server, k: Slot)
  {
    !s.transfers[k].active && forall n :: 0 <= n < k ==> s.transfers[n].active
  }

  lemma FirstIdle(s: Server, k: Slot)
    ensures IsFirstIdle(s, k) ==> FindFreeTransfer(s.transfers) == k
    ensures (forall n: Slot :: s.transfers[n].active) <==> FindFreeTransfer(s.transfers) == MAX_CLIENTS
  {
  }

  // ----- starting -----

  predicate IsStart(s: Server, i: Slot, r: Request)
    requires r.StartFile?
  {
    r.receiver != 0 && r.receiver != s.clients[i].userId && 1 <= r.fileSize <= 1048576 && X.IsText(r.fileName, 255)
  }

  /** What storing the file does. */
  function Storing(s: Server, i: Slot, r: Request): S.Out
    requires r.StartFile?
  {
    var text := S.Message(0, 0, s.clients[i].userId, r.receiver, 2, r.content, 0, 0, 0);
    S.StoreFileTransfer(s.store, text, r.fileName, r.fileSize, r.crc32)
  }

  /** A start that cannot be made is answered with the reason and changes nothing else. */
  lemma StartRefused(s: Server, i: Slot, r: Request)
    requires Inv(s) && s.clients[i].isOpen && s.clients[i].authenticated && r.StartFile?
    ensures var out, idle := Dispatch(s, i, r), exists n: Slot :: !s.transfers[n].active;
      && (!IsStart(s, i, r) ==> out == Answered(s, i, Reply(FileGroup, InvalidArgument, [])))
      && (IsStart(s, i, r) && IsAway(s, r.receiver) ==> out == Answered(s, i, Reply(FileGroup, NotFound, [])))
      && (IsStart(s, i, r) && !IsAway(s, r.receiver) && !idle ==>
            out == Answered(s, i, Reply(FileGroup, BufferTooSmall, [])))
      && (IsStart(s, i, r) && !IsAway(s, r.receiver) && idle && Storing(s, i, r).status != OK ==>
            out == Answered(s, i, Reply(FileGroup, Storing(s, i, r).status, [])))
  {
    hide Inv, Queue, Answered, FindUser, S.StoreFileTransfer, BeginTransfer;
    PlaceOf(s, r.receiver, 0);
    FirstIdle(s, 0);
    AllReplies(s, i);
  }

  /** The rows that a stored file adds, by number, and the transfer made of them. */
  function NewTransfer(s: Server, i: Slot, r: Request): Transfer
    requires r.StartFile?
  {
    Transfer(true, s.nextTransfer, |s.store.files| + 1, |s.store.messages| + 1, |s.store.deliveries| + 1,
             s.clients[i].userId, r.receiver, r.fileName, r.fileSize, 0, 0, r.crc32)
  }

  ghost predicate CanStart(s: Server, i: Slot, r: Request, k: Slot, j: Slot)
    requires r.StartFile?
  {
    && s.clients[i].isOpen && s.clients[i].authenticated && IsStart(s, i, r) && Storing(s, i, r).status == OK
    && IsAt(s, r.receiver, j) && IsFirstIdle(s, k)
  }

  lemma StartFound(s: Server, i: Slot, r: Request, k: Slot, j: Slot)
    requires Inv(s) && r.StartFile? && CanStart(s, i, r, k, j)
    ensures FindUser(s.clients, r.receiver) == j && FindFreeTransfer(s.transfers) == k && i != j
    ensures Dispatch(s, i, r) == BeginTransfer(s.(store := Storing(s, i, r).store), i, j, k, NewTransfer(s, i, r))
  {
    hide Inv, FindUser, S.StoreFileTransfer, BeginTransfer, X.IsStored, L.StoreOk;
    PlaceOf(s, r.receiver, j);
    FirstIdle(s, k);
    StoreOfInv(s);
    var text := S.Message(0, 0, s.clients[i].userId, r.receiver, 2, r.content, 0, 0, 0);
    X.FileStored(s.store, text, r.fileName, r.fileSize, r.crc32);
    StoredIds(s, i, r);
  }

  /** The ids that storing hands out are those of the rows it adds. */
  lemma StoredIds(s: Server, i: Slot, r: Request)
    requires Inv(s) && r.StartFile? && Storing(s, i, r).status == OK
    ensures var out := Storing(s, i, r);
      && out.fileId == |s.store.files| + 1 && out.id == |s.store.messages| + 1
      && out.deliveryId == |s.store.deliveries| + 1
      && out.store.deliveries == s.store.deliveries + [S.Delivery(out.deliveryId, out.id, r.receiver, 1, 0, 0)]
      && |out.store.messages| == out.id
      && out.store.messages[out.id - 1].sender == s.clients[i].userId
      && out.store.messages[out.id - 1].receiver == r.receiver
      && out.store.files == s.store.files
          + [S.FileRecord(out.fileId, out.id, s.clients[i].userId, r.receiver, r.fileName,
                                                          r.fileSize, r.crc32, false)]
  {
    hide Inv, S.StoreFileTransfer, X.PairAdded, X.HasPlace, L.StoreOk;
    StoreOfInv(s);
    var text := S.Message(0, 0, s.clients[i].userId, r.receiver, 2, r.content, 0, 0, 0);
    X.FileStored(s.store, text, r.fileName, r.fileSize, r.crc32);
  }

  /** A start stores the file and opens a transfer, with the next id, in the first free slot. The receiver is told
      of it, under the numbers of the message and the delivery that were stored, and then the sender, if its own
      slot is free. */
  lemma StartExact(s: Server, i: Slot, r: Request, k: Slot, j: Slot)
    requires Inv(s) && r.StartFile? && CanStart(s, i, r, k, j) && s.clients[j].pending.None?
    ensures var messageId, deliveryId := |s.store.messages| + 1, |s.store.deliveries| + 1;
      var notify := FileStart(s.nextTransfer, messageId, deliveryId, s.clients[i].userId, r.receiver, r.fileName,
                              r.fileSize, r.crc32);
      var told := s.(clients := s.clients[j := s.clients[j].(pending := Some(notify))], store := Storing(s, i, r).store,
                     transfers := s.transfers[k := NewTransfer(s, i, r)], nextTransfer := s.nextTransfer + 1,
                     log := s.log + [Entry(j, r.receiver, notify)]);
      && i != j
      && Dispatch(s, i, r) == Answered(told, i, Reply(FileGroup, OK, [s.nextTransfer, messageId, deliveryId]))
  {
    hide Inv, FindUser, Storing, Dispatch, Answered;
    StartFound(s, i, r, k, j);
    var x := NewTransfer(s, i, r);
    var told := s.(clients := s.clients[j := s.clients[j].(pending := Some(StartOf(x)))],
                   store := Storing(s, i, r).store, transfers := s.transfers[k := x],
                   nextTransfer := s.nextTransfer + 1, log := s.log + [Entry(j, r.receiver, StartOf(x))]);
    Replies(told, i, Reply(FileGroup, OK, [x.id, x.messageId, x.deliveryId]));
  }

  /** When the receiver's slot is busy nobody is told or answered and no transfer is left; the file stays stored
      and the transfer's id is spent. */
  lemma StartToBusy(s: Server, i: Slot, r: Request, k: Slot, j: Slot)
    requires Inv(s) && r.StartFile? && CanStart(s, i, r, k, j) && s.clients[j].pending.Some?
    ensures Dispatch(s, i, r)
         == Outcome(s.(store := Storing(s, i, r).store, transfers := s.transfers[k := BLANK],
                       nextTransfer := s.nextTransfer + 1), BufferTooSmall)
  {
    hide Inv, FindUser, Storing, Dispatch;
    StartFound(s, i, r, k, j);
  }

  // ----- chunks -----

  /** The user on slot `i` is the sender of the transfer in slot `k`. */
  predicate IsSenderOf(s: Server, i: Slot, id: nat, k: Slot)
  {
    IsTransferAt(s, id, k) && s.transfers[k].sender == s.clients[i].userId
  }

  ghost predicate SendsNothing(s: Server, i: Slot, id: nat) { forall n: Slot :: !IsSenderOf(s, i, id, n) }

  lemma SenderFound(s: Server, i: Slot, id: nat, k: Slot)
    requires Inv(s)
    ensures IsSenderOf(s, i, id, k) ==> id != 0 && FindTransfer(s.transfers, id) == k
    ensures id != 0 && SendsNothing(s, i, id) ==>
      var f := FindTransfer(s.transfers, id); f == MAX_CLIENTS || s.transfers[f].sender != s.clients[i].userId
  {
    hide Inv;
    TransferFound(s, id, k);
    var f := FindTransfer(s.transfers, id);
    if f < MAX_CLIENTS && SendsNothing(s, i, id) { assert !IsSenderOf(s, i, id, f); }
  }

  predicate IsChunkData(id: nat, data: seq<byte>) { id != 0 && 1 <= |data| <= 32768 }

  /** A chunk that is not one, or not of a transfer of the user's, or longer than what is left, is refused; one
      under a wrong index, or for a receiver who has left, ends its transfer. */
  lemma ChunkRefused(s: Server, i: Slot, id: nat, index: nat, data: seq<byte>, k: Slot)
    requires Inv(s) && s.clients[i].isOpen && s.clients[i].authenticated
    ensures var out, x := Dispatch(s, i, SendChunk(id, index, data)), s.transfers[k];
      var ended := s.(transfers := s.transfers[k := BLANK]);
      && (!IsChunkData(id, data) ==> out == Answered(s, i, Reply(FileGroup, InvalidArgument, [])))
      && (IsChunkData(id, data) && SendsNothing(s, i, id) ==> out == Answered(s, i, Reply(FileGroup, NotFound, [])))
      && (IsChunkData(id, data) && IsSenderOf(s, i, id, k) ==>
            && (x.bytesSeen + |data| > x.fileSize ==> out == Answered(s, i, Reply(FileGroup, InvalidArgument, [])))
            && (x.bytesSeen + |data| <= x.fileSize && index != x.nextChunk ==>
                  out == Answered(ended, i, Reply(FileGroup, InvalidArgument, [])))
            && (x.bytesSeen + |data| <= x.fileSize && index == x.nextChunk && IsAway(s, x.receiver) ==>
                  out == Answered(ended, i, Reply(FileGroup, NotFound, []))))
  {
    hide Inv, Queue, Answered, FindUser, IsSenderOf, SendsNothing;
    SenderFound(s, i, id, k);
    SenderIs(s, i, id, k);
    PlaceOf(s, s.transfers[k].receiver, 0);
    AllReplies(s, i);
  }

  lemma SenderIs(s: Server, i: Slot, id: nat, k: Slot)
    ensures IsSenderOf(s, i, id, k) ==> IsTransferAt(s, id, k) && s.transfers[k].sender == s.clients[i].userId
  {
  }

  /** The next chunk of a transfer, to its receiver on slot `j`. */
  predicate IsNextChunk(s: Server, i: Slot, id: nat, index: nat, data: seq<byte>, k: Slot, j: Slot)
  {
    && s.clients[i].isOpen && s.clients[i].authenticated && IsChunkData(id, data) && IsSenderOf(s, i, id, k)
    && index == s.transfers[k].nextChunk && s.transfers[k].bytesSeen + |data| <= s.transfers[k].fileSize
    && IsAt(s, s.transfers[k].receiver, j)
  }

  /** The next chunk is relayed as it was submitted and counted, and its sender told, if its slot is free, that
      it was. */
  lemma ChunkExact(s: Server, i: Slot, id: nat, index: nat, data: seq<byte>, k: Slot, j: Slot)
    requires Inv(s) && IsNextChunk(s, i, id, index, data, k, j) && s.clients[j].pending.None?
    ensures var x := s.transfers[k];
      var notify := FileChunk(id, index, x.sender, x.receiver, data);
      var y := x.(bytesSeen := x.bytesSeen + |data|, nextChunk := index + 1);
      var told := s.(clients := s.clients[j := s.clients[j].(pending := Some(notify))],
                     transfers := s.transfers[k := y], log := s.log + [Entry(j, x.receiver, notify)]);
      && i != j
      && Dispatch(s, i, SendChunk(id, index, data))
           == Answered(told, i, Reply(FileGroup, OK, [id, x.messageId, x.deliveryId]))
  {
    hide Inv, FindUser, Answered, Dispatch;
    var x := s.transfers[k];
    ChunkDispatched(s, i, id, index, data);
    SenderFound(s, i, id, k);
    TransferIds(s, k, k);
    PlaceOf(s, x.receiver, j);
    var notify := FileChunk(id, index, x.sender, x.receiver, data);
    var y := x.(bytesSeen := x.bytesSeen + |data|, nextChunk := index + 1);
    var told := s.(clients := s.clients[j := s.clients[j].(pending := Some(notify))],
                   transfers := s.transfers[k := y], log := s.log + [Entry(j, x.receiver, notify)]);
    Replies(told, i, Reply(FileGroup, OK, [id, x.messageId, x.deliveryId]));
  }

  lemma ChunkDispatched(s: Server, i: Slot, id: nat, index: nat, data: seq<byte>)
    requires s.clients[i].authenticated
    ensures Dispatch(s, i, SendChunk(id, index, data)) == HandleFileChunk(s, i, id, index, data)
  {
    hide HandleFileChunk;
  }

  /** When the receiver's slot is busy nothing changes and nobody is answered. */
  lemma ChunkToBusy(s: Server, i: Slot, id: nat, index: nat, data: seq<byte>, k: Slot, j: Slot)
    requires Inv(s) && IsNextChunk(s, i, id, index, data, k, j) && s.clients[j].pending.Some?
    ensures Dispatch(s, i, SendChunk(id, index, data)) == Outcome(s, BufferTooSmall)
  {
    hide Inv, FindUser;
    SenderFound(s, i, id, k);
    PlaceOf(s, s.transfers[k].receiver, j);
  }

  // ----- completing -----

  lemma CompleteRefused(s: Server, i: Slot, id: nat, k: Slot)
    requires Inv(s) && s.clients[i].isOpen && s.clients[i].authenticated
    ensures var out := Dispatch(s, i, CompleteFile(id));
      && (id == 0 ==> out == Answered(s, i, Reply(FileGroup, InvalidArgument, [])))
      && (id != 0 && SendsNothing(s, i, id) ==> out == Answered(s, i, Reply(FileGroup, NotFound, [])))
      && (IsSenderOf(s, i, id, k) && s.transfers[k].bytesSeen != s.transfers[k].fileSize ==>
            out == Answered(s, i, Reply(FileGroup, InvalidState, [])))
  {
    hide Inv, Queue, Answered, IsSenderOf, SendsNothing;
    SenderFound(s, i, id, k);
    SenderIs(s, i, id, k);
    AllReplies(s, i);
  }

  /** The record is completed and the transfer gone. */
  function Marked(s: Server, k: Slot): Server
    requires 1 <= s.transfers[k].storageId <= |s.store.files|
  {
    var n := s.transfers[k].storageId - 1;
    s.(transfers := s.transfers[k := BLANK],
       store := s.store.(files := s.store.files[n := s.store.files[n].(completed := true)]))
  }

  lemma ReplyThenBlank(t: Server, i: Slot, k: Slot, p: Packet)
    requires t.clients[i].isOpen && !p.CallNotify?
    ensures var replied := Queue(t, i, p);
      Outcome(replied.server.(transfers := replied.server.transfers[k := BLANK]), replied.status)
        == Answered(t.(transfers := t.transfers[k := BLANK]), i, p)
  {
  }

  lemma CompletionTold(s: Server, x: Transfer, j: Slot)
    ensures TellCompleted(s, x).store == s.store
    ensures forall i: Slot :: TellCompleted(s, x).clients[i].isOpen == s.clients[i].isOpen
    ensures FindUser(s.clients, x.receiver) == MAX_CLIENTS ==> TellCompleted(s, x) == s
    ensures FindUser(s.clients, x.receiver) == j && s.clients[j].pending.Some? ==> TellCompleted(s, x) == s
    ensures FindUser(s.clients, x.receiver) == j && s.clients[j].pending.None? && IsAt(s, x.receiver, j) ==>
      TellCompleted(s, x) == Given(s, j, FileComplete(x.id, x.sender, x.receiver))
  {
    hide FindUser;
  }

  /** Completing a transfer whose bytes have all been relayed marks the record, tells the receiver if it is on a
      free slot and the sender if its slot is free, and clears the transfer in any case. */
  lemma CompleteExact(s: Server, i: Slot, id: nat, k: Slot, j: Slot)
    requires Inv(s) && s.clients[i].isOpen && s.clients[i].authenticated && IsSenderOf(s, i, id, k)
    requires s.transfers[k].bytesSeen == s.transfers[k].fileSize
    ensures var x, out := s.transfers[k], Dispatch(s, i, CompleteFile(id));
      var notify := FileComplete(id, x.sender, x.receiver);
      var reply := Reply(FileGroup, OK, [id, x.messageId, x.deliveryId]);
      && 1 <= x.storageId <= |s.store.files|
      && (IsAt(s, x.receiver, j) ==> i != j)
      && (IsAt(s, x.receiver, j) && s.clients[j].pending.None? ==>
            out == Answered(Given(Marked(s, k), j, notify), i, reply))
      && (IsAway(s, x.receiver) || (IsAt(s, x.receiver, j) && s.clients[j].pending.Some?) ==>
            out == Answered(Marked(s, k), i, reply))
  {
    hide Inv, FindUser, Answered, Dispatch, TellCompleted, CompleteStored;
    var x := s.transfers[k];
    TransferIds(s, k, k);
    TransferRecord(s, k);
    CompleteShape(s, i, id, k);
    SenderIs(s, i, id, k);
    PlaceOf(s, x.receiver, j);
    CompletionTold(s, x, j);
    StoredIsMarked(s, k);
    if IsAt(s, x.receiver, j) && s.clients[j].pending.None? {
      StoredAfterTelling(s, k, j, FileComplete(id, x.sender, x.receiver));
    }
  }

  /** The transfer of `s` in slot `k` is completed in the state `told`. */
  function CompleteStored(s: Server, told: Server, k: Slot): Server
    requires 1 <= s.transfers[k].storageId <= |s.store.files|
  {
    var n := s.transfers[k].storageId - 1;
    told.(transfers := told.transfers[k := BLANK],
          store := told.store.(files := s.store.files[n := s.store.files[n].(completed := true)]))
  }

  lemma StoredIsMarked(s: Server, k: Slot)
    requires 1 <= s.transfers[k].storageId <= |s.store.files|
    ensures CompleteStored(s, s, k) == Marked(s, k)
  {
  }

  lemma StoredAfterTelling(s: Server, k: Slot, j: Slot, p: Packet)
    requires 1 <= s.transfers[k].storageId <= |s.store.files|
    ensures CompleteStored(s, Given(s, j, p), k) == Given(Marked(s, k), j, p)
  {
  }

  lemma CompleteDispatched(s: Server, i: Slot, id: nat)
    requires s.clients[i].authenticated
    ensures Dispatch(s, i, CompleteFile(id)) == HandleFileComplete(s, i, id)
  {
    hide HandleFileComplete;
  }

  lemma CompleteShape(s: Server, i: Slot, id: nat, k: Slot)
    requires Inv(s) && s.clients[i].isOpen && s.clients[i].authenticated && IsSenderOf(s, i, id, k)
    requires s.transfers[k].bytesSeen == s.transfers[k].fileSize && 1 <= s.transfers[k].storageId <= |s.store.files|
    ensures var x := s.transfers[k];
      Dispatch(s, i, CompleteFile(id)) == Answered(CompleteStored(s, TellCompleted(s, x), k), i,
                                                   Reply(FileGroup, OK, [id, x.messageId, x.deliveryId]))
  {
    hide Inv, FindUser, Answered, L.StoreOk, S.CompleteFileTransfer, TellCompleted, Dispatch, Queue;
    var x := s.transfers[k];
    CompleteDispatched(s, i, id);
    SenderFound(s, i, id, k);
    StoreOfInv(s);
    X.FileCompleted(s.store, x.storageId);
    CompletionTold(s, x, 0);
    var told := TellCompleted(s, x);
    var stored := told.(store := S.CompleteFileTransfer(s.store, x.storageId).store);
    ReplyThenBlank(stored, i, k, Reply(FileGroup, OK, [id, x.messageId, x.deliveryId]));
  }
}
