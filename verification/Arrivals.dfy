/** Runs from empty tables in which a whole file is sent: its receiver can be told of all of it, and can be
    told of all but the end. */
module Arrivals {
  import opened Wire
  import opened Server
  import opened ServerTraces
  import opened ServerLaws
  import opened ServerSteps
  import opened Delivery
  import opened Scenarios
  import S = Storage
  import C = Crc32
  import F = FileTransfer
  import E = EndToEnd
  import T = ServerTheorems

  // ----- the runs -----

  function Announce(file: seq<byte>): Request { StartFile(2, "f", |file|, C.Crc(0, file), "f") }

  /** The receiver's connection is flushed before each piece, the sender's when the piece is read. */
  function PieceEvents(index: nat, chunks: seq<seq<byte>>): seq<Event>
    decreases |chunks|
  {
    if chunks == [] then []
    else READY + [Asks(0, SendChunk(1, index, chunks[0]))] + PieceEvents(index + 1, chunks[1..])
  }

  /** Everything is relayed, the last piece is still pending. */
  function Sending(file: seq<byte>): seq<Event>
  {
    OPENING + READY + [Asks(0, Announce(file))] + PieceEvents(0, F.Chunks(file))
  }

  /** What somebody is told who is told of all packets of a transfer in order. */
  function Notifies(t: seq<Packet>): seq<F.Notify>
  {
    if t == [] then [] else Notifies(t[..|t| - 1]) + [E.NotifyOf(t[|t| - 1])]
  }

  lemma NotifiesSnoc(t: seq<Packet>, p: Packet)
    ensures Notifies(t + [p]) == Notifies(t) + [E.NotifyOf(p)]
  {
    assert (t + [p])[..|t|] == t;
  }

  predicate NoCompletion(log: seq<Entry>)
  {
    forall k :: 0 <= k < |log| ==> !log[k].packet.FileComplete?
  }

  /** User 1 is sending `file` to user 2 and has sent `done` bytes in `index` pieces; `rest` is to come. */
  predicate Relaying(s: Server, file: seq<byte>, index: nat, done: nat, rest: seq<seq<byte>>)
  {
    && s.clients[0].isOpen && s.clients[0].authenticated && s.clients[0].userId == 1
    && IsUser(s.clients[1], 2) && s.clients[1].pending.Some?
    && IsRelay(s.transfers[0], file, index, done)
    && NoCompletion(s.log)
    && Notifies(FileTrace(s.log, 1)) + (F.Pieces(1, index, rest) + [F.Complete(1)]) == F.Telling(1, "f", file)
  }

  predicate IsRelay(t: Transfer, file: seq<byte>, index: nat, done: nat)
  {
    IsTransfer(t, 1) && t.sender == 1 && t.receiver == 2 && t.fileSize == |file| && t.bytesSeen == done
        && t.nextChunk == index
  }

  // ----- the start -----

  lemma FileIsStored(file: seq<byte>)
    requires 1 <= |file| <= MAX_FILE_SIZE
    ensures var m := S.Message(0, 0, 1, 2, S.CONTENT_FILE, "f", 0, 0, 0);
      S.StoreFileTransfer(TwoAccounts(), m, "f", |file|, C.Crc(0, file)).status == OK
  {
    hide S.First, S.FindAccountById, C.Crc;
    assert TwoAccounts().accounts[0].userId == 1 && TwoAccounts().accounts[1].userId == 2;
  }

  /** One file packet and one reply are queued. */
  lemma TraceGrows(log: seq<Entry>, a: Entry, b: Entry)
    requires IsFilePacket(a.packet) && a.packet.transferId == 1 && !IsFilePacket(b.packet)
    ensures var more := log + [a] + [b];
      && FileTrace(more, 1) == FileTrace(log, 1) + [a.packet]
      && Notifies(FileTrace(more, 1)) == Notifies(FileTrace(log, 1)) + [E.NotifyOf(a.packet)]
      && (NoCompletion(log) && !a.packet.FileComplete? ==> NoCompletion(more))
  {
    hide FileTrace, Notifies;
    FileTraceSnoc(log, a, 1);
    FileTraceSnoc(log + [a], b, 1);
    NotifiesSnoc(FileTrace(log, 1), a.packet);
  }

  lemma NoTraceYet(log: seq<Entry>)
    requires |log| == 2 && log[0].packet.Reply? && log[1].packet.Reply?
    ensures Notifies(FileTrace(log, 1)) == [] && NoCompletion(log)
  {
    assert log[..1][..0] == [];
    assert FileTrace(log[..1], 1) == [];
  }

  /** What a turn of user 1 leaves when it queues `notify` for user 2 and answers. */
  ghost predicate ToldAndAnswered(s: Server, t: Server, notify: Packet)
  {
    && t.clients[0].isOpen && t.clients[0].authenticated && t.clients[0].userId == 1
    && IsUser(t.clients[1], 2) && t.clients[1].pending == Some(notify)
    && exists reply: Packet :: reply.Reply? && t.log == s.log + [Entry(1, 2, notify)] + [Entry(0, 1, reply)]
  }

  lemma TellAndAnswer(s: Server, notify: Packet, reply: Packet, s1: Server)
    requires IsReady(s.clients[0]) && s.clients[0].authenticated && s.clients[0].userId == 1
    requires IsUser(s.clients[1], 2) && s.clients[1].pending.None? && !notify.CallNotify? && reply.Reply?
    requires var told := Queue(s, 1, notify).server; s1.clients == told.clients && s1.log == told.log
    ensures Queue(s, 1, notify).status == OK && Queue(s1, 0, reply).status == OK
    ensures ToldAndAnswered(s, Queue(s1, 0, reply).server, notify)
  {
    QueueReady(s, 1, notify);
    QueueReady(s1, 0, reply);
  }

  /** The turn of a connection that is flushed, read, and gets an answer. */
  lemma AnsweredTurn(s: Server, r: Request)
    requires s.clients[0].isOpen && Dispatch(Flushed(s, 0), 0, r).status == OK
    ensures Step(s, Asks(0, r)) == Dispatch(Flushed(s, 0), 0, r).server
  {
    hide Dispatch, CloseClient;
  }

  lemma StartHandled(s: Server, file: seq<byte>)
    requires IsReady(s.clients[0]) && s.clients[0].userId == 1 && IsUser(s.clients[0], 1)
    requires IsUser(s.clients[1], 2) && s.clients[1].pending.None? && FindUser(s.clients, 2) == 1
    requires s.transfers == Slots(NO_TRANSFER) && s.nextTransfer == 1 && s.store == TwoAccounts()
    requires NoCompletion(s.log) && Notifies(FileTrace(s.log, 1)) == []
    requires 1 <= |file| <= MAX_FILE_SIZE
    ensures var out := Dispatch(s, 0, Announce(file));
      out.status == OK && Relaying(out.server, file, 0, 0, F.Chunks(file))
  {
    hide S.StoreFileTransfer, C.Crc, F.Chunks, F.Pieces, Queue, FindUser, FileTrace, Notifies, NoCompletion, Relaying,
      IsReady;
    FileIsStored(file);
    assert FindFreeTransfer(s.transfers) == 0;
    var m := S.Message(0, 0, 1, 2, S.CONTENT_FILE, "f", 0, 0, 0);
    var out := S.StoreFileTransfer(s.store, m, "f", |file|, C.Crc(0, file));
    var x := Transfer(true, 1, out.fileId, out.id, out.deliveryId, 1, 2, "f", |file|, 0, 0, C.Crc(0, file));
    var s2 := s.(store := out.store);
    StartBegun(s2, x, file);
    assert Dispatch(s, 0, Announce(file)) == BeginTransfer(s2, 0, 1, 0, x);
  }

  lemma StartBegun(s: Server, x: Transfer, file: seq<byte>)
    requires IsReady(s.clients[0]) && IsUser(s.clients[0], 1) && IsUser(s.clients[1], 2) && s.clients[1].pending.None?
    requires NoCompletion(s.log) && Notifies(FileTrace(s.log, 1)) == []
    requires IsRelay(x, file, 0, 0) && x.fileName == "f" && x.crc32 == C.Crc(0, file)
    ensures var out := BeginTransfer(s, 0, 1, 0, x);
      out.status == OK && Relaying(out.server, file, 0, 0, F.Chunks(file))
  {
    hide C.Crc, F.Chunks, F.Pieces, Queue, FileTrace, Notifies, NoCompletion, Relaying;
    var s1 := s.(nextTransfer := s.nextTransfer + 1, transfers := s.transfers[0 := x]);
    var reply := Reply(FileGroup, OK, [x.id, x.messageId, x.deliveryId]);
    TellAndAnswer(s1, StartOf(x), reply, Queue(s1, 1, StartOf(x)).server);
    QueueFrame(s1, 1, StartOf(x));
    QueueFrame(Queue(s1, 1, StartOf(x)).server, 0, reply);
    StartsRelaying(s, BeginTransfer(s, 0, 1, 0, x).server, StartOf(x), file);
  }

  lemma StartTurn(s: Server, file: seq<byte>)
    requires Listens(s) && 1 <= |file| <= MAX_FILE_SIZE
    ensures Relaying(Step(s, Asks(0, Announce(file))), file, 0, 0, F.Chunks(file))
  {
    hide C.Crc, F.Chunks, F.Pieces, Dispatch, FindUser, FileTrace, Notifies, Step, Relaying, NoCompletion;
    var s1 := Flushed(s, 0);
    SecondUser(s1.clients);
    NoTraceYet(s.log);
    StartHandled(s1, file);
    AnsweredTurn(s, Announce(file));
  }

  lemma StartsRelaying(s: Server, t: Server, start: Packet, file: seq<byte>)
    requires ToldAndAnswered(s, t, start) && IsRelay(t.transfers[0], file, 0, 0)
    requires NoCompletion(s.log) && Notifies(FileTrace(s.log, 1)) == []
    requires start.FileStart? && E.NotifyOf(start) == F.Start(1, "f", |file|, C.Crc(0, file)) && start.transferId == 1
    ensures Relaying(t, file, 0, 0, F.Chunks(file))
  {
    hide C.Crc, F.Chunks, F.Pieces, FileTrace, Notifies, NoCompletion;
    var reply: Packet :| reply.Reply? && t.log == s.log + [Entry(1, 2, start)] + [Entry(0, 1, reply)];
    TraceGrows(s.log, Entry(1, 2, start), Entry(0, 1, reply));
    assert [] + [E.NotifyOf(start)] == [E.NotifyOf(start)];
  }

  // ----- the pieces -----

  lemma PieceTurn(s: Server, file: seq<byte>, index: nat, done: nat, data: seq<byte>, rest: seq<seq<byte>>)
    requires Relaying(s, file, index, done, [data] + rest)
    requires 1 <= |data| <= FILE_CHUNK_SIZE && done + |data| <= |file|
    ensures Relaying(Step(Flushed(s, 1), Asks(0, SendChunk(1, index, data))), file, index + 1, done + |data|, rest)
  {
    hide C.Crc, F.Pieces, Dispatch, FindUser, FileTrace, Notifies, NoCompletion, F.Telling, Step;
    var s1 := Flushed(Flushed(s, 1), 0);
    SecondUser(s1.clients);
    PieceHandled(s1, file, index, done, data);
    AnsweredTurn(Flushed(s, 1), SendChunk(1, index, data));
    var t := Dispatch(s1, 0, SendChunk(1, index, data)).server;
    KeepsRelaying(s, t, FileChunk(1, index, 1, 2, data), file, index, done, data, rest);
  }

  lemma PieceHandled(s: Server, file: seq<byte>, index: nat, done: nat, data: seq<byte>)
    requires IsReady(s.clients[0]) && IsUser(s.clients[0], 1)
    requires IsUser(s.clients[1], 2) && s.clients[1].pending.None? && FindUser(s.clients, 2) == 1
    requires IsRelay(s.transfers[0], file, index, done)
    requires 1 <= |data| <= FILE_CHUNK_SIZE && done + |data| <= |file|
    ensures var out := Dispatch(s, 0, SendChunk(1, index, data));
      && out.status == OK && ToldAndAnswered(s, out.server, FileChunk(1, index, 1, 2, data))
      && IsRelay(out.server.transfers[0], file, index + 1, done + |data|)
  {
    hide Queue, FindUser;
    var x := s.transfers[0];
    assert FindTransfer(s.transfers, 1) == 0;
    var p, reply := FileChunk(1, index, 1, 2, data), Reply(FileGroup, OK, [1, x.messageId, x.deliveryId]);
    var told := Queue(s, 1, p).server;
    QueueFrame(s, 1, p);
    var moved := told.(transfers := told.transfers[0 := x.(bytesSeen := done + |data|, nextChunk := index + 1)]);
    TellAndAnswer(s, p, reply, moved);
    QueueFrame(moved, 0, reply);
  }

  lemma KeepsRelaying(s: Server, t: Server, p: Packet, file: seq<byte>, index: nat, done: nat, data: seq<byte>,
        rest: seq<seq<byte>>)
    requires Relaying(s, file, index, done, [data] + rest)
    requires ToldAndAnswered(s, t, p) && p == FileChunk(1, index, 1, 2, data)
    requires IsRelay(t.transfers[0], file, index + 1, done + |data|)
    ensures Relaying(t, file, index + 1, done + |data|, rest)
  {
    hide C.Crc, FileTrace, Notifies, NoCompletion, F.Telling;
    var reply: Packet :| reply.Reply? && t.log == s.log + [Entry(1, 2, p)] + [Entry(0, 1, reply)];
    TraceGrows(s.log, Entry(1, 2, p), Entry(0, 1, reply));
    PieceFirst(Notifies(FileTrace(s.log, 1)), index, data, rest);
  }

  lemma PieceFirst(before: seq<F.Notify>, index: nat, data: seq<byte>, rest: seq<seq<byte>>)
    ensures before + (F.Pieces(1, index, [data] + rest) + [F.Complete(1)])
         == before + [F.Chunk(1, index, data)] + (F.Pieces(1, index + 1, rest) + [F.Complete(1)])
  {
    var chunks := [data] + rest;
    assert chunks[1..] == rest;
    var chunk, more := [F.Chunk(1, index, data)], F.Pieces(1, index + 1, rest);
    Reassociate(chunk, more, [F.Complete(1)]);
    Reassociate(before, chunk, more + [F.Complete(1)]);
  }

  lemma FlushTurn(s: Server)
    requires s.clients[1].isOpen
    ensures Run(s, READY) == Flushed(s, 1)
  {
    T.RunOne(s, READY[0]);
  }

  lemma {:induction false} PiecesRun(s: Server, file: seq<byte>, index: nat, done: nat, chunks: seq<seq<byte>>)
    requires Relaying(s, file, index, done, chunks) && done + |Flatten(chunks)| == |file|
    requires forall k :: 0 <= k < |chunks| ==> 1 <= |chunks[k]| <= FILE_CHUNK_SIZE
    ensures Relaying(Run(s, PieceEvents(index, chunks)), file, index + |chunks|, |file|, [])
    decreases |chunks|
  {
    hide Step, Run, Relaying;
    if chunks == [] {
      RunNothing(s);
    } else {
      var data, rest := chunks[0], chunks[1..];
      var ask := Asks(0, SendChunk(1, index, data));
      assert chunks == [data] + rest;
      IsThere(s, file, index, done, chunks);
      T.RunAppend(s, READY + [ask], PieceEvents(index + 1, rest));
      T.RunAppend(s, READY, [ask]);
      FlushTurn(s);
      T.RunOne(Flushed(s, 1), ask);
      PieceTurn(s, file, index, done, data, rest);
      PiecesRun(Step(Flushed(s, 1), ask), file, index + 1, done + |data|, rest);
    }
  }

  lemma RunNothing(s: Server)
    ensures Run(s, []) == s
  {
  }

  lemma IsThere(s: Server, file: seq<byte>, index: nat, done: nat, chunks: seq<seq<byte>>)
    requires Relaying(s, file, index, done, chunks)
    ensures s.clients[1].isOpen
  {
  }

  lemma AfterSending(file: seq<byte>)
    requires 1 <= |file| <= MAX_FILE_SIZE
    ensures Relaying(T.After(Sending(file)), file, |F.Chunks(file)|, |file|, [])
  {
    hide Step, Run, Relaying, F.Chunks, PieceEvents, Listens;
    var opening := OPENING + READY;
    AfterReady();
    RunSnoc(opening, Asks(0, Announce(file)));
    StartTurn(T.After(opening), file);
    F.ChunksJoin(file);
    T.RunAppend(START, opening + [Asks(0, Announce(file))], PieceEvents(0, F.Chunks(file)));
    PiecesRun(T.After(opening + [Asks(0, Announce(file))]), file, 0, 0, F.Chunks(file));
  }

  // ----- the two endings -----

  predicate HasCompleted(files: seq<S.FileRecord>) { exists k :: 0 <= k < |files| && files[k].completed }

  /** User 1 completes the transfer; whether user 2 is told depends on its slot. */
  lemma CompletionTurn(s: Server, file: seq<byte>, index: nat)
    requires Inv(s)
    requires Relaying(s.(clients := s.clients[1 := s.clients[1].(pending := Some(HeartbeatReply))]), file, index,
                      |file|, [])
    ensures var t := Step(s, Asks(0, CompleteFile(1)));
      var x := s.transfers[0];
      && HasCompleted(t.store.files)
      && t.log == s.log + (if s.clients[1].pending.None? then [Entry(1, 2, FileComplete(1, 1, 2))] else [])
                  + [Entry(0, 1, Reply(FileGroup, OK, [1, x.messageId, x.deliveryId]))]
  {
    hide Inv, FindUser, FileTrace, Notifies, NoCompletion, F.Pieces, F.Telling, Dispatch, Step, NewlyLogged;
    var s1, x := Flushed(s, 0), s.transfers[0];
    FlushedOk(s, 0);
    SecondUser(s1.clients);
    assert FindTransfer(s1.transfers, 1) == 0;
    CompletionIsToldIff(s1, 0, 1);
    CompleteDispatch(s1);
    AnsweredTurn(s, CompleteFile(1));
    assert Dispatch(s1, 0, CompleteFile(1)).server.store.files[x.storageId - 1].completed;
  }

  lemma CompleteDispatch(s: Server)
    requires s.clients[0].authenticated
    ensures Dispatch(s, 0, CompleteFile(1)) == HandleFileComplete(s, 0, 1)
  {
    hide HandleFileComplete;
  }

  /** A file of 1 byte to 1 MiB can be sent so that its receiver is told of all of it, in order. */
  lemma FileCanArrive(file: seq<byte>)
    requires 1 <= |file| <= MAX_FILE_SIZE
    ensures var t := T.After(Sending(file) + READY + [Asks(0, CompleteFile(1))]);
      HasCompleted(t.store.files) && Notifies(FileTrace(t.log, 1)) == F.Telling(1, "f", file)
  {
    hide Inv, Run, Step, Sending, F.Telling, FileTrace, Notifies, NoCompletion, HasCompleted;
    AfterSending(file);
    var s := T.After(Sending(file));
    T.RunAppend(START, Sending(file), READY);
    FlushTurn(s);
    var s1 := Flushed(s, 1);
    T.AfterOk(Sending(file) + READY);
    RunSnoc(Sending(file) + READY, Asks(0, CompleteFile(1)));
    assert s1.clients[1 := s1.clients[1].(pending := Some(HeartbeatReply))]
        == s.clients[1 := s.clients[1].(pending := Some(HeartbeatReply))];
    CompletionTurn(s1, file, |F.Chunks(file)|);
    var x := s1.transfers[0];
    TraceGrows(s.log, Entry(1, 2, FileComplete(1, 1, 2)),
        Entry(0, 1, Reply(FileGroup, OK, [1, x.messageId, x.deliveryId])));
    assert [] + [F.Complete(1)] == [F.Complete(1)];
  }

  /** And a receiver that is told of it then, on a disk that does what it is asked, reports that file. */
  lemma FileCanBeReported(file: seq<byte>, inputs: seq<F.Input>)
    requires 1 <= |file| <= MAX_FILE_SIZE && F.IsTold(inputs, F.Telling(1, "f", file))
    ensures E.DrawnFrom(inputs, T.After(Sending(file) + READY + [Asks(0, CompleteFile(1))]).log)
    ensures F.Listen(F.IDLE, inputs).saved == [F.Saved(1, file, [])]
  {
    hide T.After, Sending, F.Telling, F.Listen, FileTrace, Notifies, E.IsDrawn, HasCompleted;
    FileCanArrive(file);
    F.SentFileIsReported(F.IDLE, inputs, 1, "f", file);
    assert [] + [F.Saved(1, file, [])] == [F.Saved(1, file, [])];
    var log := T.After(Sending(file) + READY + [Asks(0, CompleteFile(1))]).log;
    forall k | 0 <= k < |inputs| ensures E.IsDrawn(inputs[k].notify, log) {
      NotifyIsDrawn(log, k);
    }
  }

  lemma {:induction false} NotifiesAt(t: seq<Packet>, k: nat)
    requires k < |Notifies(t)|
    ensures k < |t| && Notifies(t)[k] == E.NotifyOf(t[k])
    decreases |t|
  {
    NotifiesLength(t);
    if k < |t| - 1 { NotifiesAt(t[..|t| - 1], k); }
  }

  lemma {:induction false} NotifiesLength(t: seq<Packet>)
    ensures |Notifies(t)| == |t|
    decreases |t|
  {
    if t == [] {
    } else {
      NotifiesLength(t[..|t| - 1]);
    }
  }

  lemma NotifyIsDrawn(log: seq<Entry>, k: nat)
    requires k < |Notifies(FileTrace(log, 1))|
    ensures E.IsDrawn(Notifies(FileTrace(log, 1))[k], log)
  {
    hide FileTrace, Notifies;
    NotifiesAt(FileTrace(log, 1), k);
    var n := E.FileEntry(log, 1, k);
  }

  /** When the receiver's slot still holds the last piece, the file is marked completed and answered, and the
      receiver is not told: nobody who draws on the server's notifies, in whatever order, reports it. */
  lemma CompletionCanBeLost(file: seq<byte>, inputs: seq<F.Input>)
    requires 1 <= |file| <= MAX_FILE_SIZE
    ensures var t := T.After(Sending(file) + [Asks(0, CompleteFile(1))]);
      && HasCompleted(t.store.files) && NoCompletion(t.log) && IsOnline(T.After(Sending(file)).clients, 2)
      && (E.DrawnFrom(inputs, t.log) ==> F.Listen(F.IDLE, inputs).saved == [])
  {
    hide Inv, Run, Step, Sending, F.Telling, FileTrace, Notifies, HasCompleted, E.DrawnFrom, F.Listen;
    AfterSending(file);
    var s := T.After(Sending(file));
    T.AfterOk(Sending(file));
    RunSnoc(Sending(file), Asks(0, CompleteFile(1)));
    CompletionTurn(s, file, |F.Chunks(file)|);
    SecondUser(s.clients);
    var t := T.After(Sending(file) + [Asks(0, CompleteFile(1))]);
    if E.DrawnFrom(inputs, t.log) {
      NothingCompletes(inputs, t.log);
      NothingReported(F.IDLE, inputs);
    }
  }

  lemma NothingCompletes(inputs: seq<F.Input>, log: seq<Entry>)
    requires NoCompletion(log) && E.DrawnFrom(inputs, log)
    ensures forall k :: 0 <= k < |inputs| ==> !inputs[k].notify.Complete?
  {
    forall k | 0 <= k < |inputs| ensures !inputs[k].notify.Complete? {
      assert E.IsDrawn(inputs[k].notify, log);
    }
  }

  lemma {:induction false} NothingReported(st: F.Receiver, inputs: seq<F.Input>)
    requires forall k :: 0 <= k < |inputs| ==> !inputs[k].notify.Complete?
    ensures F.Listen(st, inputs).saved == st.saved
    decreases |inputs|
  {
    hide C.Crc, F.SafeFileName, F.Reached, F.Left;
    if inputs == [] {
    } else {
      var h := F.Handle(st, inputs[0].notify, inputs[0].disk);
      NothingReported(h.state, inputs[1..]);
    }
  }
}
