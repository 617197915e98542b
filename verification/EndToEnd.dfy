/** A file sent by the client's chunk loop, relayed by the server among any other traffic and assembled
    by a listening client. */
module EndToEnd {
  import opened Wire
  import opened Server
  import opened ServerTraces
  import opened ServerSteps
  import T = ServerTheorems
  import M = Traffic
  import F = FileTransfer

  // ----- a log entry and its place in the trace -----

  predicate OfTransfer(p: Packet, id: nat)
  {
    IsFilePacket(p) && p.transferId == id
  }

  lemma {:induction false} FilePosition(log: seq<Entry>, id: nat, k: nat) returns (n: nat)
    requires k < |log| && OfTransfer(log[k].packet, id)
    ensures n < |FileTrace(log, id)| && FileTrace(log, id)[n] == log[k].packet
    decreases |log|
  {
    var init := log[..|log| - 1];
    if k == |log| - 1 {
      n := |FileTrace(init, id)|;
    } else {
      n := FilePosition(init, id, k);
    }
  }

  lemma {:induction false} FileEntry(log: seq<Entry>, id: nat, n: nat) returns (k: nat)
    requires n < |FileTrace(log, id)|
    ensures k < |log| && log[k].packet == FileTrace(log, id)[n] && OfTransfer(log[k].packet, id)
    decreases |log|
  {
    var init := log[..|log| - 1];
    if n < |FileTrace(init, id)| {
      k := FileEntry(init, id, n);
    } else {
      k := |log| - 1;
    }
  }

  /** A logged start opens its trace; a logged chunk stands in it right at its index. */
  lemma PlaceInTrace(log: seq<Entry>, k: nat)
    requires k < |log| && (log[k].packet.FileStart? || log[k].packet.FileChunk?)
    requires FileLanguage(FileTrace(log, log[k].packet.transferId))
    ensures var p := log[k].packet;
      var t := FileTrace(log, p.transferId);
      && (p.FileStart? ==> t != [] && t[0] == p)
      && (p.FileChunk? ==> p.index + 1 < |t| && t[p.index + 1] == p)
  {
    hide FileTrace, Relayed;
    var p := log[k].packet;
    var t := FileTrace(log, p.transferId);
    var n := FilePosition(log, p.transferId, k);
    assert n > 0 ==> IsChunk(t[n], n - 1, t[0]) || IsComplete(t, n);
  }

  // ----- the bytes relayed so far -----

  lemma {:induction false} RelayedPrefix(t: seq<Packet>, n: nat)
    requires n <= |t|
    ensures Relayed(t[..n]) <= Relayed(t)
    decreases |t|
  {
    if n == |t| {
      assert t[..n] == t;
    } else {
      var init := t[..|t| - 1];
      RelayedPrefix(init, n);
      assert init[..n] == t[..n];
    }
  }

  lemma RelayedNext(t: seq<Packet>, n: nat)
    requires n < |t| && t[n].FileChunk?
    ensures Relayed(t[..n + 1]) == Relayed(t[..n]) + t[n].data
  {
    RelayedSnoc(t[..n], t[n]);
    assert t[..n + 1] == t[..n] + [t[n]];
  }

  // ----- the receiver -----

  /** The receiver's view of a file notify. */
  function NotifyOf(p: Packet): F.Notify
  {
    match p
    case FileStart(id, _, _, _, _, name, size, crc) => F.Start(id, name, size, crc)
    case FileChunk(id, index, _, _, data) => F.Chunk(id, index, data)
    case FileComplete(id, _, _) => F.Complete(id)
    case _ => F.OtherOperation
  }

  /** Every notify the receiver sees is one the server queued: any of them, any number of times, in any order. */
  predicate DrawnFrom(inputs: seq<F.Input>, log: seq<Entry>)
  {
    forall k :: 0 <= k < |inputs| ==> IsDrawn(inputs[k].notify, log)
  }

  predicate IsDrawn(n: F.Notify, log: seq<Entry>)
  {
    exists k :: 0 <= k < |log| && n == NotifyOf(log[k].packet)
  }

  /** The file and what the stream holds for it together are the part of its transfer's trace that it has counted. */
  predicate Holds(st: F.Receiver, t: seq<Packet>)
  {
    && t != [] && t[0].FileStart? && t[0].fileSize == st.expectedSize
    && st.nextChunk < |t| && st.file.Some? && st.file.value + st.buffered == Relayed(t[..st.nextChunk + 1])
    && st.bytesWritten == |st.file.value + st.buffered|
  }

  /** What was written for a reported file is all that was relayed for its transfer. */
  predicate Whole(s: F.Saved, t: seq<Packet>)
  {
    t != [] && t[0].FileStart? && F.Assembled(s) == Relayed(t) && |F.Assembled(s)| == t[0].fileSize
  }

  predicate AllWhole(saved: seq<F.Saved>, log: seq<Entry>)
  {
    forall k :: 0 <= k < |saved| ==> Whole(saved[k], FileTrace(log, saved[k].transferId))
  }

  ghost predicate Faithful(st: F.Receiver, log: seq<Entry>)
  {
    && (st.active ==> st.good && Holds(st, FileTrace(log, st.transferId)))
    && AllWhole(st.saved, log)
  }

  ghost predicate Relays(log: seq<Entry>)
  {
    forall id: nat :: FileLanguage(FileTrace(log, id))
  }

  lemma FaithfulStart(st: F.Receiver, log: seq<Entry>, n: F.Notify, disk: F.Disk)
    requires Faithful(st, log) && Relays(log) && n.Start? && IsDrawn(n, log) && F.HandleStart(st, n, disk).ok
    ensures Faithful(F.HandleStart(st, n, disk).state, log)
  {
    hide FileLanguage, FileTrace, F.SafeFileName;
    var k :| 0 <= k < |log| && n == NotifyOf(log[k].packet);
    PlaceInTrace(log, k);
    var t := FileTrace(log, n.transferId);
    RelayedSnoc([], t[0]);
    assert t[..1] == [t[0]] == [] + [t[0]];
  }

  lemma FaithfulChunk(st: F.Receiver, log: seq<Entry>, n: F.Notify, disk: F.Disk)
    requires Faithful(st, log) && Relays(log) && n.Chunk? && IsDrawn(n, log) && F.HandleChunk(st, n, disk).ok
    ensures Faithful(F.HandleChunk(st, n, disk).state, log)
  {
    hide FileLanguage, FileTrace, Relayed, F.C.Crc, F.Reached, F.Left;
    var k :| 0 <= k < |log| && n == NotifyOf(log[k].packet);
    PlaceInTrace(log, k);
    RelayedNext(FileTrace(log, n.transferId), st.nextChunk + 1);
    Reassociate(st.file.value, st.buffered, n.data);
    F.NothingVanishes(st.file.value, st.buffered + n.data, disk.reach);
  }

  lemma FaithfulComplete(st: F.Receiver, log: seq<Entry>, n: F.Notify, disk: F.Disk)
    requires Faithful(st, log) && Relays(log) && n.Complete? && F.HandleComplete(st, n, disk).ok
    ensures Faithful(F.HandleComplete(st, n, disk).state, log)
  {
    hide FileTrace, F.C.Crc, F.Reached, F.Left;
    var t := FileTrace(log, st.transferId);
    assert FileLanguage(t);
    F.NothingVanishes(st.file.value, st.buffered, disk.reach);
    RelayedPrefix(t, st.nextChunk + 1);
  }

  lemma {:induction false} ListenFaithful(st: F.Receiver, inputs: seq<F.Input>, log: seq<Entry>)
    requires Faithful(st, log) && Relays(log) && DrawnFrom(inputs, log)
    ensures AllWhole(F.Listen(st, inputs).saved, log)
    decreases |inputs|
  {
    hide Relays, AllWhole, Holds, F.HandleStart, F.HandleChunk, F.HandleComplete, IsDrawn;
    if inputs == [] {
    } else {
      var n, disk := inputs[0].notify, inputs[0].disk;
      var h := F.Handle(st, n, disk);
      if h.ok {
        match n {
          case Start(_, _, _, _) => FaithfulStart(st, log, n, disk);
          case Chunk(_, _, _) => FaithfulChunk(st, log, n, disk);
          case Complete(_) => FaithfulComplete(st, log, n, disk);
          case OtherOperation =>
        }
        ListenFaithful(h.state, inputs[1..], log);
      } else {
        RefusalSavesNothing(st, n, disk);
      }
    }
  }

  lemma RefusalSavesNothing(st: F.Receiver, n: F.Notify, disk: F.Disk)
    requires !F.Handle(st, n, disk).ok
    ensures F.Discard(F.Handle(st, n, disk).state).saved == st.saved
  {
    hide F.SafeFileName, F.C.Crc, F.Reached, F.Left;
  }

  /** After any run of the server, what a receiver of its notifies has written for a file it reports is
      exactly what the server relayed for that transfer, with the announced length. */
  lemma ReceivedIsRelayed(events: seq<Event>, inputs: seq<F.Input>)
    requires DrawnFrom(inputs, T.After(events).log)
    ensures AllWhole(F.Listen(F.IDLE, inputs).saved, T.After(events).log)
  {
    hide T.After, DrawnFrom, Whole, FileLanguage, FileTrace, F.Listen;
    var log := T.After(events).log;
    forall id: nat ensures FileLanguage(FileTrace(log, id)) {
      T.FileProtocol(events, id);
    }
    ListenFaithful(F.IDLE, inputs, log);
  }

  // ----- the sender -----

  /** The sender of transfer `id` only submits the pieces of `file`, each under its own index. */
  predicate SendsPieces(sent: seq<M.Submission>, user: nat, id: nat, file: seq<byte>)
  {
    forall k :: 0 <= k < |sent| && IsPieceOf(sent[k], user, id) ==>
      sent[k].request.index < |F.Chunks(file)| && sent[k].request.data == F.Chunks(file)[sent[k].request.index]
  }

  predicate IsPieceOf(s: M.Submission, user: nat, id: nat)
  {
    s.user == user && s.request.SendChunk? && s.request.transferId == id
  }

  /** The chunks of a trace are the first of the given pieces. */
  predicate CarriesPieces(t: seq<Packet>, pieces: seq<seq<byte>>)
  {
    forall n :: 1 <= n < |t| && t[n].FileChunk? ==> n <= |pieces| && t[n].data == pieces[n - 1]
  }

  lemma {:induction false} RelayedPieces(t: seq<Packet>, pieces: seq<seq<byte>>) returns (m: nat)
    requires FileLanguage(t) && t != [] && CarriesPieces(t, pieces)
    ensures m <= |pieces| && Relayed(t) == Flatten(pieces[..m]) && m == if IsCompleted(t) then |t| - 2 else |t| - 1
    decreases |t|
  {
    var last := |t| - 1;
    if last == 0 {
      m := 0;
      assert t[..0] == [];
    } else {
      var init := t[..last];
      InitLanguage(t);
      m := RelayedPieces(init, pieces);
      assert IsChunk(t[last], last - 1, t[0]) || IsComplete(t, last);
      if t[last].FileChunk? {
        assert pieces[..m + 1] == pieces[..m] + [t[last].data];
        FlattenSnoc(pieces[..m], t[last].data);
        m := m + 1;
      }
    }
  }

  lemma InitLanguage(t: seq<Packet>)
    requires FileLanguage(t) && |t| > 1
    ensures FileLanguage(t[..|t| - 1]) && !IsCompleted(t[..|t| - 1])
  {
    var init := t[..|t| - 1];
    forall k | 1 <= k < |init| ensures IsChunk(init[k], k - 1, init[0]) {
      InnerIsChunk(t, k);
    }
    RelayedPrefix(t, |t| - 1);
    assert |init| > 1 ==> IsChunk(init[|init| - 1], |init| - 2, init[0]);
  }

  lemma TraceCarriesPieces(events: seq<Event>, user: nat, id: nat, file: seq<byte>)
    requires SendsPieces(M.Submitted(START, events), user, id, file)
    requires var t := FileTrace(T.After(events).log, id); t != [] && t[0].FileStart? && t[0].from == user
    ensures CarriesPieces(FileTrace(T.After(events).log, id), F.Chunks(file))
  {
    hide T.After, F.Chunks, FileTrace, Relayed, M.Submitted;
    var log := T.After(events).log;
    var t := FileTrace(log, id);
    T.FileProtocol(events, id);
    SubmittedInRun(events);
    forall n | 1 <= n < |t| && t[n].FileChunk? ensures n <= |F.Chunks(file)| && t[n].data == F.Chunks(file)[n - 1] {
      assert IsChunk(t[n], n - 1, t[0]);
      var k := FileEntry(log, id, n);
      var sent := M.Submitted(START, events);
      assert M.ComesFrom(log[k].packet, sent);
      var j :| 0 <= j < |sent| && M.Tells(log[k].packet, sent[j]);
      assert IsPieceOf(sent[j], user, id);
    }
  }

  lemma SubmittedInRun(events: seq<Event>)
    ensures M.Traced([], T.After(events).log, M.Submitted(START, events))
  {
    hide M.Traced, M.Submitted, Run;
    M.NotifiesAreSubmitted(START, events);
  }

  /** End to end: let the user who started transfer `id`, announced with the length of `file`, submit for
      it only what the chunk loop produces from `file`, while everyone else does anything. Whatever part
      of the server's notifies a receiver gets to see, if it reports a file for `id`, it has written `file`:
      the reported file is the beginning of it, and all of it if and only if closing it lost nothing. */
  lemma ReceivedIsSent(events: seq<Event>, user: nat, id: nat, file: seq<byte>, inputs: seq<F.Input>, s: F.Saved)
    requires SendsPieces(M.Submitted(START, events), user, id, file)
    requires var t := FileTrace(T.After(events).log, id);
      t != [] ==> t[0].FileStart? ==> t[0].from == user && t[0].fileSize == |file|
    requires DrawnFrom(inputs, T.After(events).log)
    requires s in F.Listen(F.IDLE, inputs).saved && s.transferId == id
    ensures s.bytes + s.lost == file && s.bytes <= file && (s.bytes == file <==> s.lost == [])
  {
    hide T.After, FileTrace, F.Listen, F.Chunks, SendsPieces, DrawnFrom, M.Submitted, FileLanguage, Relayed,
      CarriesPieces;
    var saved := F.Listen(F.IDLE, inputs).saved;
    var t := FileTrace(T.After(events).log, id);
    ReceivedIsRelayed(events, inputs);
    var k :| 0 <= k < |saved| && saved[k] == s;
    assert Whole(saved[k], t);
    TraceCarriesPieces(events, user, id, file);
    T.FileProtocol(events, id);
    var m := RelayedPieces(t, F.Chunks(file));
    FirstPieces(file, m);
  }

  /** So on a disk that never fails at a close, the reported file is the file that was sent. */
  lemma WellClosedIsSent(events: seq<Event>, user: nat, id: nat, file: seq<byte>, inputs: seq<F.Input>, s: F.Saved)
    requires SendsPieces(M.Submitted(START, events), user, id, file)
    requires var t := FileTrace(T.After(events).log, id);
      t != [] ==> t[0].FileStart? ==> t[0].from == user && t[0].fileSize == |file|
    requires DrawnFrom(inputs, T.After(events).log) && F.ClosesWell(inputs)
    requires s in F.Listen(F.IDLE, inputs).saved && s.transferId == id
    ensures s.bytes == file
  {
    hide T.After, FileTrace, F.Listen, F.Chunks, SendsPieces, DrawnFrom, M.Submitted, F.C.Crc;
    ReceivedIsSent(events, user, id, file, inputs, s);
    F.WellClosedIsWhole([], F.IDLE, inputs);
  }

  /** The first pieces of a file are the file once they are as long as it. */
  lemma FirstPieces(file: seq<byte>, m: nat)
    requires m <= |F.Chunks(file)| && |Flatten(F.Chunks(file)[..m])| == |file|
    ensures Flatten(F.Chunks(file)[..m]) == file
  {
    var pieces := F.Chunks(file);
    F.ChunksJoin(file);
    FlattenAppend(pieces[..m], pieces[m..]);
    assert pieces[..m] + pieces[m..] == pieces;
  }
}
