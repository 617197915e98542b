/** Sending a file in chunks and assembling one from chunk notifies, as the command-line client does. */
module FileTransfer {
  import opened Wire
  import C = Crc32
  import B = Bursts

  // ----- the sender -----

  /** The file cut into pieces of 32768 bytes, the last one possibly shorter. */
  function Chunks(file: seq<byte>): seq<seq<byte>>
    decreases |file|
  {
    if file == [] then []
    else
      var n := Min(FILE_CHUNK_SIZE, |file|);
      [file[..n]] + Chunks(file[n..])
  }

  lemma {:induction false} ChunksJoin(file: seq<byte>)
    ensures Flatten(Chunks(file)) == file
    ensures |Chunks(file)| == (|file| + FILE_CHUNK_SIZE - 1) / FILE_CHUNK_SIZE
    ensures forall k :: 0 <= k < |Chunks(file)| ==> 1 <= |Chunks(file)[k]| <= FILE_CHUNK_SIZE
    ensures forall k :: 0 <= k < |Chunks(file)| - 1 ==> |Chunks(file)[k]| == FILE_CHUNK_SIZE
    decreases |file|
  {
    if file == [] {
    } else {
      var n := Min(FILE_CHUNK_SIZE, |file|);
      ChunksJoin(file[n..]);
      assert Chunks(file)[0] == file[..n] && Chunks(file)[1..] == Chunks(file[n..]);
      assert file[..n] + file[n..] == file;
    }
  }

  datatype Piece = Piece(index: nat, data: seq<byte>)

  function Rest(file: seq<byte>, offset: nat): seq<byte>
  {
    if offset < |file| then file[offset..] else []
  }

  lemma RestStep(file: seq<byte>, offset: nat)
    requires offset < |file|
    ensures Chunks(Rest(file, offset))
         == [file[offset..offset + Min(FILE_CHUNK_SIZE, |file| - offset)]]
             + Chunks(Rest(file, offset + FILE_CHUNK_SIZE))
  {
    var n := Min(FILE_CHUNK_SIZE, |file| - offset);
    SplitRest(file, offset, n);
    assert n < FILE_CHUNK_SIZE ==> file[offset + n..] == [];
  }

  lemma SplitRest<T>(s: seq<T>, offset: nat, n: nat)
    requires offset + n <= |s|
    ensures s[offset..][..n] == s[offset..offset + n] && s[offset..][n..] == s[offset + n..]
  {
  }

  lemma RestStart(file: seq<byte>)
    ensures Chunks(file)[0..] == Chunks(Rest(file, 0))
  {
    assert file != [] ==> file[0..] == file;
  }

  lemma NoRest(file: seq<byte>, offset: nat)
    requires offset >= |file|
    ensures Chunks(Rest(file, offset)) == []
  {
  }

  lemma NextOf<T>(s: seq<T>, k: nat, x: T, rest: seq<T>)
    requires k <= |s| && s[k..] == [x] + rest
    ensures k < |s| && s[k] == x && s[k + 1..] == rest
  {
    assert s[k..][1..] == s[k + 1..];
  }

  /** Send the pieces one by one, each after the one before it was answered with success. */
  method SendPieces(file: seq<byte>, answered: nat -> bool) returns (ok: bool, sent: seq<Piece>)
    ensures |sent| <= |Chunks(file)| && forall k :: 0 <= k < |sent| ==> sent[k] == Piece(k, Chunks(file)[k])
    ensures ok <==> forall k :: 0 <= k < |Chunks(file)| ==> answered(k)
    ensures ok ==> |sent| == |Chunks(file)|
    ensures !ok ==> |sent| > 0 && !answered(|sent| - 1) && forall k :: 0 <= k < |sent| - 1 ==> answered(k)
  {
    hide Chunks;
    var offset, index := 0, 0;
    sent := [];
    RestStart(file);
    while offset < |file|
      invariant |sent| == index <= |Chunks(file)| && Chunks(file)[index..] == Chunks(Rest(file, offset))
      invariant forall k :: 0 <= k < index ==> sent[k] == Piece(k, Chunks(file)[k]) && answered(k)
    {
      var length := if FILE_CHUNK_SIZE < |file| - offset then FILE_CHUNK_SIZE else |file| - offset;
      RestStep(file, offset);
      NextOf(Chunks(file), index, file[offset..offset + length], Chunks(Rest(file, offset + FILE_CHUNK_SIZE)));
      sent := sent + [Piece(index, file[offset..offset + length])];
      if !answered(index) {
        return false, sent;
      }
      offset, index := offset + FILE_CHUNK_SIZE, index + 1;
    }
    NoRest(file, offset);
    return true, sent;
  }

  // ----- the receiver -----

  datatype Notify =
    | Start(transferId: nat, fileName: string, fileSize: nat, crc32: bv32)
    | Chunk(transferId: nat, index: nat, data: seq<byte>)
    | Complete(transferId: nat)
    | OtherOperation

  /** How the file system behaves during one notify: whether an output directory was given, whether the
      file can be opened, how many of the bytes the stream holds reach the file when the stream is written
      to or closed, and whether the stream still works after a write. */
  datatype Disk = Disk(hasDir: bool, opens: bool, reach: nat, works: bool)

  /** A reported file: its transfer, what is on the disk when it is reported, and the bytes that the stream
      still held and that closing it did not bring to the disk. */
  datatype Saved = Saved(transferId: nat, bytes: seq<byte>, lost: seq<byte>)

  /** `file` is what is on the disk at the path of the current transfer, `buffered` what the output stream
      has accepted and not yet written. */
  datatype Receiver = Receiver(
    active: bool, transferId: nat, expectedSize: nat, expectedCrc32: bv32, nextChunk: nat, hasPath: bool,
    bytesWritten: nat, crc32: bv32, good: bool, file: Option<seq<byte>>, buffered: seq<byte>, saved: seq<Saved>)

  const IDLE := Receiver(false, 0, 0, 0, 0, false, 0, 0, true, None, [], [])

  predicate SafeFileName(name: string)
  {
    name != "" && '/' !in name && '\\' !in name && name != "." && name != ".."
  }

  function Reset(st: Receiver): Receiver
  {
    st.(active := false, transferId := 0, expectedSize := 0, expectedCrc32 := 0, nextChunk := 0, hasPath := false,
        bytesWritten := 0, crc32 := 0)
  }

  /** Closing the stream empties it; the file of an active transfer is removed. */
  function Discard(st: Receiver): Receiver
  {
    Reset(st.(file := if st.active && st.hasPath then None else st.file, buffered := []))
  }

  /** The file after the first bytes of `held` have reached it. */
  function Reached(file: Option<seq<byte>>, held: seq<byte>, reach: nat): Option<seq<byte>>
  {
    match file case None => None case Some(bytes) => Some(bytes + held[..Min(reach, |held|)])
  }

  function Left(held: seq<byte>, reach: nat): seq<byte>
  {
    held[Min(reach, |held|)..]
  }

  datatype Handled = Handled(state: Receiver, ok: bool)

  /** A new transfer with nothing received yet. */
  function Expecting(st: Receiver, n: Notify): Receiver
    requires n.Start?
  {
    st.(active := true, transferId := n.transferId, expectedSize := n.fileSize, expectedCrc32 := n.crc32,
        nextChunk := 0, bytesWritten := 0, crc32 := 0)
  }

  /** A new empty output file at the path of the transfer, if it can be opened. */
  function Opened(st: Receiver, disk: Disk): Receiver
  {
    st.(hasPath := true, good := disk.opens, file := if disk.opens then Some([]) else None, buffered := [])
  }

  /** The stream after it was closed: what it held is on the disk or lost. */
  function Closed(st: Receiver, disk: Disk): Receiver
  {
    st.(file := Reached(st.file, st.buffered, disk.reach), good := st.good && |st.buffered| <= disk.reach,
        buffered := [])
  }

  function HandleStart(st: Receiver, n: Notify, disk: Disk): Handled
    requires n.Start?
  {
    if !disk.hasDir || !SafeFileName(n.fileName) || n.fileSize == 0 || n.fileSize > MAX_FILE_SIZE
        then Handled(st, false)
    else
      var cleared := if st.active then Discard(st) else st;
      Handled(Opened(Expecting(cleared, n), disk), disk.opens)
  }

  function HandleChunk(st: Receiver, n: Notify, disk: Disk): Handled
    requires n.Chunk?
  {
    if !st.active || st.transferId != n.transferId || !st.good then Handled(st, false)
    else if n.index != st.nextChunk || st.bytesWritten + |n.data| > st.expectedSize then Handled(Discard(st), false)
    else if n.data == [] then Handled(st.(nextChunk := st.nextChunk + 1), true)
    else
      var held := st.buffered + n.data;
      Handled(st.(nextChunk := st.nextChunk + 1, bytesWritten := st.bytesWritten + |n.data|,
                  crc32 := C.Crc(st.crc32, n.data), good := disk.works,
                  file := Reached(st.file, held, disk.reach), buffered := Left(held, disk.reach)), disk.works)
  }

  /** The stream is closed first and never looked at again; size and checksum are those of the bytes that
      were handed to it. */
  function HandleComplete(st: Receiver, n: Notify, disk: Disk): Handled
    requires n.Complete?
  {
    if !st.active || st.transferId != n.transferId then Handled(st, false)
    else
      var lost := Left(st.buffered, disk.reach);
      var closed := Closed(st, disk);
      if st.bytesWritten != st.expectedSize || st.crc32 != st.expectedCrc32 then Handled(Discard(closed), false)
      else
        var bytes := if closed.file.Some? then closed.file.value else [];
        Handled(closed.(active := false, saved := st.saved + [Saved(st.transferId, bytes, lost)]), true)
  }

  function Handle(st: Receiver, n: Notify, disk: Disk): Handled
  {
    match n
    case Start(_, _, _, _) => HandleStart(st, n, disk)
    case Chunk(_, _, _) => HandleChunk(st, n, disk)
    case Complete(_) => HandleComplete(st, n, disk)
    case OtherOperation => Handled(st, true)
  }

  datatype Input = Input(notify: Notify, disk: Disk)

  /** Listening stops, after discarding a partial file, at the first notify that is refused. */
  function Listen(st: Receiver, inputs: seq<Input>): Receiver
    decreases |inputs|
  {
    if inputs == [] then st
    else
      var h := Handle(st, inputs[0].notify, inputs[0].disk);
      if h.ok then Listen(h.state, inputs[1..]) else Discard(h.state)
  }

  // ----- what a report means -----

  /** While it receives, the file and what the stream holds for it together have the counted length and
      the running checksum. */
  predicate Consistent(st: Receiver)
  {
    st.active && st.good ==>
      && st.hasPath && st.file.Some?
      && |st.file.value + st.buffered| == st.bytesWritten <= st.expectedSize
      && st.crc32 == C.Crc(0, st.file.value + st.buffered)
  }

  predicate Announces(n: Notify, id: nat, size: nat, crc: bv32)
  {
    n.Start? && n.transferId == id && n.fileSize == size && n.crc32 == crc
  }

  predicate WasAnnounced(inputs: seq<Input>, id: nat, size: nat, crc: bv32)
  {
    exists k :: 0 <= k < |inputs| && Announces(inputs[k].notify, id, size, crc)
  }

  /** Everything that was written for a reported file, on the disk or lost. */
  function Assembled(s: Saved): seq<byte> { s.bytes + s.lost }

  predicate Matches(inputs: seq<Input>, s: Saved)
  {
    WasAnnounced(inputs, s.transferId, |Assembled(s)|, C.Crc(0, Assembled(s)))
  }

  /** The state after listening to `inputs` without a refusal. */
  predicate Listening(inputs: seq<Input>, st: Receiver)
  {
    && Consistent(st)
    && (st.active ==>
          && st.good && st.expectedSize <= MAX_FILE_SIZE
          && WasAnnounced(inputs, st.transferId, st.expectedSize, st.expectedCrc32))
    && (forall k :: 0 <= k < |st.saved| ==> Matches(inputs, st.saved[k]))
    && (st.file.Some? ==> st.active || IsLastSaved(st))
  }

  predicate IsLastSaved(st: Receiver)
  {
    st.saved != [] && st.file == Some(st.saved[|st.saved| - 1].bytes)
  }

  /** However many bytes reach the file, it and the stream together hold the same. */
  lemma NothingVanishes(file: seq<byte>, held: seq<byte>, reach: nat)
    ensures Reached(Some(file), held, reach).Some?
    ensures Reached(Some(file), held, reach).value + Left(held, reach) == file + held
    ensures Left(held, reach) == [] <==> |held| <= reach
  {
  }

  lemma MoreInputs(inputs: seq<Input>, input: Input, id: nat, size: nat, crc: bv32)
    requires WasAnnounced(inputs, id, size, crc)
    ensures WasAnnounced(inputs + [input], id, size, crc)
  {
    var k :| 0 <= k < |inputs| && Announces(inputs[k].notify, id, size, crc);
    assert (inputs + [input])[k] == inputs[k];
  }

  /** More inputs take nothing away. */
  lemma StillListening(inputs: seq<Input>, st: Receiver, input: Input)
    requires Listening(inputs, st)
    ensures Listening(inputs + [input], st)
  {
    hide C.Crc, WasAnnounced, Consistent;
    if st.active { MoreInputs(inputs, input, st.transferId, st.expectedSize, st.expectedCrc32); }
    forall k | 0 <= k < |st.saved| ensures Matches(inputs + [input], st.saved[k]) {
      assert Matches(inputs, st.saved[k]);
      MoreInputs(inputs, input, st.saved[k].transferId, |Assembled(st.saved[k])|, C.Crc(0, Assembled(st.saved[k])));
    }
  }

  /** An accepted notify leaves the receiver listening; a refused one saves nothing and leaves no partial file. */
  predicate Advances(inputs: seq<Input>, st: Receiver, h: Handled)
  {
    if h.ok then Listening(inputs, h.state)
    else var d := Discard(h.state); d.saved == st.saved && !d.active && (d.file.Some? ==> IsLastSaved(d))
  }

  lemma StartAdvances(inputs: seq<Input>, st: Receiver, n: Notify, disk: Disk)
    requires Listening(inputs, st) && n.Start? && WasAnnounced(inputs, n.transferId, n.fileSize, n.crc32)
    ensures Advances(inputs, st, HandleStart(st, n, disk))
  {
    hide C.Crc, WasAnnounced, SafeFileName, Matches;
    C.CrcEmpty(0);
  }

  lemma ChunkAdvances(inputs: seq<Input>, st: Receiver, n: Notify, disk: Disk)
    requires Listening(inputs, st) && n.Chunk?
    ensures Advances(inputs, st, HandleChunk(st, n, disk))
  {
    hide C.Crc, WasAnnounced, Matches, Reached, Left;
    if st.active {
      C.CrcAppend(0, st.file.value + st.buffered, n.data);
      Reassociate(st.file.value, st.buffered, n.data);
      NothingVanishes(st.file.value, st.buffered + n.data, disk.reach);
    }
  }

  lemma CompleteAdvances(inputs: seq<Input>, st: Receiver, n: Notify, disk: Disk)
    requires Listening(inputs, st) && n.Complete?
    ensures Advances(inputs, st, HandleComplete(st, n, disk))
  {
    hide C.Crc, WasAnnounced, Reached, Left;
    if st.active { NothingVanishes(st.file.value, st.buffered, disk.reach); }
  }

  lemma ListeningStep(inputs: seq<Input>, st: Receiver, input: Input)
    requires Listening(inputs, st)
    ensures Advances(inputs + [input], st, Handle(st, input.notify, input.disk))
  {
    hide Listening, WasAnnounced, HandleStart, HandleChunk, HandleComplete;
    StillListening(inputs, st, input);
    match input.notify {
      case Start(_, _, _, _) =>
        NewlyAnnounced(inputs, input);
        StartAdvances(inputs + [input], st, input.notify, input.disk);
      case Chunk(_, _, _) => ChunkAdvances(inputs + [input], st, input.notify, input.disk);
      case Complete(_) => CompleteAdvances(inputs + [input], st, input.notify, input.disk);
      case OtherOperation =>
    }
  }

  lemma NewlyAnnounced(inputs: seq<Input>, input: Input)
    requires input.notify.Start?
    ensures WasAnnounced(inputs + [input], input.notify.transferId, input.notify.fileSize, input.notify.crc32)
  {
    var all, n := inputs + [input], input.notify;
    assert Announces(all[|inputs|].notify, n.transferId, n.fileSize, n.crc32);
  }

  lemma {:induction false} ListenMatches(before: seq<Input>, st: Receiver, inputs: seq<Input>)
    requires Listening(before, st)
    ensures var t := Listen(st, inputs);
      && (forall k :: 0 <= k < |t.saved| ==> Matches(before + inputs, t.saved[k]))
      && (t.file.Some? ==> t.active || IsLastSaved(t))
    decreases |inputs|
  {
    hide Handle, Matches;
    if inputs == [] {
      assert before + inputs == before;
    } else {
      var h := Handle(st, inputs[0].notify, inputs[0].disk);
      ListeningStep(before, st, inputs[0]);
      if h.ok {
        ListenMatches(before + [inputs[0]], h.state, inputs[1..]);
        assert (before + [inputs[0]]) + inputs[1..] == before + inputs;
      } else {
        forall k | 0 <= k < |st.saved| ensures Matches(before + inputs, st.saved[k]) {
          StillMatches(before, inputs, st.saved[k]);
        }
      }
    }
  }

  lemma StillMatches(before: seq<Input>, inputs: seq<Input>, s: Saved)
    requires Matches(before, s)
    ensures Matches(before + inputs, s)
  {
    var k :| 0 <= k < |before| && Announces(before[k].notify, s.transferId, |Assembled(s)|, C.Crc(0, Assembled(s)));
    assert (before + inputs)[k] == before[k];
  }

  /** Whatever the notifies and whatever the disk does, the bytes written for a reported file have the size
      and the checksum that a start of its transfer announced; no partial file outlives a refusal. */
  lemma ReportedAsAnnounced(inputs: seq<Input>)
    ensures var t := Listen(IDLE, inputs);
      && (forall k :: 0 <= k < |t.saved| ==> Matches(inputs, t.saved[k]))
      && (t.file.Some? ==> t.active || IsLastSaved(t))
  {
    ListenMatches([], IDLE, inputs);
    assert [] + inputs == inputs;
  }

  /** What was written for a reported file cannot differ from the announced one in 32 consecutive bits only. */
  lemma BurstIsRejected(inputs: seq<Input>, id: nat, sent: seq<byte>, corrupt: seq<byte>, p: nat)
    requires B.DifferWithin(sent, corrupt, p, 32)
    requires forall k :: 0 <= k < |inputs| && inputs[k].notify.Start? && inputs[k].notify.transferId == id ==>
               inputs[k].notify.crc32 == C.Crc(0, sent)
    ensures var saved := Listen(IDLE, inputs).saved;
      forall k :: 0 <= k < |saved| && saved[k].transferId == id ==> Assembled(saved[k]) != corrupt
  {
    hide C.Crc, Listen, B.DifferWithin;
    ReportedAsAnnounced(inputs);
    B.BitBurstDetected(0, sent, corrupt, p);
  }

  // ----- when a reported file is not the one that was written -----

  /** A report is made before anybody knows whether the stream was closed well: the reported file is what
      was written if and only if closing brings all that the stream still holds to the disk. */
  lemma ReportIsWholeIff(inputs: seq<Input>, st: Receiver, n: Notify, disk: Disk)
    requires Listening(inputs, st) && n.Complete? && HandleComplete(st, n, disk).ok
    ensures var written, saved := st.file.value + st.buffered, HandleComplete(st, n, disk).state.saved;
      && |saved| == |st.saved| + 1
      && var s := saved[|st.saved|];
      && Assembled(s) == written && (s.bytes == written <==> |st.buffered| <= disk.reach)
      && (s.lost == [] <==> |st.buffered| <= disk.reach)
  {
    hide C.Crc, Reached, Left;
    NothingVanishes(st.file.value, st.buffered, disk.reach);
  }

  /** Closing a file that is being completed never fails. */
  predicate ClosesWell(inputs: seq<Input>)
  {
    forall k :: 0 <= k < |inputs| && inputs[k].notify.Complete? ==> inputs[k].disk.reach >= MAX_FILE_SIZE
  }

  predicate NothingLost(saved: seq<Saved>)
  {
    forall k :: 0 <= k < |saved| ==> saved[k].lost == []
  }

  /** On a disk that never fails at a close, every reported file is what was written for it. */
  lemma {:induction false} WellClosedIsWhole(before: seq<Input>, st: Receiver, inputs: seq<Input>)
    requires Listening(before, st) && NothingLost(st.saved) && ClosesWell(inputs)
    ensures NothingLost(Listen(st, inputs).saved)
    decreases |inputs|
  {
    hide Listening, Handle;
    if inputs == [] {
    } else {
      var input := inputs[0];
      var h := Handle(st, input.notify, input.disk);
      ListeningStep(before, st, input);
      NothingLostHere(before, st, input);
      if h.ok { WellClosedIsWhole(before + [input], h.state, inputs[1..]); }
    }
  }

  lemma NothingLostHere(before: seq<Input>, st: Receiver, input: Input)
    requires Listening(before, st) && NothingLost(st.saved)
    requires input.notify.Complete? ==> input.disk.reach >= MAX_FILE_SIZE
    ensures NothingLost(Handle(st, input.notify, input.disk).state.saved)
  {
    hide C.Crc, SafeFileName, WasAnnounced, Matches;
  }

  /** A one-byte file of which nothing is on the disk is reported all the same. */
  lemma TruncatedFileIsReported(b: byte)
    ensures var full := Disk(true, true, 0, true);
      Listen(IDLE, [Input(Start(1, "f", 1, C.Crc(0, [b])), full), Input(Chunk(1, 0, [b]), full),
          Input(Complete(1), full)]).saved
        == [Saved(1, [], [b])]
  {
    hide C.Crc, Listen, Left, Reached;
    var full := Disk(true, true, 0, true);
    var start, chunk, complete := Start(1, "f", 1, C.Crc(0, [b])), Chunk(1, 0, [b]), Complete(1);
    var h1 := Handle(IDLE, start, full);
    assert SafeFileName("f") && h1.ok;
    var h2 := Handle(h1.state, chunk, full);
    assert [] + [b] == [b];
    NothingReaches([b]);
    assert h2.state.file == Some([]) && h2.state.buffered == [b];
    assert Handle(h2.state, complete, full).state.saved == [] + [Saved(1, [], [b])];
    ListenThree(start, chunk, complete, full);
  }

  lemma NothingReaches(held: seq<byte>)
    ensures Reached(Some([]), held, 0) == Some([]) && Left(held, 0) == held
  {
    assert Min(0, |held|) == 0;
    assert [] + held[..0] == held[..0] == [] && held[0..] == held;
  }

  /** A file that differs from the announced one in 33 consecutive bits is reported. */
  lemma CorruptFileIsReported()
    ensures var sent: seq<byte>, corrupt: seq<byte> := [0, 0, 0, 0, 0], [0x41, 0x06, 0x71, 0xDB, 0x01];
      Listen(IDLE, OneChunkFile(C.Crc(0, sent), corrupt)).saved == [Saved(1, corrupt, [])]
      && B.DifferWithin(corrupt, sent, 0, 33)
  {
    hide B.DifferWithin;
    var sent: seq<byte>, corrupt: seq<byte> := [0, 0, 0, 0, 0], [0x41, 0x06, 0x71, 0xDB, 0x01];
    C.FiveByteCollision(0);
    B.ThirtyThreeBits();
    OneChunkIsReported(C.Crc(0, sent), corrupt);
  }

  /** A file sent in one chunk, on a disk that takes all of it. */
  function OneChunkFile(crc: bv32, data: seq<byte>): seq<Input>
  {
    var disk := Disk(true, true, |data|, true);
    [Input(Start(1, "f", |data|, crc), disk), Input(Chunk(1, 0, data), disk), Input(Complete(1), disk)]
  }

  lemma OneChunkIsReported(crc: bv32, data: seq<byte>)
    requires 1 <= |data| <= MAX_FILE_SIZE && crc == C.Crc(0, data)
    ensures Listen(IDLE, OneChunkFile(crc, data)).saved == [Saved(1, data, [])]
  {
    hide C.Crc, Listen, Left, Reached;
    var disk := Disk(true, true, |data|, true);
    var start, chunk, complete := Start(1, "f", |data|, crc), Chunk(1, 0, data), Complete(1);
    var h1 := Handle(IDLE, start, disk);
    assert SafeFileName("f") && h1.ok;
    var h2 := Handle(h1.state, chunk, disk);
    assert [] + data == data;
    OnDisk(data);
    assert h2.state.file == Some(data) && h2.state.buffered == [] && h2.state.crc32 == crc;
    Drained(data, |data|);
    assert Handle(h2.state, complete, disk).state.saved == [] + [Saved(1, data, [])];
    ListenThree(start, chunk, complete, disk);
  }

  lemma Drained(data: seq<byte>, reach: nat)
    ensures Reached(Some(data), [], reach) == Some(data) && Left([], reach) == []
  {
    assert data + [] == data;
  }

  lemma OnDisk(data: seq<byte>)
    ensures Reached(Some([]), data, |data|) == Some(data) && Left(data, |data|) == []
  {
    assert [] + data[..|data|] == data;
  }

  lemma ListenThree(a: Notify, b: Notify, c: Notify, disk: Disk)
    ensures var h1 := Handle(IDLE, a, disk);
      var h2 := Handle(h1.state, b, disk);
      var h3 := Handle(h2.state, c, disk);
      h1.ok && h2.ok && h3.ok ==> Listen(IDLE, [Input(a, disk), Input(b, disk), Input(c, disk)]) == h3.state
  {
    hide Handle;
    var inputs := [Input(a, disk), Input(b, disk), Input(c, disk)];
    var h1 := Handle(IDLE, a, disk);
    var h2 := Handle(h1.state, b, disk);
    assert inputs[1..] == [Input(b, disk), Input(c, disk)] && inputs[1..][1..] == [Input(c, disk)];
    assert inputs[1..][1..][1..] == [];
    assert h1.ok ==> Listen(IDLE, inputs) == Listen(h1.state, inputs[1..]);
    assert h1.ok && h2.ok ==> Listen(h1.state, inputs[1..]) == Listen(h2.state, inputs[1..][1..]);
  }

  // ----- a file that is sent is reported -----

  function Pieces(id: nat, index: nat, chunks: seq<seq<byte>>): seq<Notify>
    decreases |chunks|
  {
    if chunks == [] then [] else [Chunk(id, index, chunks[0])] + Pieces(id, index + 1, chunks[1..])
  }

  /** What there is to tell a receiver of a file that is sent to it. */
  function Telling(id: nat, name: string, file: seq<byte>): seq<Notify>
  {
    [Start(id, name, |file|, C.Crc(0, file))] + (Pieces(id, 0, Chunks(file)) + [Complete(id)])
  }

  /** The receiver is told just this, and its disk lets it create, write and close files. */
  predicate IsTold(inputs: seq<Input>, notifies: seq<Notify>)
  {
    && |inputs| == |notifies| && ClosesWell(inputs)
    && forall k :: 0 <= k < |inputs| ==> inputs[k].notify == notifies[k] && IsSound(inputs[k].disk)
  }

  predicate IsSound(disk: Disk) { disk.hasDir && disk.opens && disk.works }

  /** The receiver has the first bytes of `file` and waits for chunk `index`. */
  predicate Assembling(st: Receiver, id: nat, file: seq<byte>, done: seq<byte>, index: nat)
  {
    && st.active && st.transferId == id && st.good && st.nextChunk == index
    && st.file.Some? && st.file.value + st.buffered == done && st.bytesWritten == |done| && st.crc32 == C.Crc(0, done)
    && st.expectedSize == |file| && st.expectedCrc32 == C.Crc(0, file)
  }

  lemma ToldFirst(inputs: seq<Input>, first: Notify, rest: seq<Notify>)
    requires IsTold(inputs, [first] + rest)
    ensures |inputs| == |rest| + 1 && inputs[0].notify == first && IsSound(inputs[0].disk) && IsTold(inputs[1..], rest)
    ensures first.Complete? ==> inputs[0].disk.reach >= MAX_FILE_SIZE
  {
    forall k | 0 <= k < |rest| ensures inputs[1..][k].notify == rest[k] && IsSound(inputs[1..][k].disk) {
      assert inputs[k + 1].notify == ([first] + rest)[k + 1];
    }
    assert inputs[0].notify == ([first] + rest)[0];
  }

  lemma PieceIsAssembled(st: Receiver, id: nat, file: seq<byte>, done: seq<byte>, index: nat, data: seq<byte>,
      disk: Disk)
    requires Assembling(st, id, file, done, index) && |done| + |data| <= |file| && IsSound(disk)
    ensures var h := Handle(st, Chunk(id, index, data), disk);
      h.ok && h.state.saved == st.saved && Assembling(h.state, id, file, done + data, index + 1)
  {
    hide C.Crc, Reached, Left;
    C.CrcAppend(0, done, data);
    Reassociate(st.file.value, st.buffered, data);
    NothingVanishes(st.file.value, st.buffered + data, disk.reach);
    assert data == [] ==> done + data == done;
  }

  lemma WholeIsReported(st: Receiver, id: nat, file: seq<byte>, index: nat, disk: Disk)
    requires Assembling(st, id, file, file, index) && |file| <= MAX_FILE_SIZE <= disk.reach
    ensures var h := Handle(st, Complete(id), disk); h.ok && h.state.saved == st.saved + [Saved(id, file, [])]
  {
    hide C.Crc, Reached, Left;
    NothingVanishes(st.file.value, st.buffered, disk.reach);
    assert file + [] == file;
    var bytes := Reached(st.file, st.buffered, disk.reach).value;
    assert bytes + [] == bytes;
  }

  lemma {:induction false} PiecesAreAssembled(st: Receiver, inputs: seq<Input>, id: nat, file: seq<byte>,
      done: seq<byte>, index: nat, chunks: seq<seq<byte>>)
    requires Assembling(st, id, file, done, index) && done + Flatten(chunks) == file && |file| <= MAX_FILE_SIZE
    requires IsTold(inputs, Pieces(id, index, chunks) + [Complete(id)])
    ensures Listen(st, inputs).saved == st.saved + [Saved(id, file, [])]
    decreases |chunks|
  {
    hide Assembling, IsTold, Handle;
    if chunks == [] {
      assert Pieces(id, index, chunks) + [Complete(id)] == [Complete(id)] + [];
      ToldFirst(inputs, Complete(id), []);
      assert done + [] == done;
      WholeIsReported(st, id, file, index, inputs[0].disk);
      ToldNothing(inputs[1..]);
    } else {
      var rest := Pieces(id, index + 1, chunks[1..]);
      Reassociate([Chunk(id, index, chunks[0])], rest, [Complete(id)]);
      ToldFirst(inputs, Chunk(id, index, chunks[0]), rest + [Complete(id)]);
      Reassociate(done, chunks[0], Flatten(chunks[1..]));
      PieceIsAssembled(st, id, file, done, index, chunks[0], inputs[0].disk);
      var h := Handle(st, inputs[0].notify, inputs[0].disk);
      PiecesAreAssembled(h.state, inputs[1..], id, file, done + chunks[0], index + 1, chunks[1..]);
    }
  }

  lemma ToldNothing(inputs: seq<Input>)
    requires IsTold(inputs, [])
    ensures inputs == []
  {
  }

  lemma StartIsAssembled(st: Receiver, id: nat, name: string, file: seq<byte>, disk: Disk)
    requires 1 <= |file| <= MAX_FILE_SIZE && SafeFileName(name) && IsSound(disk)
    ensures var h := Handle(st, Start(id, name, |file|, C.Crc(0, file)), disk);
      h.ok && h.state.saved == st.saved && Assembling(h.state, id, file, [], 0)
  {
    hide C.Crc, SafeFileName;
    C.CrcEmpty(0);
  }

  /** The receiver does report: told of a file of 1 byte to 1 MiB, piece by piece and in order, on a disk that
      does what it is asked, it reports exactly that file, whatever it was doing before. */
  lemma SentFileIsReported(st: Receiver, inputs: seq<Input>, id: nat, name: string, file: seq<byte>)
    requires 1 <= |file| <= MAX_FILE_SIZE && SafeFileName(name) && IsTold(inputs, Telling(id, name, file))
    ensures Listen(st, inputs).saved == st.saved + [Saved(id, file, [])]
  {
    hide C.Crc, SafeFileName, IsTold, Assembling, Handle, Chunks;
    ToldFirst(inputs, Start(id, name, |file|, C.Crc(0, file)), Pieces(id, 0, Chunks(file)) + [Complete(id)]);
    StartIsAssembled(st, id, name, file, inputs[0].disk);
    ChunksJoin(file);
    assert [] + Flatten(Chunks(file)) == file;
    var h := Handle(st, inputs[0].notify, inputs[0].disk);
    PiecesAreAssembled(h.state, inputs[1..], id, file, [], 0, Chunks(file));
  }

  // ----- what each notify does -----

  lemma SafeNames(name: string)
    ensures SafeFileName(name) <==>
      |name| >= 1 && name !in {".", ".."} && forall k :: 0 <= k < |name| ==> name[k] != '/' && name[k] != '\\'
  {
    assert "." != "..";
  }

  /** Nothing in progress and no partial file. */
  predicate IsDiscarded(st: Receiver, t: Receiver)
  {
    && !t.active && t.transferId == t.expectedSize == t.nextChunk == t.bytesWritten == 0
    && t.expectedCrc32 == t.crc32 == 0 && !t.hasPath && t.buffered == [] && t.good == st.good && t.saved == st.saved
    && t.file == if st.active && st.hasPath then None else st.file
  }

  /** A start is accepted exactly when there is a directory, the name is safe, the size in range and the file
      opens; it replaces whatever was in progress. */
  lemma StartIff(st: Receiver, n: Notify, disk: Disk)
    requires n.Start?
    ensures var h := Handle(st, n, disk);
      var admitted := disk.hasDir && SafeFileName(n.fileName) && 1 <= n.fileSize <= 1048576;
      && (h.ok <==> admitted && disk.opens)
      && (!admitted ==> h.state == st)
      && (admitted ==>
            h.state == Receiver(true, n.transferId, n.fileSize, n.crc32, 0, true, 0, 0, disk.opens,
                                if disk.opens then Some([]) else None, [], st.saved))
  {
    hide SafeFileName;
  }

  /** A chunk is accepted exactly when it is the next one of the transfer in progress, fits the announced size
      and can be written; out of order or too long it ends the transfer, and otherwise it is ignored. */
  lemma ChunkIff(st: Receiver, n: Notify, disk: Disk)
    requires n.Chunk?
    ensures var h := Handle(st, n, disk);
      var receiving := st.active && st.transferId == n.transferId && st.good;
      var fits := n.index == st.nextChunk && st.bytesWritten + |n.data| <= st.expectedSize;
      && (h.ok <==> receiving && fits && (n.data == [] || disk.works))
      && (!receiving ==> h.state == st)
      && (receiving && !fits ==> IsDiscarded(st, h.state))
      && (receiving && fits ==> IsTaken(st, n.data, h.state))
  {
    hide C.Crc, Reached, Left;
    if st.file.Some? {
      NothingVanishes(st.file.value, st.buffered + n.data, disk.reach);
      Reassociate(st.file.value, st.buffered, n.data);
      assert n.data == [] ==> st.file.value + st.buffered + n.data == st.file.value + st.buffered;
    }
    if n.data == [] { CrcOfNothing(st.crc32, n.data); }
  }

  /** The data went to the file or to its stream, and is counted. */
  predicate IsTaken(st: Receiver, data: seq<byte>, t: Receiver)
  {
    && t.nextChunk == st.nextChunk + 1 && t.bytesWritten == st.bytesWritten + |data|
    && t.crc32 == C.Crc(st.crc32, data) && t.saved == st.saved
    && t.active && t.transferId == st.transferId && t.expectedSize == st.expectedSize
    && t.expectedCrc32 == st.expectedCrc32 && t.hasPath == st.hasPath
    && (st.file.Some? ==> t.file.Some? && t.file.value + t.buffered == st.file.value + st.buffered + data)
  }

  lemma CrcOfNothing(crc: bv32, data: seq<byte>)
    requires data == []
    ensures C.Crc(crc, data) == crc
  {
    C.CrcEmpty(crc);
  }

  /** A completion is accepted exactly when the transfer in progress has the announced size and checksum, and
      then one file is reported; a wrong one ends the transfer, and otherwise it is ignored. */
  lemma CompleteIff(st: Receiver, n: Notify, disk: Disk)
    requires n.Complete?
    ensures var h := Handle(st, n, disk);
      var receiving := st.active && st.transferId == n.transferId;
      var right := st.bytesWritten == st.expectedSize && st.crc32 == st.expectedCrc32;
      && (h.ok <==> receiving && right)
      && (!receiving ==> h.state == st)
      && (receiving && !right ==> !h.state.active && h.state.saved == st.saved && (st.hasPath ==> h.state.file == None))
      && (receiving && right ==>
            && !h.state.active && |h.state.saved| == |st.saved| + 1 && st.saved <= h.state.saved
            && var s := h.state.saved[|st.saved|];
            && s.transferId == st.transferId
            && (st.file.Some? ==>
                  Assembled(s) == st.file.value + st.buffered && h.state.file == Some(s.bytes)))
  {
    hide C.Crc, Reached, Left;
    if st.file.Some? { NothingVanishes(st.file.value, st.buffered, disk.reach); }
  }

  lemma OthersPass(st: Receiver, n: Notify, disk: Disk)
    requires n.OtherOperation?
    ensures Handle(st, n, disk) == Handled(st, true)
  {
  }

  // ----- where listening stops -----

  predicate AllAccepted(st: Receiver, inputs: seq<Input>)
    decreases |inputs|
  {
    inputs == [] || var h := Handle(st, inputs[0].notify, inputs[0].disk); h.ok && AllAccepted(h.state, inputs[1..])
  }

  /** Notifies that are all accepted are handled one after the other. */
  function AfterAll(st: Receiver, inputs: seq<Input>): Receiver
    decreases |inputs|
  {
    if inputs == [] then st else AfterAll(Handle(st, inputs[0].notify, inputs[0].disk).state, inputs[1..])
  }

  /** Listening goes through every notify that is accepted; at the first that is not it discards what is in
      progress and looks at none of the rest. */
  lemma {:induction false} ListenStops(st: Receiver, good: seq<Input>, rest: seq<Input>)
    requires AllAccepted(st, good)
    ensures rest == [] ==> Listen(st, good + rest) == AfterAll(st, good)
    ensures rest != [] && !Handle(AfterAll(st, good), rest[0].notify, rest[0].disk).ok ==>
              IsDiscarded(Handle(AfterAll(st, good), rest[0].notify, rest[0].disk).state, Listen(st, good + rest))
    decreases |good|
  {
    hide Handle;
    if good == [] {
      assert good + rest == rest;
    } else {
      assert (good + rest)[0] == good[0] && (good + rest)[1..] == good[1..] + rest;
      ListenStops(Handle(st, good[0].notify, good[0].disk).state, good[1..], rest);
    }
  }

  // ----- the receiver's own form -----

  class ReceiveFileState {
    var active: bool
    var transferId: nat
    var expectedSize: nat
    var expectedCrc32: bv32
    var nextChunkIndex: nat
    var hasPath: bool
    var bytesWritten: nat
    var crc32: bv32
    var good: bool
    var file: Option<seq<byte>>
    var buffered: seq<byte>
    ghost var saved: seq<Saved>

    ghost function State(): Receiver
      reads this
    {
      Receiver(active, transferId, expectedSize, expectedCrc32, nextChunkIndex, hasPath, bytesWritten, crc32,
          good, file, buffered, saved)
    }

    constructor ()
      ensures State() == IDLE
    {
      active, transferId, expectedSize, expectedCrc32, nextChunkIndex, hasPath := false, 0, 0, 0, 0, false;
      bytesWritten, crc32, good, file, buffered, saved := 0, 0, true, None, [], [];
    }

    method ResetFileState()
      modifies this
      ensures State() == Reset(old(State()))
    {
      active := false;
      transferId := 0;
      expectedSize := 0;
      expectedCrc32 := 0;
      nextChunkIndex := 0;
      hasPath := false;
      bytesWritten := 0;
      crc32 := 0;
    }

    method DiscardPartialFile()
      modifies this
      ensures State() == Discard(old(State()))
    {
      var removePartial := active && hasPath;
      buffered := [];
      if removePartial {
        file := None;
      }
      ResetFileState();
    }

    method Expect(n: Notify)
      requires n.Start?
      modifies this
      ensures State() == Expecting(old(State()), n)
    {
      active := true;
      transferId := n.transferId;
      expectedSize := n.fileSize;
      expectedCrc32 := n.crc32;
      nextChunkIndex := 0;
      bytesWritten := 0;
      crc32 := 0;
    }

    method OpenFile(disk: Disk)
      modifies this
      ensures State() == Opened(old(State()), disk)
    {
      hasPath := true;
      good := disk.opens;
      file := if disk.opens then Some([]) else None;
      buffered := [];
    }

    method CloseFile(disk: Disk)
      modifies this
      ensures State() == Closed(old(State()), disk)
    {
      file := Reached(file, buffered, disk.reach);
      good := good && |buffered| <= disk.reach;
      buffered := [];
    }

    method OnStart(n: Notify, disk: Disk) returns (ok: bool)
      requires n.Start?
      modifies this
      ensures Handled(State(), ok) == HandleStart(old(State()), n, disk)
    {
      if !disk.hasDir {
        return false;
      }
      if !SafeFileName(n.fileName) || n.fileSize == 0 || n.fileSize > MAX_FILE_SIZE {
        return false;
      }
      if active {
        DiscardPartialFile();
      }
      Expect(n);
      OpenFile(disk);
      return good;
    }

    method OnChunk(n: Notify, disk: Disk) returns (ok: bool)
      requires n.Chunk?
      modifies this
      ensures Handled(State(), ok) == HandleChunk(old(State()), n, disk)
    {
      hide C.Crc, Reached, Left;
      if !active || transferId != n.transferId || !good {
        return false;
      }
      if n.index != nextChunkIndex {
        DiscardPartialFile();
        return false;
      }
      if bytesWritten + |n.data| > expectedSize {
        DiscardPartialFile();
        return false;
      }
      if n.data != [] {
        var held := buffered + n.data;
        file := Reached(file, held, disk.reach);
        buffered := Left(held, disk.reach);
        good := disk.works;
        bytesWritten := bytesWritten + |n.data|;
        crc32 := C.Crc32Update(crc32, n.data);
      }
      nextChunkIndex := nextChunkIndex + 1;
      return good;
    }

    method OnComplete(n: Notify, disk: Disk) returns (ok: bool)
      requires n.Complete?
      modifies this
      ensures Handled(State(), ok) == HandleComplete(old(State()), n, disk)
    {
      if !active || transferId != n.transferId {
        return false;
      }
      ghost var lost := Left(buffered, disk.reach);
      CloseFile(disk);
      if bytesWritten != expectedSize || crc32 != expectedCrc32 {
        DiscardPartialFile();
        return false;
      }
      saved := saved + [Saved(transferId, if file.Some? then file.value else [], lost)];
      active := false;
      return true;
    }

    method HandleFileNotify(n: Notify, disk: Disk) returns (ok: bool)
      modifies this
      ensures Handled(State(), ok) == Handle(old(State()), n, disk)
    {
      hide State, HandleStart, HandleChunk, HandleComplete;
      match n
      case Start(_, _, _, _) => ok := OnStart(n, disk);
      case Chunk(_, _, _) => ok := OnChunk(n, disk);
      case Complete(_) => ok := OnComplete(n, disk);
      case OtherOperation => ok := true;
    }
  }
}
