# LAN chat: verified model

A Dafny model of the LAN chat system: the packet channel between two peers, the server that keeps
sessions, calls and file relays in fixed tables, the storage behind it, and the client's file transfer.
`dafny verify dfyconfig.toml` checks everything.

## How the model is built

- **Bytes and packets.** `Wire`, `Endian`, `RingBuffers`, `Protocol`, `Framers` and `Transport` keep the
  source's own form: arrays written in place, a ring with a read position, a one-packet send queue. Each
  method is proved against a function on byte strings. The network is a pair of `Pipe` objects that decide
  freely how much of a write is accepted, how much a read returns, and when either blocks or fails.
  `Channel` then runs any sequence of operations at the two ends.
- **Bodies.** `Tlv` and `UserBlob` are the two body formats, each with a writer and a parser.
- **Checksum.** `Crc32` (with `ShiftRegisters`, the algebra of a shift register over an abstract register
  type, and `ByteBits`) is the reflected CRC-32 of section 8 of RFC 1952; `Bursts` is about errors bit by bit.
- **Storage.** `Storage` gives every operation as a function on tables, `StorageLaws` proves what all
  sequences of operations keep, and `MemoryStorages` is the backend with its loops, proved equal to those
  functions.
- **Server.** `Server` gives each handler as a function from state and request to state and status;
  `ChatServers` is the server with its slot arrays, proved equal to those functions method by method.
  Requests arrive parsed. A connection is an open flag and the one packet its send queue may hold, because a
  second packet is refused while the first is pending. A ghost log records every packet queued, with the slot
  and the user logged in there. `ServerLaws` and `ServerSteps` prove the invariant, table by table, through
  every handler, nested close and sweep; `ServerTheorems`, `Presence`, `Delivery` and `Refusals` draw the
  conclusions, and `Scenarios` are short runs in which something goes wrong.
  What each request does, case by case and with the whole state after it, is in `CallEffects`, `FileEffects`,
  `MessageEffects`, `LoginEffects` and `PassEffects`; `StorageEffects` does the same for each storage operation,
  and `Histories` joins the two. `CallRun` is a call from beginning to end.
- **Server and channel.** `Traffic` says what each event puts on each connection, and `Links` runs a server slot
  on a real `TcpConnection`: its turns flush and read that connection, what is logged for it is queued there.
  How a packet becomes a header and a body, and packet bytes a request, are parameters.
- **Files.** `FileTransfer` is the client's chunk loop and its receiver, `EndToEnd` joins sender, server and
  receiver, and `Arrivals` are runs in which a whole file is sent.

Identifiers are natural numbers. Strings are sequences of characters, one for each byte. Clocks are zero or
parameters, as the server passes them. Environment choices (accepts, sends, receives, file writes, parsed
requests) are parameters or nondeterministic results, so each theorem is about all of them.

## What is not true, and exactly when it is

- docs/architecture/LAN_CHAT_TRANSPORT_WIN32.md:211 asks for a framer buffer of at least one maximal packet,
  and the code has exactly that (include/lan_chat/transport/transport.h:18). It is not enough for every legal
  stream: a receive appends up to 8192 bytes before the next packet is taken, so a connection can be closed
  in the middle of valid traffic. `Channel.BufferSupportsBodies` gives the exact bound on bodies, 57344.
- A stored message does not mean that anybody was told, not even its sender. `Delivery.ChatIsOfferedIff` and
  `Delivery.GroupMessageIsOfferedIff` say exactly who is: the sender if its own send slot is free, and then
  each receiver on a connection with a free send slot. `Scenarios.GreetingCanBeLost`,
  `Scenarios.GreetingCanCutOff` and `Scenarios.AnnouncementCanBeLost` are runs in which a message is lost.
  For a completed file record it is the receiver's slot alone that decides: `Delivery.CompletionIsToldIff`,
  and `Arrivals.CompletionCanBeLost` is a run, for every file, in which the receiver never learns that it has it.
- A valid request does not always keep its connection: a busy peer, a signalling text too long for a packet
  or a login that hangs up on itself ends it. `Refusals.DispatchSucceedsIff` and `Refusals.TurnSurvivesIff`
  are exact. `Scenarios.InviterIsCutOff`, `Scenarios.LongOfferIsCutOff` and `Scenarios.CallerCutsItselfOff` are a
  run for each cause, and `Refusals.UnannouncedStartRemains` says what a failed start leaves behind.
- Within a pass the parties of a call or transfer may be offline, between the turn that logs one of them in
  as somebody else and the sweeps at the end: `Presence.TurnKeepsBothOnlineIff` is the exact condition,
  `Scenarios.CallCanBeDeserted` a run, and `Presence.PassBoundariesAreUp` what holds between any two passes.
- A reported file is not always the one that was written: the receiver does not look at its stream after
  closing it (apps/chat_cli/cli_support.cpp:735). `FileTransfer.ReportIsWholeIff` says exactly when it is,
  and `FileTransfer.TruncatedFileIsReported` is a file that is not.
- Corruption is detected for certain within 32 consecutive bits and no more: `Bursts.BitBurstLimit`, with
  `FileTransfer.CorruptFileIsReported` for 33 (and, counted in whole bytes, `Crc32.WindowLimit`).

## Model

| member | source | states |
|---|---|---|
| Wire.BE16Inverse | src/core/endian.c:8-17 | A 16-bit value stored big-endian reads back as itself, and two bytes read and stored again are unchanged |
| Wire.BE32Inverse | src/core/endian.c:19-76 | The same for 32 bits |
| Wire.BE64Inverse | src/core/endian.c:32-96 | The same for 64 bits |
| Wire.BE64Bytes | src/core/endian.c:32-47 | The shift-and-mask bytes of the 64-bit store are the big-endian digits |
| Endian.WriteU16 | src/core/endian.c:8-17 | Out of bounds is refused and changes nothing; otherwise exactly the two bytes at the offset become the value |
| Endian.WriteU32 | src/core/endian.c:19-30 | The same for four bytes |
| Endian.WriteU64 | src/core/endian.c:32-47 | The same for eight bytes |
| Endian.ReadU16 | src/core/endian.c:49-60 | Out of bounds is refused; otherwise the value whose encoding stands at the offset |
| Endian.ReadU32 | src/core/endian.c:62-76 | The same for four bytes |
| Endian.ReadU64 | src/core/endian.c:78-96 | The same for eight bytes |
| RingBuffers.RingBuffer.Write | src/core/ring_buffer.c:37-65 | Appends the data to the queue across the wrap, or refuses it whole and changes nothing |
| RingBuffers.RingBuffer.Peek | src/core/ring_buffer.c:67-94 | Copies the queue's bytes at an offset across the wrap without consuming them |
| RingBuffers.RingBuffer.Discard | src/core/ring_buffer.c:96-110 | Drops exactly the first bytes of the queue, or none |
| RingBuffers.RingBuffer.Read | src/core/ring_buffer.c:112-119 | Returns the first bytes of the queue and drops them, or neither |
| RingBuffers.ViewAppend | src/core/ring_buffer.c:37-65 | Storing bytes at the wrapped write position appends them to the abstract queue |
| RingBuffers.ViewDrop | src/core/ring_buffer.c:96-110 | Moving the read position modulo the capacity drops a prefix of the abstract queue |
| Protocol.HeaderValidate | src/core/protocol.c:51-80 | The imperative checks, in their order, decide the status of a header |
| Protocol.ValidateIff | src/core/protocol.c:51-80 | Exactly the headers with this magic, version, lengths, listed flags and zero reserved bytes are accepted, and each other one gets the status of the first field that is wrong |
| Protocol.EncodeLayout | src/core/protocol.c:82-114 | The offset of every field in the wire form |
| Protocol.HeaderEncode | src/core/protocol.c:82-114 | A valid header is stored as its 64-byte form and the rest of the buffer is untouched; an invalid one is refused |
| Protocol.HeaderDecode | src/core/protocol.c:116-147 | Accepts exactly the 64-byte prefixes of valid headers and returns that header |
| Protocol.DecodeEncode | src/core/protocol.c:82-147 | Decoding an encoded header gives it back, whatever follows it |
| Protocol.EncodeDecode | src/core/protocol.c:82-147 | Encoding what was decoded from 64 bytes reproduces those bytes |
| Protocol.FieldsDetermine | src/core/protocol.c:116-147 | The fields read at their offsets determine the header |
| Protocol.PacketPack | src/core/protocol.c:149-188 | Succeeds exactly for a well-formed header, its body and enough room; then the buffer holds header, body and its old remainder |
| Protocol.PackIff | src/core/protocol.c:149-188 | Packing succeeds if and only if the header is well-formed field by field and announces its body and there is room for 64 bytes and the body; each failure has its own status |
| Protocol.FramesExactly | src/core/protocol.c:190-210 | A string starts with a whole packet if and only if it starts with a well-formed header and the body it announces |
| Protocol.PacketPeekSize | src/core/protocol.c:190-210 | Tells waiting, malformed and whole packets apart from a prefix |
| Protocol.PacketUnpack | src/core/protocol.c:212-249 | Returns a header and body exactly when the buffer starts with their packed form |
| Protocol.PackFrames | src/core/protocol.c:149-249 | A packed packet is recognised at once, with its own length, whatever bytes trail it |
| Protocol.UnpackUnique | src/core/protocol.c:212-249 | No byte string starts with the packed forms of two different packets |
| Protocol.DecodePrefix | src/core/protocol.c:190-210 | What a prefix says about the first packet is not changed by later bytes |
| Framers.Framer.Feed | src/core/framer.c:11-17 | Appends all the bytes or refuses all of them |
| Framers.Framer.PeekFrame | src/core/framer.c:36-54 | Decides from the header in the ring whether a packet is complete, malformed or still to come, and how long it is |
| Framers.Framer.Next | src/core/framer.c:19-65 | Hands out the first whole packet and consumes exactly it; on waiting, a malformed header or a small output buffer it consumes nothing |
| Framers.Framer.RefinesParse | src/core/framer.c:11-65 | After any feeds and nexts, packets handed out plus bytes left in the ring are the recursive parse of everything fed |
| Framers.ParseFlatten | src/core/framer.c:19-65 | Parsing the concatenation of packets gives back those packets |
| Framers.ParseConserves | src/core/framer.c:19-65 | Parsing loses no byte, yields packets only, and stops only where no packet is ready |
| Framers.MalformedIsForever | src/core/framer.c:19-65 | A malformed header stays the answer whatever is fed later |
| Transport.TcpConnection.QueuePacket | src/transport/transport.c:161-191 | Accepts exactly the well-formed packets, and those only when open and idle; then the send queue holds exactly the packed packet |
| Transport.TcpConnection.Flush | src/transport/transport.c:193-224 | Under partial sends the bytes on the wire and the pending ones remain the packets queued; OK means all are on the wire |
| Transport.TcpConnection.SendSome | src/transport/transport.c:202-218 | One send: progress, blocking or an error that closes, and the bytes on the wire and the pending ones remain the packets queued |
| Transport.TcpConnection.RecvPacket | src/transport/transport.c:226-275 | Agrees with the functional receive step for every network behaviour, including when it closes |
| Transport.ReceiveThere | src/transport/transport.c:237-246 | A whole packet that is there is returned whatever the network does, and lost with the connection when the buffer is too small |
| Transport.ReceiveArriving | src/transport/transport.c:247-275 | A packet completed by the arriving bytes is returned at once, and the bytes after it stay |
| Transport.ReceiveNothing | src/transport/transport.c:237-275 | Without a whole packet the bytes are kept while there is room; a network error, a full ring or a malformed header closes the connection |
| Transport.TcpConnection.Fill | src/transport/transport.c:247-270 | One read of at most 8192 bytes is appended to the ring, or closes the connection when it does not fit |
| Transport.TcpConnection.NextOrClose | src/transport/transport.c:237-274 | A framing error closes the connection, waiting does not |
| Transport.TcpConnection.Close | src/transport/transport.c:277-284 | Empties the queue and the framer and keeps the history |
| Channel.Join | src/transport/transport.c:94-159 | Two established ends start empty, open and linked |
| Channel.Perform | src/transport/transport.c:161-284 | What each operation at one end does to the two histories, and that the other end's are untouched; a receive that returns nothing leaves no whole packet waiting |
| Channel.Run | src/transport/transport.c:161-284 | For every sequence of operations at both ends and every network behaviour, each end has received a prefix of what the other queued, packet for packet, and all of it once drained |
| Channel.Transmit | src/transport/transport.c:161-275 | An idle open end takes every well-formed packet, and when the other end, having received all before it, returns a packet, it is this one |
| Channel.FifoHolds | src/transport/transport.c:161-275 | The channel property follows from the two ends' invariants in each direction |
| Channel.PacketsPrefix | src/core/framer.c:19-65 | Packets whose bytes are a prefix of other packets' bytes are themselves a prefix: none is merged or split |
| Channel.DrainedMeansAll | src/transport/transport.c:226-275 | When every byte was read and no packet waits, every packet queued was received |
| Channel.BoundedBodiesStayOpen | src/transport/transport.c:242-274 | With bodies of at most 57344 bytes no receive call ever closes the connection, however the stream is cut |
| Channel.LargePacketOverflows | src/transport/transport.c:242-274 | A 57345-byte body followed by more traffic overflows the ring for one way of cutting the stream |
| Channel.BufferSupportsBodies | include/lan_chat/transport/transport.h:15-19 | Well-formed traffic with bodies up to a bound never closes the connection if and only if the bound is at most 57344 |
| Tlv.FieldLayout | src/core/tlv.c:56-87 | A field is four header bytes, the high bit of the first meaning required, and its value |
| Tlv.FirstIff | src/core/tlv.c:134-170 | What the reader takes or why it stops, byte by byte |
| Tlv.TlvWriter.WriteBytes | src/core/tlv.c:55-86 | Appends exactly one encoded field, or refuses a bad id, an oversized value or a full buffer and changes nothing |
| Tlv.TlvReader.RememberField | src/core/tlv.c:18-37 | A repeated id and a 129th id are refused; otherwise the id is remembered |
| Tlv.TlvReader.FieldIdIsSeen | src/core/tlv.c:7-16 | True exactly for remembered ids |
| Tlv.TlvReader.FirstField | src/core/tlv.c:142-170 | Reads the field at the offset by its bytes alone, or the status with which reading stops there, and changes nothing |
| Tlv.TlvReader.NextField | src/core/tlv.c:134-179 | Agrees with the functional reader; every error leaves the offset and the remembered ids alone |
| Tlv.ReadFields | src/core/tlv.c:134-179 | The read loop ends on every input and collects what the functional reader collects |
| Tlv.ReadOfWritten | src/core/tlv.c:55-179 | Reading written fields yields them in order, up to the first repeated id or the 129th field, where it stops with that error |
| Tlv.WrittenOfRead | src/core/tlv.c:55-179 | The consumed bytes are reproduced byte for byte by writing the fields that were read |
| Tlv.ReadsExactlyWritten | src/core/tlv.c:55-179 | A body is read to its end if and only if it was written from at most 128 fields with distinct ids |
| Tlv.FreshMeans | src/core/tlv.c:18-37 | All fields are accepted exactly when there are at most 128 and their ids are distinct |
| Crc32.Crc32Update | apps/chat_cli/cli_support.cpp:547-557 | The nested loops compute the register function, for every seed and every data |
| Crc32.CheckValue | apps/chat_cli/cli_support.cpp:547-562 | The published check value: the digits 1 to 9 give 0xCBF43926 |
| Crc32.CrcAppend | apps/chat_cli/cli_support.cpp:547-557 | Updating with a and then b is updating with a followed by b |
| Crc32.CrcOfChunks | apps/chat_cli/cli_support.cpp:725 | The running checksum over any chunking equals the one-shot checksum of the whole |
| Crc32.CrcAffine | apps/chat_cli/cli_support.cpp:547-562 | The checksum is affine over the exclusive or of equally long strings |
| Crc32.ShiftLinear | apps/chat_cli/cli_support.cpp:553 | One shift step is linear over exclusive or |
| Crc32.ShiftInjective | apps/chat_cli/cli_support.cpp:553 | One shift step with 0xEDB88320 is injective |
| Crc32.BurstDetected | apps/chat_cli/cli_support.cpp:547-557 | Strings of equal length that differ only in a window of at most four bytes have different checksums from the same seed |
| Crc32.FiveByteCollision | apps/chat_cli/cli_support.cpp:547-557 | Four is the limit: two five-byte strings collide from every seed |
| Crc32.WindowLimit | apps/chat_cli/cli_support.cpp:547-557 | Errors inside a window of n bytes are always detected if and only if n is at most 4 |
| Bursts.NothingCancels | apps/chat_cli/cli_support.cpp:547-557 | 32 shifts never turn a difference whose low j bits are zero into one of at most j bits, so the two ends of a straddling burst cannot cancel |
| Bursts.BitBurstDetected | apps/chat_cli/cli_support.cpp:547-557 | Strings of equal length that differ only within 32 consecutive bits in transmission order, wherever they start, have different checksums from the same seed |
| Bursts.BitBurstLimit | apps/chat_cli/cli_support.cpp:547-557 | Errors within n consecutive bits are always detected if and only if n is at most 32 |
| FileTransfer.ChunksJoin | apps/chat_cli/main.cpp:476-488 | The pieces of a file join to the file, are never empty nor longer than 32768, all but the last are full, and there are as many as the rounded-up quotient |
| FileTransfer.SendPieces | apps/chat_cli/main.cpp:476-488 | The loop sends piece k under index k, in order, stops at the first piece that is not answered with success, and succeeds exactly when all are |
| FileTransfer.ReceiveFileState.ResetFileState | apps/chat_cli/cli_support.cpp:649-659 | Clears every field of the transfer in progress |
| FileTransfer.ReceiveFileState.DiscardPartialFile | apps/chat_cli/cli_support.cpp:661-675 | Closes the stream, removes the file only of an active transfer, then resets |
| FileTransfer.ReceiveFileState.HandleFileNotify | apps/chat_cli/cli_support.cpp:677-747 | Updates the state in place as the receiver function does, for start, chunk, complete and any other operation; bytes may stay in the stream until it is closed, and nobody looks at the stream after that |
| FileTransfer.SafeNames | apps/chat_cli/cli_support.cpp:640-647 | Exactly the non-empty names without slashes other than . and .. are safe |
| FileTransfer.StartIff | apps/chat_cli/cli_support.cpp:679-706 | When a start is accepted and the whole state after it, accepted or not |
| FileTransfer.ChunkIff | apps/chat_cli/cli_support.cpp:707-728 | When a chunk is accepted, when it is ignored and when it ends the transfer, and the state after each |
| FileTransfer.CompleteIff | apps/chat_cli/cli_support.cpp:729-745 | When a completion is accepted, ignored or ends the transfer; accepted, it reports what was written |
| FileTransfer.ListenStops | apps/chat_cli/cli_support.cpp:677-747 | Listening handles every accepted notify and discards what is in progress at the first that is not |
| FileTransfer.ReportedAsAnnounced | apps/chat_cli/cli_support.cpp:677-747 | Over every sequence of notifies and every disk behaviour, what was written for a reported file, on the disk or lost at the close, has the size and the checksum that a start of its transfer announced, and no partial file outlives a refusal |
| FileTransfer.BurstIsRejected | apps/chat_cli/cli_support.cpp:736-740 | Nothing that differs from the announced file only within 32 consecutive bits is ever written and reported |
| FileTransfer.CorruptFileIsReported | apps/chat_cli/cli_support.cpp:736-740 | A file that differs from the announced one within its first 33 bits is reported |
| FileTransfer.ReportIsWholeIff | apps/chat_cli/cli_support.cpp:735-744 | A reported file is what was written for it if and only if closing the stream brings all it still holds to the disk |
| FileTransfer.TruncatedFileIsReported | apps/chat_cli/cli_support.cpp:735-744 | On a disk that takes nothing at the close an empty file is reported as one of one byte |
| FileTransfer.WellClosedIsWhole | apps/chat_cli/cli_support.cpp:677-747 | On a disk that never fails at a close no reported file has lost anything |
| FileTransfer.SentFileIsReported | apps/chat_cli/cli_support.cpp:677-747 | Whatever it was doing before, a receiver told of a file of 1 byte to 1 MiB piece by piece, on a disk that does what it is asked, reports exactly that file |
| Storage.FindPrivate | src/storage/memory/storage_memory.c:177-193 | The first conversation of the ordered pair, or none |
| Storage.MemberRows | src/storage/memory/storage_memory.c:554-559 | One active row per collected member, in order |
| MemoryStorages.MemoryStorage.CreateAccount | src/storage/memory/storage_memory.c:320-359 | The tables, the status and the id after creating an account |
| MemoryStorages.MemoryStorage.UpdateLastLogin | src/storage/memory/storage_memory.c:387-404 | Changes one account's last login or reports why not |
| MemoryStorages.MemoryStorage.GetOrCreatePrivateConversation | src/storage/memory/storage_memory.c:195-222 | Finds the pair's conversation or appends a canonical one |
| MemoryStorages.MemoryStorage.StorePrivateMessage | src/storage/memory/storage_memory.c:443-506 | Appends a message and its pending delivery together, or changes nothing |
| MemoryStorages.MemoryStorage.Collect | src/storage/memory/storage_memory.c:529-540 | The distinct enabled members, creator first, or the first error met |
| MemoryStorages.MemoryStorage.CreateGroup | src/storage/memory/storage_memory.c:508-562 | Appends a conversation and all its member rows, or changes nothing |
| MemoryStorages.MemoryStorage.ListGroupMembers | src/storage/memory/storage_memory.c:564-594 | The active members, and overflow when they do not fit |
| MemoryStorages.MemoryStorage.StoreGroupMessage | src/storage/memory/storage_memory.c:596-630 | Appends a group message for a member of the group |
| MemoryStorages.MemoryStorage.StoreFileTransfer | src/storage/memory/storage_memory.c:632-673 | Appends message, delivery and file record together, or changes nothing |
| MemoryStorages.MemoryStorage.CompleteFileTransfer | src/storage/memory/storage_memory.c:675-692 | Marks one record |
| MemoryStorages.MemoryStorage.ListHistory | src/storage/memory/storage_memory.c:694-747 | The two reverse scans return one page of the pair's history, newest first |
| MemoryStorages.MemoryStorage.ListPendingDeliveries | src/storage/memory/storage_memory.c:749-807 | The count pass and the copy pass return the first pending rows with their messages |
| MemoryStorages.MemoryStorage.MarkDeliveryState | src/storage/memory/storage_memory.c:809-844 | Only the allowed transitions, with their time stamps |
| StorageLaws.AllOrNothing | src/storage/memory/storage_memory.c:443-673 | Any status other than OK leaves all tables and counters as they were and hands out no id |
| StorageLaws.RunKeeps | src/storage/memory/storage_memory.c:320-844 | Over every sequence of operations the tables stay consistent, rows are never lost or rewritten, delivery states only advance and completed files stay completed |
| StorageLaws.ReachableStoreOk | src/storage/memory/storage_memory.c:320-844 | Every reachable state has unique increasing ids, valid foreign keys, one private conversation per pair, and groups of 2 to 16 distinct enabled members |
| StorageLaws.CreateGroupMeans | src/storage/memory/storage_memory.c:508-562 | A new group's members are exactly its creator and the listed users, each once, creator first, 2 to 16 of them |
| StorageLaws.GroupFanOutFits | src/server/server.c:1687-1707 | The 16-entry member listing of an existing group always succeeds and is complete |
| StorageLaws.FindPrivateSymmetric | src/storage/memory/storage_memory.c:122-193 | Lookup does not depend on the order of the pair |
| StorageLaws.FindPrivateUnique | src/storage/memory/storage_memory.c:177-222 | No second conversation of the same pair exists |
| StorageLaws.HistoryIsolated | src/storage/memory/storage_memory.c:694-747 | A listed message was sent between the two users asked for; group messages never appear |
| StorageLaws.PaginationExact | src/storage/memory/storage_memory.c:694-747 | Following pages visits every message the pair had at the first request exactly once, in descending ids, while the tables grow in between |
| StorageLaws.PaginationOverRuns | src/storage/memory/storage_memory.c:694-747 | The same with any operations before the first request and between requests |
| StorageLaws.NothingToFollow | src/storage/memory/storage_memory.c:694-747 | A pair without a conversation has no pages |
| StorageLaws.PendingListingSound | src/storage/memory/storage_memory.c:749-807 | Never an internal error: exactly the first pending rows in ascending ids, each with a message for that receiver |
| StorageLaws.LeavesForever | src/storage/memory/storage_memory.c:809-844 | A delivery that left the pending list never returns |
| StorageEffects.AccountCreated | src/storage/memory/storage_memory.c:320-359 | An account is created if and only if its texts, its name and the room allow it, each failure with its status; its row shows the given nickname or else the name |
| StorageEffects.LoginRecorded | src/storage/memory/storage_memory.c:387-404 | Exactly the named row's last login changes |
| StorageEffects.PrivateStored | src/storage/memory/storage_memory.c:443-506 | The exact condition of every status; on success the tables gain one row with every field as submitted, one pending delivery without stamps, the pair's conversation if it is new, and nothing else |
| StorageEffects.GroupTextStored | src/storage/memory/storage_memory.c:596-630 | The same for a group message, which gains one row without a receiver and no delivery |
| StorageEffects.GroupCreated | src/storage/memory/storage_memory.c:508-562 | The exact condition of every status; on success one active row for each user in the order of first mention |
| StorageEffects.MembersListed | src/storage/memory/storage_memory.c:564-594 | The statuses, and that the listed users are exactly the active members |
| StorageEffects.FileStored | src/storage/memory/storage_memory.c:632-673 | When a file is stored, and the message, delivery and record it adds |
| StorageEffects.FileCompleted | src/storage/memory/storage_memory.c:675-692 | Exactly the named record is marked |
| StorageEffects.DeliveryMarked | src/storage/memory/storage_memory.c:809-844 | The exact condition of every status over the listed transitions; on success the row has the state and its stamps, and nothing else changes |
| StorageEffects.MarkedIsNotPending | src/storage/memory/storage_memory.c:749-844 | A delivery marked delivered or acknowledged is in no pending listing after any run |
| StorageEffects.HistoryPage | src/storage/memory/storage_memory.c:694-747 | A page is the newest messages of the pair below the bound, none left out, as many as the limit allows, or is refused whole |
| StorageEffects.HistoryOfNobody | src/storage/memory/storage_memory.c:694-715 | The listings that are refused or empty |
| StorageEffects.StoredHeadsHistory | src/storage/memory/storage_memory.c:443-747 | Right after it was stored a message, with every field as submitted, heads the history of its pair, whoever asks |
| StorageEffects.StoredIsPending | src/storage/memory/storage_memory.c:443-807 | And its delivery ends the receiver's pending ones, with the message in full |
| StorageEffects.PendingPage | src/storage/memory/storage_memory.c:749-807 | The exact condition of every status and the listed rows |
| Server.FindUser | src/server/server.c:1211-1226 | The first open authenticated slot of a user, or the capacity |
| Server.FindCall | src/server/server.c:1274-1287 | The first active call with an id, none for id 0 |
| Server.FindTransfer | src/server/server.c:1243-1257 | The first active transfer with an id, none for id 0 |
| ChatServers.ChatServer.Queue | src/transport/transport.c:161-191 | Refused when the body does not fit, the connection is closed or its slot is busy; otherwise fills the slot and is logged |
| ChatServers.ChatServer.FindUser | src/server/server.c:1211-1226 | The loop finds the first slot |
| ChatServers.ChatServer.HasActiveCall | src/server/server.c:1294-1307 | The loop decides whether a user is in an active call |
| ChatServers.ChatServer.ClearTransfersFor | src/server/server.c:1180-1194 | Clears exactly the user's active transfers |
| ChatServers.ChatServer.ClearCallsFor | src/server/server.c:1331-1360 | Ends the user's calls one by one, telling each peer that can take it |
| ChatServers.ChatServer.CloseClient | src/server/server.c:1394-1410 | The whole state after a connection is closed |
| ChatServers.ChatServer.Authenticate | src/server/server.c:1412-1432 | Kicks every other connection of the user, then binds the slot to a new session |
| ChatServers.ChatServer.HandleRegister | src/server/server.c:1434-1477 | The whole state and the queued status |
| ChatServers.ChatServer.HandleLogin | src/server/server.c:1479-1532 | The whole state and the queued status |
| ChatServers.ChatServer.HandleChat | src/server/server.c:1556-1615 | The whole state and the queued status |
| ChatServers.ChatServer.FanOut | src/server/server.c:1691-1708 | Offers a group message to every listed member but the sender |
| ChatServers.ChatServer.HandleGroupCreate | src/server/server.c:1642-1656 | The whole state and the queued status |
| ChatServers.ChatServer.HandleGroupSend | src/server/server.c:1658-1709 | The whole state and the queued status |
| ChatServers.ChatServer.HandleFileStart | src/server/server.c:1731-1797 | The whole state and the queued status for every outcome of a start request |
| ChatServers.ChatServer.BeginTransfer | src/server/server.c:1769-1796 | Installs the transfer and announces it; when it cannot be announced the slot is cleared again, the id stays spent |
| ChatServers.ChatServer.HandleFileChunk | src/server/server.c:1799-1833 | The whole state and the queued status, including the transfer dropped on a wrong index |
| ChatServers.ChatServer.TellCompleted | src/server/server.c:1847-1855 | Offers the completion to the receiver, or loses it |
| ChatServers.ChatServer.HandleFileComplete | src/server/server.c:1836-1860 | The whole state and the queued status |
| ChatServers.ChatServer.HandleInvite | src/server/server.c:1951-1996 | The whole state and the queued status, including the undone slot when the invite cannot be queued |
| ChatServers.ChatServer.Forward | src/server/server.c:1888-1928 | The whole state and the queued status |
| ChatServers.ChatServer.HandleCall | src/server/server.c:1930-2037 | The whole state and the queued status for every call operation |
| ChatServers.ChatServer.Dispatch | src/server/server.c:2039-2086 | The whole state and the queued status for every request, logged in or not |
| ChatServers.ChatServer.Serve | src/server/server.c:2190-2211 | One connection's turn: flush, read, dispatch, close on errors |
| ChatServers.ChatServer.AcceptClients | src/server/server.c:2088-2108 | Fills free slots with the arriving connections |
| ChatServers.ChatServer.SweepTransfers | src/server/server.c:1378-1392 | Clears the transfers with a party offline |
| ChatServers.ChatServer.SweepCalls | src/server/server.c:1362-1376 | Clears the calls with a party offline |
| ChatServers.ChatServer.RunOnce | src/server/server.c:2177-2215 | One pass over all connections, then the two sweeps |
| ServerSteps.CloseClientKeeps | src/server/server.c:1394-1410 | Closing vacates the slot, touches elsewhere only send slots, and keeps the invariant |
| ServerSteps.KickOthersKeeps | src/server/server.c:1420-1427 | After the kicks no other connection has the user, through nested closes |
| ServerSteps.AuthenticateKeeps | src/server/server.c:1412-1432 | Logging in, also as another user, leaves users and sessions unshared |
| ServerSteps.DispatchKeeps | src/server/server.c:2039-2086 | Every request of an open connection keeps the invariant of all tables |
| ServerSteps.ServeKeeps | src/server/server.c:2190-2211 | Every turn of a connection keeps it |
| ServerSteps.RunKeeps | src/server/server.c:2177-2215 | It holds between any two events of any run |
| ServerTraces.LedgerBounds | src/server/server.c:1799-1833 | n relayed chunks carry between n bytes and the smaller of the announced size and 32768 n |
| ServerTheorems.CallProtocol | src/server/server.c:1888-2037 | Over every run the packets queued for a call form invite (accept, offer, answer, ice)* then at most one reject or hangup |
| ServerTheorems.EveryCallPacketHasItsInvite | src/server/server.c:1888-2037 | Each call packet answers an earlier invite of its call, runs between the two users of that invite, and only the invited one accepts |
| ServerTheorems.CallIdsAreNotReused | src/server/server.c:1972-1975 | No call is invited twice and nothing follows its reject or hangup |
| ServerTheorems.Exclusive | src/server/server.c:1412-1432 | Between any two events logged-in connections share neither user nor session, active calls have disjoint parties and no call has one user at both ends |
| ServerTheorems.NotifiesReachTheirAddressee | src/server/server.c:1211-1226 | Every notify queued went to a connection where its addressee was logged in at the time |
| ServerTheorems.FanOutListsEveryMember | src/server/server.c:1687-1707 | In no run does the group listing overflow |
| ServerTheorems.RelayLedger | src/server/server.c:1799-1833 | For every active transfer the chunks queued have indices 0 to next_chunk_index - 1, their lengths sum to bytes_seen, within the stated bounds |
| ServerTheorems.FileProtocol | src/server/server.c:1733-1860 | Over every run the packets of a transfer are a start, consecutive chunks within the announced size, and at most one completion, last |
| ServerTheorems.CompletionMeansWhole | src/server/server.c:1844-1855 | A completion is queued only when exactly the announced bytes were relayed |
| ServerTheorems.CompletedRecordWasRelayed | src/server/server.c:1856 | A stored record is completed only when all the bytes it stands for were relayed |
| ServerTheorems.PassIsRun | src/server/server.c:2177-2215 | A pass is a run of events, so everything said of runs holds of passes |
| ServerTheorems.PassKeeps | src/server/server.c:2177-2215 | A pass keeps the invariant |
| ServerTheorems.PassesAreRun | src/server/server.c:2177-2215 | So does any number of passes |
| ServerTheorems.PassLeavesBothOnline | src/server/server.c:2211-2214 | After every pass both parties of every active call and transfer are online, and a user in an active call is online |
| Traffic.DispatchMoves | src/server/server.c:2039-2086 | A request puts on each connection at most one packet, only into a free send slot and never on a closed connection, where it stays while the connection does; others are told of nothing but the request, with its contents |
| Traffic.TurnMoves | src/server/server.c:2190-2211 | The same for a whole turn, counted from the state after its flush |
| Traffic.DispatchQuiet | src/server/server.c:2039-2086 | Only a chunk request relays file data |
| Traffic.NotifiesAreSubmitted | src/server/server.c:1556-2037 | Over any run every message, file start, chunk, completion and signal that anybody is told of is in a request of the user it is said to come from, with the same contents |
| CallEffects.FitsMeans | src/server/server.c:1110-1178 | A call notify fits exactly when its fields, four bytes and a value each, take at most 60512 bytes |
| CallEffects.InviteRefused | src/server/server.c:1954-1973 | The answer to every invite that cannot be made, and that nothing else changes |
| CallEffects.InviteExact | src/server/server.c:1974-1995 | An invite that can be made: the new call, the notify and the reply, and nothing else |
| CallEffects.InviteToBusy | src/server/server.c:1989-1993 | A busy callee: no call is left, its id is spent, nobody is told |
| CallEffects.RelayRefused | src/server/server.c:1998-2036 | The answer to every operation that cannot be relayed, and that nothing else changes |
| CallEffects.RelayToNobody | src/server/server.c:1899-1905 | A peer who is not online ends the call |
| CallEffects.RelayToBusy | src/server/server.c:1906-1923 | A busy peer or a notify that does not fit: nothing is relayed or answered |
| CallEffects.RelayExact | src/server/server.c:1888-1928 | With both slots free the log grows by exactly the notify, with the signal as submitted, and the reply; the call is the same after accept, offer, answer and ice, blank after reject and hangup, and nothing else changes |
| CallRun.CallGoesOn | src/server/server.c:1930-2037 | From empty tables: whatever sequence of operations the parties of a call use, each is relayed as it was said and answered, and the call stays until one of them rejects or hangs up |
| CallRun.WholeCall | src/server/server.c:1930-2037 | In particular a call is invited, accepted, negotiated by offer, answer and ice with any texts, and hung up |
| FileEffects.StartRefused | src/server/server.c:1737-1767 | The answer to every start that cannot be made, and that nothing else changes |
| FileEffects.StartExact | src/server/server.c:1749-1797 | A start: the stored rows, the transfer, the notify and the reply, all under the numbers of those rows |
| FileEffects.StartToBusy | src/server/server.c:1782-1796 | A busy receiver: the file stays stored, the id is spent, nobody is told |
| FileEffects.ChunkRefused | src/server/server.c:1799-1816 | The answer to every chunk that is not relayed, and which of them end the transfer |
| FileEffects.ChunkExact | src/server/server.c:1817-1833 | A chunk: the counters, the notify with the submitted bytes and the reply, and nothing else |
| FileEffects.ChunkToBusy | src/server/server.c:1817-1828 | A busy receiver: nothing changes |
| FileEffects.CompleteRefused | src/server/server.c:1836-1846 | The answer to every completion that is refused |
| FileEffects.CompleteExact | src/server/server.c:1847-1860 | A completion marks the record and clears the transfer whoever can be told |
| MessageEffects.LoginRequired | src/server/server.c:1556-2037 | Before a login every other request is refused in its own group |
| MessageEffects.PlainAnswers | src/server/server.c:2039-2086 | The answers to unparsed, unknown and heartbeat requests |
| MessageEffects.OnlineListAnswered | src/server/server.c:1865-1886 | The list of the users logged in on the other connections, with status OK |
| MessageEffects.ChatRefused | src/server/server.c:1576-1600 | The answer to every message that is not stored |
| MessageEffects.ChatExact | src/server/server.c:1576-1615 | A stored message: reply and notify under the numbers of its rows, with the submitted text, as the two slots allow, and nothing else |
| MessageEffects.GroupCreateExact | src/server/server.c:1642-1656 | The answer to a group creation, with the storage's status |
| MessageEffects.GroupSendRefused | src/server/server.c:1658-1685 | The answer to every group message that is not stored |
| MessageEffects.GroupSendFrame | src/server/server.c:1658-1709 | A stored group message adds its row and otherwise only fills send slots |
| LoginEffects.CloseIdle | src/server/server.c:1394-1410 | A closed connection takes the transfers of its user with it; with no call nobody is told |
| LoginEffects.CloseEngaged | src/server/server.c:1331-1410 | With a call, the call is over and the other party gets exactly one hang-up if it is on a free slot |
| LoginEffects.RegisterRefused | src/server/server.c:1434-1477 | The answer to every registration that fails |
| LoginEffects.RegisterExact | src/server/server.c:1434-1477 | A registration: the account, the session, the reply, and nobody else concerned |
| LoginEffects.LoginRefused | src/server/server.c:1479-1515 | The answer to every login that fails |
| LoginEffects.DisabledRefused | src/server/server.c:1503-1506 | A disabled account is refused |
| LoginEffects.LoginExact | src/server/server.c:1479-1532 | A login: the session and the reply, after the user's other connection, if any, was closed |
| LoginEffects.UsersAreKnown | src/server/server.c:1412-1432 | Over any run whoever is logged in has an account |
| PassEffects.AcceptExact | src/server/server.c:2088-2108 | As many arrivals as there are free slots are accepted, lowest slots first, idle and logged out |
| PassEffects.SweepExact | src/server/server.c:1362-1392 | Exactly the calls and transfers with a party not online are cleared |
| Histories.StoreIsRun | src/server/server.c:2177-2215 | Whatever is done at the server, its tables are those of a run of storage operations |
| Histories.HistoryOverRuns | src/storage/memory/storage_memory.c:694-747 | So paging through a pair's history is exact in every state of every server run |
| Histories.AnnouncedIsStored | src/server/server.c:1749-1797 | Over any run every announced file, and every transfer in progress, names a stored message of its sender and the delivery of that message to its receiver |
| Links.FlushSlot | src/server/server.c:2194-2198 | Flushing the connection leaves it idle, blocked with what was pending before, or closed |
| Links.ReadSlot | src/server/server.c:2199-2207 | Reading the connection gives one request from the next whole packet, nothing, or a closed connection, and touches nothing pending |
| Links.QueueSlot | src/server/server.c:626-648 | An open idle connection takes a packet exactly when it can be packed, and is busy from then on |
| Links.EventGives | src/server/server.c:2177-2215 | What any event logs for an open connection is carried by it, and a failed flush or read closes it with nothing logged for it |
| Links.StepOver | src/server/server.c:2190-2211 | After any event the connection is again open and busy exactly as the server's table says, has queued exactly what was logged for its slot, and has read exactly what was dispatched |
| Links.Live | src/server/server.c:2177-2215 | From its acceptance on, over any events and any network: the requests read are a prefix of the packets the peer queued, the peer receives a prefix of the packets logged for the slot, in order and byte for byte, and once drained all of them |
| Delivery.ChatIsOfferedIff | src/server/server.c:1581-1614 | A message that can be stored is stored; it is answered if and only if the sender's own send slot is free, and offered to its receiver if and only if, besides, the receiver is logged in on a connection with a free send slot; the status says which |
| Delivery.BusySenderIsCutOff | src/server/server.c:2190-2210 | A sender whose slot could not be flushed: its message is stored, nobody is answered or told, and its connection is closed |
| Delivery.FanOutStep | src/server/server.c:1691-1708 | One member's turn queues its offer, if there is one, and changes no other member's |
| Delivery.FanOutExact | src/server/server.c:1691-1708 | The log grows by exactly one notify, in member order, for each listed member other than the sender that can be told |
| Delivery.OfferedIff | src/server/server.c:1691-1708 | A user is offered a group message if and only if it is a listed member, not the sender, and on a connection with a free send slot; never twice |
| Delivery.GroupMessageIsOfferedIff | src/server/server.c:1658-1709 | A group message that can be stored is stored; if and only if the sender's slot is free it is answered, and then exactly those members are offered it |
| Delivery.CompletionIsToldIff | src/server/server.c:1844-1860 | Completing a fully relayed transfer always marks its record, and the receiver is told if and only if it is on a connection with a free send slot, whether or not the sender can be answered |
| Presence.CloseKeepsUp | src/server/server.c:1394-1410 | Closing a connection leaves no call and no transfer with a party offline, if there was none |
| Presence.KickSpares | src/server/server.c:1420-1427 | The kicks of a login clear no call and no transfer but those of the user who logs in |
| Presence.TurnKeepsBothOnlineIff | src/server/server.c:1412-1432 | If both parties of every active call and transfer are online before a turn, they are after it if and only if the turn does not log a connection in as another user while its old user is in a call or transfer that does not also involve the new one |
| Presence.SweepsIdleIff | src/server/server.c:1362-1392 | The two sweeps change nothing if and only if both parties of every active call and transfer are online |
| Presence.PassEndsUp | src/server/server.c:2177-2215 | Every pass ends with both parties of every active call and transfer online; after a state that keeps the invariant and has them online, its sweeps do nothing when no turn of it is such a login |
| Presence.PassBoundariesAreUp | src/server/server.c:2177-2215 | After any number of passes from the start the invariant holds and all parties are online, so the sweeps of the next pass change nothing unless one of its turns is such a login |
| Refusals.DispatchSucceedsIff | src/server/server.c:2039-2086 | A dispatch succeeds if and only if the requester's send slot is free, whoever must be told first can be told with a packet that fits, and a login does not hang up on itself; otherwise the status is BUFFER_TOO_SMALL |
| Refusals.AuthenticatedReady | src/server/server.c:1331-1360 | A login finds its own slot filled by a hang-up exactly when it kicks the other connection of the user who is in a call with the user it replaces |
| Refusals.TurnSurvivesIff | src/server/server.c:2205-2208 | A connection that was read is still open after its turn under exactly that condition: a busy peer costs the sender its connection |
| Refusals.UnannouncedStartRemains | src/server/server.c:1755-1796 | A start whose receiver is busy leaves message, delivery and file record in the store, its id spent and its slot empty |
| Scenarios.GreetingCanBeLost | src/server/server.c:1602-1612 | A run in which a message is stored and answered and its receiver is not told |
| Scenarios.GreetingCanCutOff | src/server/server.c:1590-1602 | A run in which a message is stored, a receiver that could be told is not, and the sender is disconnected |
| Scenarios.CallCanBeDeserted | src/server/server.c:1428-1431 | A run after which, before the sweeps, a call is active whose caller is not online |
| Scenarios.CallerCutsItselfOff | src/server/server.c:1331-1360 | A run in which a valid login ends with the connection that made it closed |
| Scenarios.InviterIsCutOff | src/server/server.c:1974-1993 | A run in which the peer of an invite is online but busy, and the inviter is disconnected |
| Scenarios.LongOfferIsCutOff | src/server/server.c:1110-1178 | A run in which an offer of 60000 characters with a candidate of 500 goes to a peer that can be told, does not fit the notify, and its sender is disconnected |
| Scenarios.AnnouncementCanBeLost | src/server/server.c:1691-1708 | A run in which a group message is stored and answered and its only other member, who is online, is never offered it |
| Arrivals.FileCanArrive | src/server/server.c:1731-1860 | For every file of 1 byte to 1 MiB a run from empty tables whose file packets are exactly what a receiver must be told, and whose record is completed |
| Arrivals.FileCanBeReported | apps/chat_cli/cli_support.cpp:677-747 | A receiver told of them, on a disk that does what it is asked, reports that file |
| Arrivals.CompletionCanBeLost | src/server/server.c:1836-1860 | For every such file a run in which the record is completed, the receiver is online and never told, and nobody who draws on the server's notifies reports the file |
| EndToEnd.PlaceInTrace | src/server/server.c:1733-1833 | A queued start opens its transfer's trace and a queued chunk stands right at its index |
| EndToEnd.ReceivedIsRelayed | apps/chat_cli/cli_support.cpp:677-747 | After any server run, what a receiver that saw any of the queued notifies, lost, repeated or reordered, has written for a file it reports is exactly what was relayed for that transfer |
| EndToEnd.ReceivedIsSent | apps/chat_cli/main.cpp:476-488 | If the starter of a transfer submits for it only the pieces of one file of the announced length, while everybody else does anything, a receiver that reports the transfer has written that file; what it reports is the beginning of it, and all of it if and only if the close lost nothing |
| EndToEnd.WellClosedIsSent | apps/chat_cli/main.cpp:476-488 | So on a disk that never fails at a close the reported file is the sent file |
| UserBlob.WriteUserRecord | src/server/server.c:977-1006 | Splices one record into the buffer, or reports that it does not fit, exactly when it does not, and changes nothing |
| UserBlob.WriteUserBlob | src/server/server.c:1008-1039 | The loop writes the records of the users online elsewhere and never runs out of buffer |
| UserBlob.BlobFits | src/server/server.c:1008-1039 | Each listed slot takes at most 77 bytes |
| UserBlob.RecordLayout | src/server/server.c:977-1006 | The offset of every part of a record |
| UserBlob.RecordAt | apps/chat_gui/gui_client.cpp:121-151 | The record at an offset, in terms of the integers read there |
| UserBlob.ReadRecord | apps/chat_gui/gui_client.cpp:121-151 | Returns the record at an offset and where the next one starts, or nothing exactly when it is cut short |
| UserBlob.ParseUserBlob | apps/chat_gui/gui_client.cpp:116-154 | The loop returns the users up to the end or up to the first record cut short, for every decoding of name bytes |
| UserBlob.ParsesExactlyWritten | apps/chat_gui/gui_client.cpp:116-154 | A blob parses to given records if and only if it is the concatenation of their written forms |
| UserBlob.OnlineListIsExact | src/server/server.c:1008-1039 | In every reachable state the list sent to a connection fits, and parses to exactly the users logged in on other connections, each once, under their full names |
| UserBlob.OnlineListIsShown | apps/chat_gui/gui_client.cpp:116-154 | However names are decoded, the client shows one online user for each user logged in on another connection, under the decoded bytes of its full name |

## Left out

- The field-by-field parsing of request bodies: a request is its parsed result, or the status with which parsing failed
- The text built from name, size and checksum that is stored with a file message: it is a parameter of the start request
- The fixed-width TLV wrappers for integers and strings, which only call the general writer
- Password hashing: the salt and the hash are parameters of register and login
- Sequence numbers, time stamps and session ids in response headers, and response texts
- Listing all users and reading one login record, which change nothing
- Wrap-around of 64-bit identifier counters
- Null pointers, allocation failures, initialisation errors and shutdown
- Sockets, listeners and the platform layer beyond accept, partial send and partial receive
- The database backend, whose meaning lies in SQL; the storage laws are stated for the memory backend
- The choice of an unused output file name
- The decoding of name bytes into text, which is a parameter of the user list's parser
- The listen loop's count of expected events and its timeouts
- The graphical client other than the parser of the user list, audio and signalling libraries
- Command-line options and console output
