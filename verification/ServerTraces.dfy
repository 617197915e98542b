/** What the log of queued packets says about one call and about one file transfer. */
module ServerTraces {
  import opened Wire
  import opened Server

  // ----- calls -----

  function CallTrace(log: seq<Entry>, id: nat): seq<Packet>
  {
    if log == [] then []
    else
      var p := log[|log| - 1].packet;
      CallTrace(log[..|log| - 1], id) + (if p.CallNotify? && p.callId == id then [p] else [])
  }

  lemma CallTraceSnoc(log: seq<Entry>, e: Entry, id: nat)
    ensures CallTrace(log + [e], id)
         == CallTrace(log, id) + (if e.packet.CallNotify? && e.packet.callId == id then [e.packet] else [])
  {
    assert (log + [e])[..|log|] == log;
  }

  predicate Terminal(p: Packet)
  {
    p.CallNotify? && (p.op == Reject || p.op == Hangup)
  }

  predicate Between(p: Packet, a: nat, b: nat)
  {
    p.CallNotify? && ((p.from == a && p.to == b) || (p.from == b && p.to == a))
  }

  /** An operation that may follow the invite of a call from `caller` to `callee`. */
  predicate Follows(p: Packet, caller: nat, callee: nat)
  {
    Between(p, caller, callee) && p.op != Invite && p.op != OtherCallOp && (p.op == Accept ==> p.from == callee)
  }

  /** invite (accept | offer | answer | ice)* (reject | hangup)?, all between the two parties of the
      invite, and accepted by the invited one only. */
  predicate CallLanguage(t: seq<Packet>)
  {
    && (|t| > 0 ==> t[0].CallNotify? && t[0].op == Invite && t[0].from != t[0].to)
    && (forall k :: 1 <= k < |t| ==> Follows(t[k], t[0].from, t[0].to))
    && (forall k :: 0 <= k < |t| - 1 ==> !Terminal(t[k]))
  }

  lemma CallLanguageExtends(t: seq<Packet>, p: Packet)
    requires CallLanguage(t) && t != [] && !Terminal(t[|t| - 1]) && Follows(p, t[0].from, t[0].to)
    ensures CallLanguage(t + [p])
  {
  }

  // ----- file transfers -----

  predicate IsFilePacket(p: Packet)
  {
    p.FileStart? || p.FileChunk? || p.FileComplete?
  }

  function FileTrace(log: seq<Entry>, id: nat): seq<Packet>
  {
    if log == [] then []
    else
      var p := log[|log| - 1].packet;
      FileTrace(log[..|log| - 1], id) + (if IsFilePacket(p) && p.transferId == id then [p] else [])
  }

  lemma FileTraceSnoc(log: seq<Entry>, e: Entry, id: nat)
    ensures FileTrace(log + [e], id)
         == FileTrace(log, id) + (if IsFilePacket(e.packet) && e.packet.transferId == id then [e.packet] else [])
  {
    assert (log + [e])[..|log|] == log;
  }

  /** The chunk data of a trace, in order. */
  function Relayed(t: seq<Packet>): seq<byte>
  {
    if t == [] then []
    else
      var p := t[|t| - 1];
      Relayed(t[..|t| - 1]) + (if p.FileChunk? then p.data else [])
  }

  lemma RelayedSnoc(t: seq<Packet>, p: Packet)
    ensures Relayed(t + [p]) == Relayed(t) + (if p.FileChunk? then p.data else [])
  {
    assert (t + [p])[..|t|] == t;
  }

  predicate IsChunk(p: Packet, index: nat, start: Packet)
    requires start.FileStart?
  {
    p.FileChunk? && p.index == index && 1 <= |p.data| <= FILE_CHUNK_SIZE && p.from == start.from && p.to == start.to
  }

  predicate IsComplete(t: seq<Packet>, k: nat)
    requires k < |t| && t[0].FileStart?
  {
    t[k].FileComplete? && t[k].from == t[0].from && t[k].to == t[0].to && k == |t| - 1 && |Relayed(t)| == t[0].fileSize
  }

  /** start, then chunks numbered 0, 1, 2, ... that never exceed the announced size, then possibly a
      completion, which comes only when the announced size has been relayed. */
  predicate FileLanguage(t: seq<Packet>)
  {
    |t| > 0 ==>
      && t[0].FileStart? && t[0].from != t[0].to && 1 <= t[0].fileSize <= MAX_FILE_SIZE
      && |Relayed(t)| <= t[0].fileSize
      && forall k :: 1 <= k < |t| ==> IsChunk(t[k], k - 1, t[0]) || IsComplete(t, k)
  }

  predicate IsCompleted(t: seq<Packet>)
  {
    |t| > 0 && t[|t| - 1].FileComplete?
  }

  lemma ChunkExtends(t: seq<Packet>, p: Packet)
    requires FileLanguage(t) && t != [] && !IsCompleted(t) && IsChunk(p, |t| - 1, t[0])
    requires |Relayed(t)| + |p.data| <= t[0].fileSize
    ensures FileLanguage(t + [p]) && !IsCompleted(t + [p]) && |Relayed(t + [p])| == |Relayed(t)| + |p.data|
  {
    RelayedSnoc(t, p);
  }

  lemma CompleteExtends(t: seq<Packet>, p: Packet)
    requires FileLanguage(t) && t != [] && !IsCompleted(t) && |Relayed(t)| == t[0].fileSize
    requires p.FileComplete? && p.from == t[0].from && p.to == t[0].to
    ensures FileLanguage(t + [p]) && |Relayed(t + [p])| == t[0].fileSize
  {
    RelayedSnoc(t, p);
  }

  /** Only the last packet of a trace can be its completion. */
  lemma InnerIsChunk(t: seq<Packet>, k: nat)
    requires FileLanguage(t) && 1 <= k < |t| && (k < |t| - 1 || !IsCompleted(t))
    ensures IsChunk(t[k], k - 1, t[0])
  {
  }

  /** The ledger: n chunks carry between n and 32768 n bytes. */
  lemma {:induction false} LedgerBounds(t: seq<Packet>)
    requires FileLanguage(t) && t != [] && !IsCompleted(t)
    ensures |t| - 1 <= |Relayed(t)| <= Min(t[0].fileSize, FILE_CHUNK_SIZE * (|t| - 1))
    decreases |t|
  {
    var n := |t| - 1;
    if n == 0 {
      assert t[..0] == [];
    } else {
      var init := t[..n];
      assert IsChunk(t[n], n - 1, t[0]);
      forall k | 1 <= k < n ensures IsChunk(init[k], k - 1, init[0]) {
        InnerIsChunk(t, k);
      }
      assert n > 1 ==> IsChunk(init[n - 1], n - 2, init[0]);
      LedgerBounds(init);
    }
  }
}
