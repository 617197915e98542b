/** What a call request does to the server: what is queued for whom, and what becomes of the call. */
module CallEffects {
  import opened Wire
  import opened Server
  import opened ServerTraces
  import opened ServerLaws
  import opened ServerSteps
  import opened Delivery
  import opened Presence

  // ----- giving a packet to a connection -----

  /** Slot `j` holds the packet and the log says so. */
  function Given(s: Server, j: Slot, p: Packet): Server
  {
    s.(clients := s.clients[j := s.clients[j].(pending := Some(p))], log := s.log + [Entry(j, s.clients[j].userId, p)])
  }

  /** The reply if the requester's own slot is free, and otherwise a full slot. */
  function Answered(s: Server, i: Slot, p: Packet): Outcome
  {
    if s.clients[i].pending.None? then Outcome(Given(s, i, p), OK) else Outcome(s, BufferTooSmall)
  }

  lemma Replies(s: Server, i: Slot, p: Packet)
    requires s.clients[i].isOpen && !p.CallNotify?
    ensures Queue(s, i, p) == Answered(s, i, p)
  {
  }

  /** A packet that does not fit, or for a closed connection, is refused. */
  lemma Unqueued(s: Server, i: Slot, p: Packet)
    ensures !Fits(p) ==> Queue(s, i, p) == Outcome(s, BufferTooSmall)
    ensures Fits(p) && !s.clients[i].isOpen ==> Queue(s, i, p) == Outcome(s, InvalidArgument)
  {
  }

  function NameOf(op: CallOp): string
  {
    match op
    case Invite => "invite"
    case Accept => "accept"
    case Reject => "reject"
    case Hangup => "hangup"
    case Offer => "offer"
    case Answer => "answer"
    case Ice => "ice"
    case OtherCallOp => "......"
  }

  function Present(text: string, max: nat): seq<nat> { if |text| == 0 then [] else [Min(|text|, max)] }

  /** The lengths of the field values in a call notify: operation, call, peer, and what there is of the rest. */
  function ValueLengths(op: CallOp, media: string, signal: Signal): seq<nat>
  {
    [|NameOf(op)|, 8, 8] + Present(media, 16) + Present(signal.sdp, 60000) + Present(signal.candidate, 60000)
    + Present(signal.mid, 63) + (if signal.mline.Some? then [4] else [])
  }

  /** Every field costs four bytes and its value. */
  function FieldsLength(values: seq<nat>): nat
  {
    if values == [] then 0 else 4 + values[0] + FieldsLength(values[1..])
  }

  lemma {:induction false} FieldsAppend(a: seq<nat>, b: seq<nat>)
    ensures FieldsLength(a + b) == FieldsLength(a) + FieldsLength(b)
    decreases |a|
  {
    if a == [] {
      assert a + b == b;
    } else {
      FieldsAppend(a[1..], b);
      assert (a + b)[1..] == a[1..] + b;
    }
  }

  lemma OneField(n: nat)
    ensures FieldsLength([n]) == 4 + n && FieldsLength([]) == 0
  {
    assert [n][1..] == [];
  }

  lemma ThreeFields(a: nat, b: nat, c: nat)
    ensures FieldsLength([a, b, c]) == 12 + a + b + c
  {
    assert [a, b, c] == [a] + ([b] + [c]);
    FieldsAppend([a], [b] + [c]);
    FieldsAppend([b], [c]);
    OneField(a);
    OneField(b);
    OneField(c);
  }

  lemma PresentLength(text: string, max: nat)
    ensures FieldsLength(Present(text, max)) == TextField(text, max)
  {
    OneField(Min(|text|, max));
  }

  lemma NameLength(op: CallOp)
    ensures |NameOf(op)| == OpLength(op)
  {
  }

  /** A call notify fits exactly when its fields take at most 60512 bytes. */
  lemma FitsMeans(op: CallOp, callId: nat, from: nat, to: nat, media: string, signal: Signal)
    ensures Fits(CallNotify(op, callId, from, to, media, signal)) <==>
              FieldsLength(ValueLengths(op, media, signal)) <= 60512
  {
    hide FieldsLength, Present, TextField, NameOf, OpLength;
    var a, b, c := [|NameOf(op)|, 8, 8], Present(media, 16), Present(signal.sdp, 60000);
    var d, e := Present(signal.candidate, 60000), Present(signal.mid, 63);
    var f: seq<nat> := if signal.mline.Some? then [4] else [];
    FieldsAppend(a + b + c + d + e, f);
    FieldsAppend(a + b + c + d, e);
    FieldsAppend(a + b + c, d);
    FieldsAppend(a + b, c);
    FieldsAppend(a, b);
    ThreeFields(|NameOf(op)|, 8, 8);
    NameLength(op);
    OneField(4);
    PresentLength(media, 16);
    PresentLength(signal.sdp, 60000);
    PresentLength(signal.candidate, 60000);
    PresentLength(signal.mid, 63);
  }

  // ----- who a call request concerns -----

  /** User `user` is logged in on slot `j`, and on no other. */
  predicate IsAt(s: Server, user: nat, j: Slot) { IsUser(s.clients[j], user) }

  predicate IsAway(s: Server, user: nat) { forall j: Slot :: !IsUser(s.clients[j], user) }

  lemma PlaceOf(s: Server, user: nat, j: Slot)
    requires Inv(s)
    ensures IsAt(s, user, j) ==> FindUser(s.clients, user) == j
    ensures IsAway(s, user) <==> FindUser(s.clients, user) == MAX_CLIENTS
  {
    hide TablesOk;
    if IsAt(s, user, j) { ApartUsers(s.clients, s.nextSession, j); }
  }

  /** The active call with this id is in slot `k`. */
  predicate IsCallAt(s: Server, id: nat, k: Slot) { s.calls[k].active && s.calls[k].id == id }

  lemma CallIds(s: Server, a: Slot, b: Slot)
    requires Inv(s) && s.calls[a].active
    ensures s.calls[a].id != 0 && (a != b && s.calls[b].active ==> s.calls[a].id != s.calls[b].id)
  {
    hide ClientsOk, TransfersOk, LogOk, CallTracesOk;
    assert CallOk(s.calls[a], s.nextCall, CallTrace(s.log, s.calls[a].id));
    if a < b { assert Disjoint(s.calls[a], s.calls[b]); }
    if b < a { assert Disjoint(s.calls[b], s.calls[a]); }
  }

  lemma CallFound(s: Server, id: nat, k: Slot)
    requires Inv(s)
    ensures IsCallAt(s, id, k) ==> id != 0 && FindCall(s.calls, id) == k
    ensures (forall n: Slot :: !IsCallAt(s, id, n)) <==> FindCall(s.calls, id) == MAX_CLIENTS
  {
    hide Inv;
    var f := FindCall(s.calls, id);
    forall n: Slot | IsCallAt(s, id, n) ensures id != 0 {
      CallIds(s, n, n);
    }
    if f < MAX_CLIENTS {
      assert IsCallAt(s, id, f);
      CallIds(s, f, k);
    }
  }

  /** Who may ask: the callee to accept, either party for the rest. */
  predicate IsParty(c: Call, op: CallOp, user: nat)
  {
    if op == Accept then user == c.callee else user != 0 && (user == c.caller || user == c.callee)
  }

  predicate HasText(op: CallOp, signal: Signal)
  {
    (op == Offer || op == Answer ==> |signal.sdp| > 0) && (op == Ice ==> |signal.candidate| > 0)
  }

  function OtherParty(c: Call, user: nat): nat { if user == c.caller then c.callee else c.caller }

  /** A call ends with a reject or a hangup, an accept is noted in it, and it goes on as it is otherwise. */
  function CallAfter(c: Call, op: CallOp): Call
  {
    match op
    case Reject => Call(false, 0, 0, 0, false, "")
    case Hangup => Call(false, 0, 0, 0, false, "")
    case Accept => Call(true, c.id, c.caller, c.callee, true, c.media)
    case _ => c
  }

  // ----- operations on a call in progress -----

  /** A request that cannot be relayed is answered with the reason and changes nothing else. */
  lemma RelayRefused(s: Server, i: Slot, op: CallOp, callId: nat, peerId: nat, media: string, signal: Signal, k: Slot)
    requires Inv(s) && s.clients[i].isOpen && s.clients[i].authenticated && op != Invite
    ensures var out, user := Dispatch(s, i, CallRequest(op, callId, peerId, media, signal)), s.clients[i].userId;
      && ((forall n: Slot :: !IsCallAt(s, callId, n)) ==>
            out == Answered(s, i, Reply(CallGroup, NotFound, [callId])))
      && (IsCallAt(s, callId, k) ==>
            && (op == OtherCallOp ==> out == Answered(s, i, Reply(CallGroup, InvalidArgument, [callId])))
            && (op != OtherCallOp && !IsParty(s.calls[k], op, user) ==>
                  out == Answered(s, i, Reply(CallGroup, InvalidState, [callId])))
            && (op != OtherCallOp && IsParty(s.calls[k], op, user) && !HasText(op, signal) ==>
                  out == Answered(s, i, Reply(CallGroup, InvalidArgument, [callId]))))
  {
    hide Inv, Queue, Forward, Answered;
    CallFound(s, callId, k);
    forall status: Status, ids: seq<nat>
        ensures Queue(s, i, Reply(CallGroup, status, ids)) == Answered(s, i, Reply(CallGroup, status, ids)) {
      Replies(s, i, Reply(CallGroup, status, ids));
    }
    LoggedInIsUser(s, i);
  }

  /** When the other party is not online the call is over, and the requester is told so. */
  lemma RelayToNobody(s: Server, i: Slot, op: CallOp, callId: nat, peerId: nat, media: string, signal: Signal, k: Slot)
    requires Inv(s) && s.clients[i].isOpen && s.clients[i].authenticated && op != Invite && op != OtherCallOp
    requires var c, user := s.calls[k], s.clients[i].userId;
      IsCallAt(s, callId, k) && IsParty(c, op, user) && HasText(op, signal) && IsAway(s, OtherParty(c, user))
    ensures Dispatch(s, i, CallRequest(op, callId, peerId, media, signal))
         == Answered(s.(calls := s.calls[k := Call(false, 0, 0, 0, false, "")]), i,
             Reply(CallGroup, NotFound, [callId]))
  {
    hide Inv, Queue, FindUser, Answered;
    CallFound(s, callId, k);
    CallPartiesDiffer(s, k);
    PlaceOf(s, OtherParty(s.calls[k], s.clients[i].userId), 0);
    var ended := s.(calls := s.calls[k := NO_CALL]);
    Replies(ended, i, Reply(CallGroup, NotFound, [callId]));
    assert s.calls[k := s.calls[k].(accepted := true)][k := NO_CALL] == s.calls[k := NO_CALL];
  }

  /** When the other party's slot is busy, or the notify does not fit, nothing is relayed or answered; of an
      accept only the note in the call remains. */
  lemma RelayToBusy(s: Server, i: Slot, op: CallOp, callId: nat, peerId: nat, media: string, signal: Signal, k: Slot,
        j: Slot)
    requires Inv(s) && s.clients[i].isOpen && s.clients[i].authenticated && op != Invite && op != OtherCallOp
    requires var c, user := s.calls[k], s.clients[i].userId;
      && IsCallAt(s, callId, k) && IsParty(c, op, user) && HasText(op, signal) && IsAt(s, OtherParty(c, user), j)
      && (s.clients[j].pending.Some? || FieldsLength(ValueLengths(op, c.media, signal)) > 60512)
    ensures Dispatch(s, i, CallRequest(op, callId, peerId, media, signal))
         == Outcome(if op == Accept then s.(calls := s.calls[k := s.calls[k].(accepted := true)]) else s,
                    BufferTooSmall)
  {
    hide Inv, FindUser, FieldsLength, ValueLengths, Fits;
    var c, user := s.calls[k], s.clients[i].userId;
    CallFound(s, callId, k);
    CallPartiesDiffer(s, k);
    PlaceOf(s, OtherParty(c, user), j);
    FitsMeans(op, callId, user, OtherParty(c, user), c.media, signal);
  }

  /** The relay: when the other party's slot is free and the notify fits, the log grows by exactly the notify,
      with the signal as it was submitted, and, if the requester's slot is free, the reply. The call goes on or
      ends as its operation says, and nothing else changes. */
  lemma RelayExact(s: Server, i: Slot, op: CallOp, callId: nat, peerId: nat, media: string, signal: Signal, k: Slot,
        j: Slot)
    requires Inv(s) && s.clients[i].isOpen && s.clients[i].authenticated && op != Invite && op != OtherCallOp
    requires var c, user := s.calls[k], s.clients[i].userId;
      && IsCallAt(s, callId, k) && IsParty(c, op, user) && HasText(op, signal) && IsAt(s, OtherParty(c, user), j)
      && s.clients[j].pending.None? && FieldsLength(ValueLengths(op, c.media, signal)) <= 60512
    ensures var c, user := s.calls[k], s.clients[i].userId;
      var notify := CallNotify(op, callId, user, OtherParty(c, user), c.media, signal);
      var told := s.(clients := s.clients[j := s.clients[j].(pending := Some(notify))],
                     calls := s.calls[k := CallAfter(c, op)],
                     log := s.log + [Entry(j, OtherParty(c, user), notify)]);
      && i != j
      && Dispatch(s, i, CallRequest(op, callId, peerId, media, signal))
           == Answered(told, i, Reply(CallGroup, OK, [callId]))
  {
    hide Inv, FindUser, FieldsLength, ValueLengths, Fits, Answered, Forward, Queue, Dispatch;
    var c, user := s.calls[k], s.clients[i].userId;
    CallDispatched(s, i, op, callId, peerId, media, signal);
    CallFound(s, callId, k);
    CallPartiesDiffer(s, k);
    PlaceOf(s, OtherParty(c, user), j);
    FitsMeans(op, callId, user, OtherParty(c, user), c.media, signal);
    if op == Accept {
      ForwardTold(s.(calls := s.calls[k := c.(accepted := true)]), i, k, op, callId, signal, j);
    } else {
      ForwardTold(s, i, k, op, callId, signal, j);
    }
    assert s.calls[k := c] == s.calls;
    assert s.calls[k := c.(accepted := true)][k := c.(accepted := true)] == s.calls[k := c.(accepted := true)];
  }

  lemma CallDispatched(s: Server, i: Slot, op: CallOp, callId: nat, peerId: nat, media: string, signal: Signal)
    requires s.clients[i].authenticated
    ensures Dispatch(s, i, CallRequest(op, callId, peerId, media, signal))
         == HandleCall(s, i, op, callId, peerId, media, signal)
  {
    hide HandleCall;
  }

  lemma ForwardTold(s: Server, i: Slot, k: Slot, op: CallOp, callId: nat, signal: Signal, j: Slot)
    requires var c, user := s.calls[k], s.clients[i].userId;
      && c.active && c.id == callId && (user == c.caller || user == c.callee) && OtherParty(c, user) != 0
      && c.caller != c.callee && s.clients[i].isOpen && op != Invite && op != OtherCallOp
      && FindUser(s.clients, OtherParty(c, user)) == j && IsAt(s, OtherParty(c, user), j)
      && s.clients[j].pending.None? && Fits(CallNotify(op, callId, user, OtherParty(c, user), c.media, signal))
    ensures var c, user := s.calls[k], s.clients[i].userId;
      var notify := CallNotify(op, callId, user, OtherParty(c, user), c.media, signal);
      var after := if op == Reject || op == Hangup then NO_CALL else c;
      Forward(s, i, k, op, callId, signal)
        == Answered(s.(clients := s.clients[j := s.clients[j].(pending := Some(notify))], calls := s.calls[k := after],
                       log := s.log + [Entry(j, OtherParty(c, user), notify)]), i, Reply(CallGroup, OK, [callId]))
  {
    hide FindUser, Fits, Answered;
    var c, user := s.calls[k], s.clients[i].userId;
    var notify := CallNotify(op, callId, user, OtherParty(c, user), c.media, signal);
    var after := if op == Reject || op == Hangup then NO_CALL else c;
    assert s.calls[k := c] == s.calls;
    Replies(s.(clients := s.clients[j := s.clients[j].(pending := Some(notify))], calls := s.calls[k := after],
               log := s.log + [Entry(j, OtherParty(c, user), notify)]), i, Reply(CallGroup, OK, [callId]));
  }

  // ----- invites -----

  ghost predicate IsEngaged(s: Server, user: nat)
  {
    exists k: Slot :: s.calls[k].active && (s.calls[k].caller == user || s.calls[k].callee == user)
  }

  /** An invite that cannot be made is answered with the reason and changes nothing else. */
  lemma InviteRefused(s: Server, i: Slot, callId: nat, peerId: nat, media: string, signal: Signal)
    requires Inv(s) && s.clients[i].isOpen && s.clients[i].authenticated
    ensures var out, user := Dispatch(s, i, CallRequest(Invite, callId, peerId, media, signal)), s.clients[i].userId;
      var wrong, busy := peerId == 0 || peerId == user || media !in {"", "audio"},
                         IsEngaged(s, user) || IsEngaged(s, peerId);
      && (wrong ==> out == Answered(s, i, Reply(CallGroup, InvalidArgument, [])))
      && (!wrong && busy ==> out == Answered(s, i, Reply(CallGroup, InvalidState, [])))
      && (!wrong && !busy && IsAway(s, peerId) ==> out == Answered(s, i, Reply(CallGroup, NotFound, [])))
      && (!wrong && !busy && !IsAway(s, peerId) && (forall k: Slot :: s.calls[k].active) ==>
            out == Answered(s, i, Reply(CallGroup, BufferTooSmall, [])))
  {
    hide Inv, Queue, HasActiveCall, Answered, FindUser;
    LoggedInIsUser(s, i);
    EngagedMeans(s, s.clients[i].userId);
    EngagedMeans(s, peerId);
    PlaceOf(s, peerId, 0);
    FirstFreeCall(s, 0);
    forall status: Status
      ensures Queue(s, i, Reply(CallGroup, status, [])) == Answered(s, i, Reply(CallGroup, status, []))
    {
      Replies(s, i, Reply(CallGroup, status, []));
    }
  }

  lemma EngagedMeans(s: Server, user: nat)
    ensures user != 0 ==> (IsEngaged(s, user) <==> HasActiveCall(s.calls, user))
  {
    if user != 0 && HasActiveCall(s.calls, user) {
      var k :| 0 <= k < MAX_CLIENTS && s.calls[k].active && InCall(s.calls[k], user);
    }
    if user != 0 && IsEngaged(s, user) {
      var k: Slot :| s.calls[k].active && (s.calls[k].caller == user || s.calls[k].callee == user);
      assert InCall(s.calls[k], user);
    }
  }

  /** Slot `k` is the first without an active call. */
  predicate IsFirstFree(s: Server, k: Slot) { !s.calls[k].active && forall n :: 0 <= n < k ==> s.calls[n].active }

  lemma FirstFreeCall(s: Server, k: Slot)
    ensures IsFirstFree(s, k) ==> FindFreeCall(s.calls) == k
    ensures (forall n: Slot :: s.calls[n].active) <==> FindFreeCall(s.calls) == MAX_CLIENTS
  {
  }

  /** The request is an invite that can be made: to `peerId` on slot `j`, with the call in slot `k`. */
  ghost predicate CanInvite(s: Server, i: Slot, peerId: nat, media: string, k: Slot, j: Slot)
  {
    && s.clients[i].isOpen && s.clients[i].authenticated
    && peerId != 0 && peerId != s.clients[i].userId && media in {"", "audio"}
    && !IsEngaged(s, s.clients[i].userId) && !IsEngaged(s, peerId) && IsAt(s, peerId, j) && IsFirstFree(s, k)
  }

  lemma InviteFound(s: Server, i: Slot, peerId: nat, media: string, k: Slot, j: Slot)
    requires Inv(s) && CanInvite(s, i, peerId, media, k, j)
    ensures FindUser(s.clients, peerId) == j && FindFreeCall(s.calls) == k && i != j
    ensures !HasActiveCall(s.calls, s.clients[i].userId) && !HasActiveCall(s.calls, peerId)
    ensures Fits(CallNotify(Invite, s.nextCall, s.clients[i].userId, peerId, "audio", NO_SIGNAL))
  {
    hide Inv, HasActiveCall, FindUser, Fits, IsEngaged;
    LoggedInIsUser(s, i);
    EngagedMeans(s, s.clients[i].userId);
    EngagedMeans(s, peerId);
    PlaceOf(s, peerId, j);
    FirstFreeCall(s, k);
    InviteSize(s.nextCall, s.clients[i].userId, peerId);
  }

  /** An invite starts a new call, with the next id, in the first free slot; the callee is told, and then the
      caller answered if its own slot is free. */
  lemma InviteExact(s: Server, i: Slot, callId: nat, peerId: nat, media: string, signal: Signal, k: Slot, j: Slot)
    requires Inv(s) && CanInvite(s, i, peerId, media, k, j) && s.clients[j].pending.None?
    ensures var user := s.clients[i].userId;
      var notify := CallNotify(Invite, s.nextCall, user, peerId, "audio", Signal("", "", "", None));
      var told := s.(clients := s.clients[j := s.clients[j].(pending := Some(notify))],
                     calls := s.calls[k := Call(true, s.nextCall, user, peerId, false, "audio")],
                     nextCall := s.nextCall + 1, log := s.log + [Entry(j, peerId, notify)]);
      && i != j
      && Dispatch(s, i, CallRequest(Invite, callId, peerId, media, signal))
           == Answered(told, i, Reply(CallGroup, OK, [s.nextCall]))
  {
    hide Inv, HasActiveCall, Answered, FindUser, Fits, IsEngaged;
    var user := s.clients[i].userId;
    InviteFound(s, i, peerId, media, k, j);
    var notify := CallNotify(Invite, s.nextCall, user, peerId, "audio", NO_SIGNAL);
    var told := s.(clients := s.clients[j := s.clients[j].(pending := Some(notify))],
                   calls := s.calls[k := Call(true, s.nextCall, user, peerId, false, "audio")],
                   nextCall := s.nextCall + 1, log := s.log + [Entry(j, peerId, notify)]);
    Replies(told, i, Reply(CallGroup, OK, [s.nextCall]));
  }

  /** When the callee's slot is busy nobody is told or answered, no call is left, and its id is spent. */
  lemma InviteToBusy(s: Server, i: Slot, callId: nat, peerId: nat, media: string, signal: Signal, k: Slot, j: Slot)
    requires Inv(s) && CanInvite(s, i, peerId, media, k, j) && s.clients[j].pending.Some?
    ensures Dispatch(s, i, CallRequest(Invite, callId, peerId, media, signal))
         == Outcome(s.(calls := s.calls[k := Call(false, 0, 0, 0, false, "")], nextCall := s.nextCall + 1),
             BufferTooSmall)
  {
    hide Inv, HasActiveCall, FindUser, Fits, IsEngaged;
    InviteFound(s, i, peerId, media, k, j);
  }

  lemma InviteSize(id: nat, from: nat, to: nat)
    ensures Fits(CallNotify(Invite, id, from, to, "audio", NO_SIGNAL))
  {
  }
}
