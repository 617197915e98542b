/** A run from empty tables in which a call is made, accepted, negotiated and ended. */
module CallRun {
  import opened Wire
  import opened Server
  import opened ServerLaws
  import opened ServerSteps
  import opened Presence
  import opened Scenarios
  import C = CallEffects
  import T = ServerTheorems

  /** Both connections are flushed. */
  const FLUSH := [Turn(0, ClientIo(Sent, Nothing)), Turn(1, ClientIo(Sent, Nothing))]

  predicate BothThere(s: Server)
  {
    && s.clients[0].isOpen && s.clients[0].authenticated && s.clients[0].userId == 1
    && s.clients[1].isOpen && s.clients[1].authenticated && s.clients[1].userId == 2
  }

  predicate OnCall(s: Server, accepted: bool)
  {
    BothThere(s) && s.calls[0] == Call(true, 1, 1, 2, accepted, "audio")
  }

  lemma FlushedBoth(s: Server)
    requires Inv(s) && BothThere(s)
    ensures var t := Run(s, FLUSH);
      && Inv(t) && BothThere(t) && t.clients[0].pending.None? && t.clients[1].pending.None?
      && t.calls == s.calls && t.log == s.log && t.nextCall == s.nextCall && t.store == s.store
  {
    hide Inv, Run;
    RunKeeps(s, FLUSH);
    var a, b := Turn(0, ClientIo(Sent, Nothing)), Turn(1, ClientIo(Sent, Nothing));
    RunCons(s, a, [b]);
    T.RunOne(Step(s, a), b);
    assert [a] + [b] == FLUSH;
  }

  /** The turn of a connection that is already flushed and asks something that is answered. */
  lemma AskedTurn(s: Server, i: Slot, r: Request)
    requires s.clients[i].isOpen && s.clients[i].pending.None? && Dispatch(s, i, r).status == OK
    ensures Step(s, Asks(i, r)) == Dispatch(s, i, r).server
  {
    hide Dispatch, CloseClient;
    assert s.clients[i := s.clients[i].(pending := None)] == s.clients;
  }

  function Request1(op: CallOp, signal: Signal): Request { CallRequest(op, 1, 0, "", signal) }

  /** User 1, the caller, is on slot 0, and user 2 on slot 1. */
  datatype Saying = Saying(byCaller: bool, op: CallOp, signal: Signal)

  function SlotOf(x: Saying): Slot { if x.byCaller then 0 else 1 }

  /** A saying is relayed as it was said, and answered. */
  function HeardOne(x: Saying): seq<Entry>
  {
    var notify := CallNotify(x.op, 1, if x.byCaller then 1 else 2, if x.byCaller then 2 else 1, "audio", x.signal);
    var reply := Reply(CallGroup, OK, [1]);
    if x.byCaller then [Entry(1, 2, notify), Entry(0, 1, reply)] else [Entry(0, 1, notify), Entry(1, 2, reply)]
  }

  function EventsOfOne(x: Saying): seq<Event> { FLUSH + [Asks(SlotOf(x), Request1(x.op, x.signal))] }

  /** Only the callee accepts; every text that is needed is there and fits. */
  predicate CanSay(x: Saying)
  {
    && x.op != Invite && x.op != OtherCallOp && (x.op == Accept ==> !x.byCaller)
    && C.HasText(x.op, x.signal) && C.FieldsLength(C.ValueLengths(x.op, "audio", x.signal)) <= 60512
  }

  predicate GoesOn(x: Saying) { CanSay(x) && x.op != Reject && x.op != Hangup }

  /** One operation of the call, with both connections flushed before. */
  lemma OneRelay(s: Server, x: Saying, accepted: bool)
    requires Inv(s) && OnCall(s, accepted) && CanSay(x)
    ensures var t := Run(s, EventsOfOne(x));
      && Inv(t) && t.log == s.log + HeardOne(x)
      && (!GoesOn(x) ==> t.calls[0] == Call(false, 0, 0, 0, false, ""))
      && (GoesOn(x) ==> OnCall(t, accepted || x.op == Accept))
  {
    hide Inv, Run, C.FieldsLength, C.ValueLengths, Dispatch, Step;
    var i := SlotOf(x);
    var ask := Asks(i, Request1(x.op, x.signal));
    FlushedBoth(s);
    RunKeeps(s, FLUSH + [ask]);
    T.RunAppend(s, FLUSH, [ask]);
    var s1 := Run(s, FLUSH);
    T.RunOne(s1, ask);
    C.RelayExact(s1, i, x.op, 1, 0, "", x.signal, 0, 1 - i);
    AskedTurn(s1, i, Request1(x.op, x.signal));
  }

  // ----- a whole call -----

  function EventsOf(xs: seq<Saying>): seq<Event>
    decreases |xs|
  {
    if xs == [] then [] else EventsOfOne(xs[0]) + EventsOf(xs[1..])
  }

  function Heard(xs: seq<Saying>): seq<Entry>
    decreases |xs|
  {
    if xs == [] then [] else HeardOne(xs[0]) + Heard(xs[1..])
  }

  predicate IsAccepted(xs: seq<Saying>) { exists k :: 0 <= k < |xs| && xs[k].op == Accept }

  lemma {:induction false} AllHeard(s: Server, xs: seq<Saying>, accepted: bool)
    requires Inv(s) && OnCall(s, accepted) && forall k :: 0 <= k < |xs| ==> GoesOn(xs[k])
    ensures var t := Run(s, EventsOf(xs));
      Inv(t) && t.log == s.log + Heard(xs) && OnCall(t, accepted || IsAccepted(xs))
    decreases |xs|
  {
    hide Inv, Run, CanSay, OnCall, HeardOne, EventsOfOne;
    if xs == [] {
      RunNothing(s);
      assert s.log + [] == s.log;
    } else {
      var x, rest := xs[0], xs[1..];
      assert GoesOn(x);
      var s1 := Run(s, EventsOfOne(x));
      OneRelay(s, x, accepted);
      AllHeard(s1, rest, accepted || x.op == Accept);
      T.RunAppend(s, EventsOfOne(x), EventsOf(rest));
      Reassociate(s.log, HeardOne(x), Heard(rest));
      AcceptedCons(x, rest);
      assert xs == [x] + rest;
    }
  }

  lemma AcceptedCons(x: Saying, rest: seq<Saying>)
    ensures IsAccepted([x] + rest) <==> x.op == Accept || IsAccepted(rest)
  {
    var xs := [x] + rest;
    if x.op == Accept { assert xs[0].op == Accept; }
    if k :| 0 <= k < |rest| && rest[k].op == Accept { assert xs[k + 1].op == Accept; }
  }

  lemma RunNothing(s: Server)
    ensures Run(s, []) == s
  {
  }

  const CALLING := OPENING + (FLUSH + [Asks(0, INVITE)])

  lemma AfterCalling()
    ensures var before, t := T.After(OPENING), T.After(CALLING);
      && Inv(t) && OnCall(t, false)
      && t.log == before.log + [Entry(1, 2, CallNotify(Invite, 1, 1, 2, "audio", NO_SIGNAL)),
                                Entry(0, 1, Reply(CallGroup, OK, [1]))]
  {
    hide Inv, Run, Dispatch, Step;
    AfterOpening();
    T.AfterOk(OPENING);
    var s := T.After(OPENING);
    FlushedBoth(s);
    T.AfterOk(CALLING);
    T.RunAppend(START, OPENING, FLUSH + [Asks(0, INVITE)]);
    T.RunAppend(s, FLUSH, [Asks(0, INVITE)]);
    var s1 := Run(s, FLUSH);
    T.RunOne(s1, Asks(0, INVITE));
    NobodyEngaged(s1);
    C.InviteExact(s1, 0, 0, 2, "", NO_SIGNAL, 0, 1);
    AskedTurn(s1, 0, INVITE);
  }

  lemma NobodyEngaged(s: Server)
    requires s.calls == Slots(NO_CALL)
    ensures forall user: nat :: !C.IsEngaged(s, user)
  {
  }

  /** A call goes on: whatever the two parties then say to each other, in any order and as often as they like,
      each operation is relayed with its text as it was submitted and answered, and the call is the same call
      until one of them rejects or hangs up, which clears it. */
  lemma CallGoesOn(xs: seq<Saying>, last: Saying)
    requires forall k :: 0 <= k < |xs| ==> GoesOn(xs[k])
    requires CanSay(last) && !GoesOn(last)
    ensures var before, during, t := T.After(CALLING), T.After(CALLING + EventsOf(xs)),
                                     T.After(CALLING + EventsOf(xs) + EventsOfOne(last));
      && during.log == before.log + Heard(xs)
      && during.calls[0] == Call(true, 1, 1, 2, IsAccepted(xs), "audio")
      && t.log == during.log + HeardOne(last) && t.calls[0] == Call(false, 0, 0, 0, false, "")
  {
    hide Inv, Run, CanSay, HeardOne, EventsOfOne, EventsOf, Heard, IsAccepted;
    AfterCalling();
    T.RunAppend(START, CALLING, EventsOf(xs));
    AllHeard(T.After(CALLING), xs, false);
    var during := T.After(CALLING + EventsOf(xs));
    T.RunAppend(START, CALLING + EventsOf(xs), EventsOfOne(last));
    OneRelay(during, last, IsAccepted(xs));
  }

  /** In particular a call is made, accepted, negotiated with any texts of up to 60000 characters, and hung up. */
  lemma WholeCall(offer: string, answer: string, candidate: string)
    requires 1 <= |offer| <= 60000 && 1 <= |answer| <= 60000 && 1 <= |candidate| <= 60000
    ensures var a, b, c, d, e :=
              Saying(false, Accept, NO_SIGNAL), Saying(true, Offer, Signal(offer, "", "", None)),
              Saying(false, Answer, Signal(answer, "", "", None)), Saying(true, Ice, Signal("", candidate, "", None)),
              Saying(false, Hangup, NO_SIGNAL);
      var during := T.After(CALLING + EventsOf([a, b, c, d]));
      && during.calls[0] == Call(true, 1, 1, 2, true, "audio")
      && T.After(CALLING + EventsOf([a, b, c, d]) + EventsOfOne(e)).log
           == T.After(CALLING).log + Heard([a, b, c, d]) + HeardOne(e)
  {
    hide EventsOf, EventsOfOne, Heard, HeardOne, T.After, C.FieldsLength, C.ValueLengths;
    var a, b := Saying(false, Accept, NO_SIGNAL), Saying(true, Offer, Signal(offer, "", "", None));
    var c, d := Saying(false, Answer, Signal(answer, "", "", None)), Saying(true, Ice, Signal("", candidate, "", None));
    TextFits(Accept, NO_SIGNAL);
    TextFits(Offer, b.signal);
    TextFits(Answer, c.signal);
    TextFits(Ice, d.signal);
    TextFits(Hangup, NO_SIGNAL);
    assert GoesOn(a) && GoesOn(b) && GoesOn(c) && GoesOn(d);
    assert [a, b, c, d][0].op == Accept;
    CallGoesOn([a, b, c, d], Saying(false, Hangup, NO_SIGNAL));
  }

  lemma TextFits(op: CallOp, signal: Signal)
    requires |signal.sdp| + |signal.candidate| <= 60000 && (signal.sdp == "" || signal.candidate == "")
    requires signal.mid == "" && signal.mline == None
    ensures C.FieldsLength(C.ValueLengths(op, "audio", signal)) <= 60512
  {
    C.FitsMeans(op, 1, 1, 2, "audio", signal);
  }
}
