/**
 * The server as its clients see it: which bytes count as received, which message each response frame
 * answers and what the frame says; and the gateway object's drain held to the two-thread machine.
 */
module ClientView {
  import opened LittleEndian
  import opened Codec
  import opened Frames
  import opened Framing
  import opened Subsequences
  import opened Gateway
  import opened Protocol
  import opened Accounting

  // ------------------------------ the drain of the object is that of the machine ------------------------------

  /**
   * Whatever the gateway object does with a response (Gateway.Handled), the machine does with it: the
   * same table after it, one delivery for a send, the same closing command offered.
   */
  lemma SendIsHandled(s: State, sendOk: bool, e: F.Event<EngineCommand>, q: F.Fifo<EngineCommand>, t: Table,
                      effects: seq<Effect>)
    requires Basic(s) && Enabled(s, Send(sendOk, e, q)) && |t.slots| == MAX_SLOTS
    requires Handled(s.table, s.gpc.response, sendOk, t, effects)
    ensures var s' := Apply(s, Send(sendOk, e, q));
      && s'.table == t && |effects| <= 1
      && (effects != [] && effects[0].Sent? ==>
            effects[0].fd in s.serials
            && s'.delivered == s.delivered + [Delivery(s.serials[effects[0].fd], effects[0].response)])
      && (effects == [] || effects[0].Pushed? ==> s'.delivered == s.delivered)
      && (effects != [] && effects[0].Pushed? <==> !e.Silent?)
      && (effects != [] && effects[0].Pushed? ==> Offers(e, effects[0].command))
  {
    RoutingIsSafe(s.table, s.gpc.response);
  }

  // ------------------------------ the bytes of a connection ------------------------------

  /** The bytes that step `l` reads from the k-th connection. */
  function BytesIn(s: State, l: Label, k: nat): seq<Byte> {
    if l.Receive? && l.fd in s.serials && s.serials[l.fd] == k then l.bytes else []
  }

  /** All bytes read from it in the first n steps, except those that overflowed its buffer. */
  function ReceivedBytes(ss: seq<State>, ls: seq<Label>, n: nat, k: nat): seq<Byte>
    requires n <= |ls| <= |ss|
  {
    if n == 0 then [] else ReceivedBytes(ss, ls, n - 1, k) + BytesIn(ss[n - 1], ls[n - 1], k)
  }

  function BytesLogged(s: State, k: nat): seq<Byte> {
    if k < |s.sessions| then s.sessions[k].bytes else []
  }

  ghost predicate StepLogs(s: State, l: Label, s': State, k: nat) {
    BytesLogged(s', k) == BytesLogged(s, k) + BytesIn(s, l, k)
  }

  lemma ReceiveLogsBytes(s: State, fd: int, bytes: seq<Byte>, k: nat)
    requires Basic(s) && Enabled(s, Receive(fd, bytes))
    ensures StepLogs(s, Receive(fd, bytes), Apply(s, Receive(fd, bytes)), k)
  {
  }

  lemma ParseLogsNone(s: State, e: F.Event<EngineCommand>, q: F.Fifo<EngineCommand>, k: nat)
    requires Basic(s) && Enabled(s, ParseRound(e, q))
    ensures StepLogs(s, ParseRound(e, q), Apply(s, ParseRound(e, q)), k)
  {
    ParseGrows(s, e, q);
  }

  lemma AcceptLogsNone(s: State, fd: int, k: nat)
    requires Basic(s) && Enabled(s, Accept(fd))
    ensures StepLogs(s, Accept(fd), Apply(s, Accept(fd)), k)
  {
  }

  lemma FollowsLogs(s: State, l: Label, s': State, k: nat)
    requires Follows(s, l, s')
    ensures StepLogs(s, l, s', k)
  {
    if l.Receive? {
      ReceiveLogsBytes(s, l.fd, l.bytes, k);
    } else if l.ParseRound? {
      ParseLogsNone(s, l.ce, l.cq, k);
    } else if l.Accept? {
      AcceptLogsNone(s, l.fd, k);
    } else {
      LogsGrow(s, l);
    }
  }

  lemma {:induction false} LoggedAlong(ss: seq<State>, ls: seq<Label>, n: nat, k: nat)
    requires n <= |ls| < |ss| && BytesLogged(ss[0], k) == []
    requires forall i :: 0 <= i < n ==> StepLogs(ss[i], ls[i], ss[i + 1], k)
    ensures BytesLogged(ss[n], k) == ReceivedBytes(ss, ls, n, k)
  {
    if n > 0 {
      var s, l, s' := ss[n - 1], ls[n - 1], ss[n];
      LoggedAlong(ss, ls, n - 1, k);
      assert StepLogs(ss[n - 1], ls[n - 1], ss[n - 1 + 1], k);
      assert BytesLogged(s', k) == BytesLogged(s, k) + BytesIn(s, l, k);
    }
  }

  /** The bytes a connection's messages are cut from are those read from it, all of them and in order. */
  lemma BytesAreReceived(ss: seq<State>, ls: seq<Label>, n: nat, k: nat)
    requires Run(ss, ls) && n <= |ls| && k < |ss[n].sessions|
    ensures ss[n].sessions[k].bytes == ReceivedBytes(ss, ls, n, k)
  {
    forall i | 0 <= i < n
      ensures StepLogs(ss[i], ls[i], ss[i + 1], k)
    {
      FollowsLogs(ss[i], ls[i], ss[i + 1], k);
    }
    LoggedAlong(ss, ls, n, k);
  }

  // ------------------------------ which message a response answers ------------------------------

  /** The frame that encode_response writes for it. */
  function FrameFor(rsp: EngineResponse): (frame: seq<Byte>)
    ensures |frame| == 64
  {
    Encoded(RESPONSE_HEADER, ResponseMessage(rsp), Blank())
  }

  /** The frame accepts the NewOrder `m`, or says that the CancelOrder or ModifyOrder `m` was carried out. */
  predicate AnswersMessage(frame: seq<Byte>, m: DecodedMessage) {
    && |frame| == 64
    && LoadU32(frame, 0) == 0x6c6c7467 && LoadU16(frame, 4) == 1 && LoadU16(frame, 8) == 32
    && LoadU64(frame, 12) == 0 && LoadU64(frame, 20) == 0
    && LoadU64(frame, 40) == 0 && LoadU64(frame, 48) == 0 && LoadU64(frame, 56) == 0
    && ((m.kind == 1 && LoadU16(frame, 6) == 101 && LoadU64(frame, 32) == m.newOrder.clientOrderId)
        || (m.kind == 2 && LoadU16(frame, 6) == 103 && LoadU64(frame, 32) == m.cancelOrder.clientOrderId)
        || (m.kind == 3 && LoadU16(frame, 6) == 104 && LoadU64(frame, 32) == m.modifyOrder.clientOrderId))
  }

  /** What the engine answers to a message of the session, if it is an order. */
  function AnswerTo(token: SessionToken): DecodedMessage -> Option<EngineResponse> {
    (m: DecodedMessage) => if IsOrderKind(m.kind) then Stub(CommandOf(token, m)) else None
  }

  lemma AnswerIs(token: SessionToken, m: DecodedMessage, rsp: EngineResponse)
    requires AnswerTo(token)(m) == Some(rsp)
    ensures 1 <= m.kind <= 3
    ensures m.kind == 1 ==> ResponseMessage(rsp) == Accepted(m.newOrder.clientOrderId, 0, 0, 0)
    ensures m.kind == 2 ==> ResponseMessage(rsp) == Cancelled(m.cancelOrder.clientOrderId, 0, 0, 0)
    ensures m.kind == 3 ==> ResponseMessage(rsp) == Modified(m.modifyOrder.clientOrderId, 0, 0, 0)
  {
  }

  lemma PlainFrame(c: U64, message: Message)
    requires message == Accepted(c, 0, 0, 0) || message == Cancelled(c, 0, 0, 0) || message == Modified(c, 0, 0, 0)
    ensures var frame := Encoded(RESPONSE_HEADER, message, Blank());
      && LoadU32(frame, 0) == 0x6c6c7467 && LoadU16(frame, 4) == 1 && LoadU16(frame, 8) == 32
      && LoadU16(frame, 6) == (if message.Accepted? then 101 else if message.Cancelled? then 103 else 104)
      && LoadU64(frame, 12) == 0 && LoadU64(frame, 20) == 0 && LoadU64(frame, 32) == c
      && LoadU64(frame, 40) == 0 && LoadU64(frame, 48) == 0 && LoadU64(frame, 56) == 0
  {
    Wire.EncodedSays(RESPONSE_HEADER, message, Blank());
  }

  lemma AnswerSays(token: SessionToken, m: DecodedMessage, rsp: EngineResponse)
    requires AnswerTo(token)(m) == Some(rsp)
    ensures AnswersMessage(FrameFor(rsp), m)
  {
    AnswerIs(token, m, rsp);
    PlainFrame(ResponseMessage(rsp).clientOrderId, ResponseMessage(rsp));
  }

  lemma OrdersAnswer(token: SessionToken, m: DecodedMessage)
    ensures AnswerTo(token)(m).Some? <==> 1 <= m.kind <= 3
  {
  }

  lemma {:induction false} AnswersOfOrders(token: SessionToken, ms: seq<DecodedMessage>)
    ensures Collect(Stub, Collect(OrderOf(token), ms)) == Collect(AnswerTo(token), ms)
  {
    if ms != [] {
      var init, m := ms[..|ms| - 1], ms[|ms| - 1];
      AnswersOfOrders(token, init);
      if IsOrderKind(m.kind) {
        CollectSnoc(Stub, Collect(OrderOf(token), init), CommandOf(token, m));
      }
    }
  }

  /** The j-th response is the answer to the message at place ix[j]; places go from left to right. */
  ghost predicate AnswerInTurn(rsps: seq<EngineResponse>, ms: seq<DecodedMessage>, ix: seq<nat>) {
    && |ix| == |rsps| && Increasing(ix, |ms|)
    && forall j :: 0 <= j < |rsps| ==> AnswersMessage(FrameFor(rsps[j]), ms[ix[j]])
  }

  lemma InTurn(token: SessionToken, rsps: seq<EngineResponse>, ms: seq<DecodedMessage>, ix: seq<nat>)
    requires YieldedAt(AnswerTo(token), rsps, ms, ix)
    ensures AnswerInTurn(rsps, ms, ix)
  {
    forall j | 0 <= j < |rsps|
      ensures AnswersMessage(FrameFor(rsps[j]), ms[ix[j]])
    {
      AnswerSays(token, ms[ix[j]], rsps[j]);
    }
  }

  /**
   * What a client sees, in any reachable state: each frame sent to it answers one of its in-sequence
   * orders, a later frame a later order; NewOrder gets type 101, CancelOrder 103, ModifyOrder 104, with
   * the order's own client id.
   */
  lemma ClientSees(s: State, k: nat)
    requires Inv(s) && |s.sessions| <= DISTINCT_TOKENS && k < |s.sessions|
    ensures exists ix :: AnswerInTurn(DeliveredTo(s, k), Session.Kept(0, s.sessions[k].messages), ix)
  {
    var token, kept := s.sessions[k].token, Session.Kept(0, s.sessions[k].messages);
    ResponsesReachTheirSession(s, k);
    AnswersOfOrders(token, kept);
    var ix := Places(AnswerTo(token), DeliveredTo(s, k), kept);
    InTurn(token, DeliveredTo(s, k), kept, ix);
  }

  /** Each order among the messages is at one of the places. */
  ghost predicate OrdersAt(ms: seq<DecodedMessage>, ix: seq<nat>) {
    forall p :: 0 <= p < |ms| && 1 <= ms[p].kind <= 3 ==> p in ix
  }

  lemma AllInTurn(token: SessionToken, ms: seq<DecodedMessage>)
    ensures exists ix :: AnswerInTurn(Collect(AnswerTo(token), ms), ms, ix) && OrdersAt(ms, ix)
  {
    var ix := AllPlaces(AnswerTo(token), ms);
    InTurn(token, Collect(AnswerTo(token), ms), ms, ix);
    forall p | 0 <= p < |ms| && 1 <= ms[p].kind <= 3
      ensures p in ix
    {
      OrdersAnswer(token, ms[p]);
    }
    assert OrdersAt(ms, ix);
  }

  lemma SeesAll(rsps: seq<EngineResponse>, log: SessionLog)
    requires rsps == Collect(Stub, CommandsFor(log))
    ensures exists ix ::
              AnswerInTurn(rsps, Session.Kept(0, log.messages), ix) && OrdersAt(Session.Kept(0, log.messages), ix)
  {
    AnswersOfOrders(log.token, Session.Kept(0, log.messages));
    AllInTurn(log.token, Session.Kept(0, log.messages));
  }

  /** And at rest, if no step lost an order of it, every one of them is answered. */
  lemma ClientSeesAll(ss: seq<State>, ls: seq<Label>, n: nat, k: nat)
    requires Run(ss, ls) && n <= |ls| && |ss[n].sessions| <= DISTINCT_TOKENS && k < |ss[n].sessions|
    requires Inv(ss[n]) && AtRest(ss[n], k) && LosesNone(ss, ls, n, k)
    ensures var kept := Session.Kept(0, ss[n].sessions[k].messages);
      exists ix :: AnswerInTurn(DeliveredTo(ss[n], k), kept, ix) && OrdersAt(kept, ix)
  {
    AtRestAllAnswered(ss, ls, n, k);
    SeesAll(DeliveredTo(ss[n], k), ss[n].sessions[k]);
  }
}
