/** The gateway thread's own data and the stub engine: engine_messages.hpp and epoll_server.cpp. */
module Gateway {
  import opened Bits
  import opened LittleEndian
  import opened Codec
  import opened Framing
  import opened Frames
  import opened Subsequences
  import BoundedFifo
  import Session
  import SpscRing
  import Wire

  // ------------------------------ messages between the threads ------------------------------

  datatype SessionToken = SessionToken(slot: U32, generation: U32)

  datatype CommandKind = NewLimit | Cancel | Modify | SessionClosed | Shutdown

  datatype EngineCommand = EngineCommand(
    requestSequence: U64, clientOrderId: U64, price: U64, quantity: U64, side: U64,
    session: SessionToken, kind: CommandKind)

  /** `EngineCommand cmd{};` */
  const FRESH_COMMAND := EngineCommand(0, 0, 0, 0, 1, SessionToken(0, 0), NewLimit)

  datatype ResponseKind = OrderAccepted | OrderRejected | OrderCancelled | OrderModified | OrderTrade

  datatype EngineResponse = EngineResponse(
    clientOrderId: U64, price: U64, quantity: U64, rejectReason: U64,
    session: SessionToken, kind: ResponseKind)

  predicate IsOrder(cmd: EngineCommand) {
    cmd.kind == NewLimit || cmd.kind == Cancel || cmd.kind == Modify
  }

  /** The stub engine: its response to a command, if it answers at all. */
  function Stub(cmd: EngineCommand): Option<EngineResponse> {
    var rsp := EngineResponse(cmd.clientOrderId, 0, 0, 0, cmd.session, OrderRejected);
    match cmd.kind
    case NewLimit => Some(rsp.(kind := OrderAccepted))
    case Cancel => Some(rsp.(kind := OrderCancelled))
    case Modify => Some(rsp.(kind := OrderModified))
    case SessionClosed => None
    case Shutdown => None
  }

  type CommandQueue = SpscRing.SpscRingBufferAtomicV3<EngineCommand>
  type ResponseQueue = SpscRing.SpscRingBufferAtomicV3<EngineResponse>

  /** A queue of this limit after pushes of `xs` with no pop between: what does not fit is lost. */
  function Clipped<T>(limit: nat, q: seq<T>, xs: seq<T>): seq<T>
    requires |q| <= limit
  {
    if |q| + |xs| <= limit then q + xs else q + xs[..limit - |q|]
  }

  lemma ClippedSnoc<T>(limit: nat, q: seq<T>, xs: seq<T>, x: T)
    requires |q| <= limit
    ensures Clipped(limit, q, xs + [x]) == BoundedFifo.After(limit, Clipped(limit, q, xs), BoundedFifo.Push(x))
  {
    if |q| + |xs| < limit {
      assert q + (xs + [x]) == q + xs + [x];
    } else {
      assert (xs + [x])[..limit - |q|] == xs[..limit - |q|];
      assert xs[..limit - |q|] == if |q| + |xs| == limit then xs else xs[..limit - |q|];
    }
  }

  /** What the engine makes of one command. */
  predicate Answers(cmd: EngineCommand, answer: Option<EngineResponse>) {
    && (cmd.kind == NewLimit ==> answer == Some(EngineResponse(cmd.clientOrderId, 0, 0, 0, cmd.session, OrderAccepted)))
    && (cmd.kind == Cancel ==> answer == Some(EngineResponse(cmd.clientOrderId, 0, 0, 0, cmd.session, OrderCancelled)))
    && (cmd.kind == Modify ==> answer == Some(EngineResponse(cmd.clientOrderId, 0, 0, 0, cmd.session, OrderModified)))
    && (cmd.kind == SessionClosed || cmd.kind == Shutdown ==> answer == None)
  }

  /**
   * After the commands answered so far, none of them a Shutdown: the commands left, the responses
   * queued, the eventfd writes.
   */
  ghost predicate Served(commands: seq<EngineCommand>, limit: nat, before: seq<EngineResponse>,
                         answers: seq<Option<EngineResponse>>,
                         left: seq<EngineCommand>, responses: seq<EngineResponse>, writes: nat)
    requires |before| <= limit
  {
    && |answers| <= |commands| && left == commands[|answers|..]
    && (forall i :: 0 <= i < |answers| ==> commands[i].kind != Shutdown && Answers(commands[i], answers[i]))
    && responses == Clipped(limit, before, Somes(answers))
    && writes == |Somes(answers)|
  }

  lemma ServeOne(commands: seq<EngineCommand>, limit: nat, before: seq<EngineResponse>,
                 answers: seq<Option<EngineResponse>>, answer: Option<EngineResponse>,
                 left: seq<EngineCommand>, responses: seq<EngineResponse>, writes: nat, responses': seq<EngineResponse>)
    requires |before| <= limit && Served(commands, limit, before, answers, left, responses, writes)
    requires left != [] && left[0].kind != Shutdown && Answers(left[0], answer)
    requires responses' == if answer.Some? then BoundedFifo.After(limit, responses, BoundedFifo.Push(answer.value))
                           else responses
    ensures Served(commands, limit, before, answers + [answer], left[1..], responses',
                   if answer.Some? then writes + 1 else writes)
  {
    SomesSnoc(answers, answer);
    if answer.Some? {
      ClippedSnoc(limit, before, Somes(answers), answer.value);
    }
  }

  /** Answers one command, if it has an answer. */
  method Respond(cmd: EngineCommand, rspQueue: ResponseQueue) returns (answer: Option<EngineResponse>)
    requires rspQueue.Valid()
    modifies rspQueue, rspQueue.buffer
    ensures rspQueue.Valid()
    ensures answer == Stub(cmd) && Answers(cmd, answer)
    ensures rspQueue.contents
         == if answer.Some?
            then BoundedFifo.After(rspQueue.capacity - 1, old(rspQueue.contents), BoundedFifo.Push(answer.value))
            else old(rspQueue.contents)
  {
    var rsp := EngineResponse(cmd.clientOrderId, 0, 0, 0, cmd.session, OrderRejected);
    match cmd.kind {
      case NewLimit => rsp := rsp.(kind := OrderAccepted);
      case Cancel => rsp := rsp.(kind := OrderCancelled);
      case Modify => rsp := rsp.(kind := OrderModified);
      case _ => return None;
    }
    var _ := rspQueue.Push(rsp);
    return Some(rsp);
  }

  /** One turn of the loop: a command is popped and, unless it is a Shutdown, answered. */
  method Turn(cmdQueue: CommandQueue, rspQueue: ResponseQueue)
    returns (ok: bool, cmd: EngineCommand, answer: Option<EngineResponse>)
    requires cmdQueue.Valid() && rspQueue.Valid()
    modifies cmdQueue, cmdQueue.buffer, rspQueue, rspQueue.buffer
    ensures cmdQueue.Valid() && rspQueue.Valid()
    ensures ok <==> old(cmdQueue.contents) != []
    ensures ok ==> cmd == old(cmdQueue.contents)[0] && Answers(cmd, answer)
    ensures cmdQueue.contents == if ok then old(cmdQueue.contents)[1..] else []
    ensures rspQueue.contents
         == if ok && answer.Some?
            then BoundedFifo.After(rspQueue.capacity - 1, old(rspQueue.contents), BoundedFifo.Push(answer.value))
            else old(rspQueue.contents)
  {
    ok, cmd := cmdQueue.Pop(FRESH_COMMAND);
    answer := None;
    if ok && cmd.kind != Shutdown {
      answer := Respond(cmd, rspQueue);
    }
  }

  /**
   * matching_thread until it stops at a Shutdown, or its pop fails for want of commands. The commands
   * before the first Shutdown are answered, in order, as far as the response queue has room; the
   * eventfd is written once for each answer, lost or not.
   */
  method MatchingThread(cmdQueue: CommandQueue, rspQueue: ResponseQueue)
    returns (writes: nat, halted: bool, ghost answers: seq<Option<EngineResponse>>)
    requires cmdQueue.Valid() && rspQueue.Valid()
    modifies cmdQueue, cmdQueue.buffer, rspQueue, rspQueue.buffer
    ensures cmdQueue.Valid() && rspQueue.Valid()
    ensures var commands, n := old(cmdQueue.contents), |answers|;
      && n <= |commands|
      && (forall i :: 0 <= i < n ==> commands[i].kind != Shutdown)
      && halted == (n < |commands|) && (halted ==> commands[n].kind == Shutdown)
      && cmdQueue.contents == commands[if halted then n + 1 else n..]
      && (forall i :: 0 <= i < n ==>
            var c := commands[i];
            && (c.kind == NewLimit ==>
                  answers[i] == Some(EngineResponse(c.clientOrderId, 0, 0, 0, c.session, OrderAccepted)))
            && (c.kind == Cancel ==>
                  answers[i] == Some(EngineResponse(c.clientOrderId, 0, 0, 0, c.session, OrderCancelled)))
            && (c.kind == Modify ==>
                  answers[i] == Some(EngineResponse(c.clientOrderId, 0, 0, 0, c.session, OrderModified)))
            && (c.kind == SessionClosed ==> answers[i] == None))
    ensures rspQueue.contents == Clipped(rspQueue.capacity - 1, old(rspQueue.contents), Somes(answers))
    ensures writes == |Somes(answers)|
  {
    ghost var commands, before, limit := cmdQueue.contents, rspQueue.contents, rspQueue.capacity - 1;
    writes, answers := 0, [];
    while true
      invariant cmdQueue.Valid() && rspQueue.Valid()
      invariant Served(commands, limit, before, answers, cmdQueue.contents, rspQueue.contents, writes)
      decreases |commands| - |answers|
    {
      ghost var left, responses := cmdQueue.contents, rspQueue.contents;
      var ok, cmd, answer := Turn(cmdQueue, rspQueue);
      if !ok {
        return writes, false, answers;
      }
      if cmd.kind == Shutdown {
        return writes, true, answers;
      }
      ServeOne(commands, limit, before, answers, answer, left, responses, writes, rspQueue.contents);
      answers := answers + [answer];
      writes := if answer.Some? then writes + 1 else writes;
    }
  }

  /** The frame a response travels in. */
  function ResponseMessage(rsp: EngineResponse): Message {
    match rsp.kind
    case OrderAccepted => Accepted(rsp.clientOrderId, 0, 0, 0)
    case OrderRejected => Rejected(rsp.clientOrderId, rsp.rejectReason, 0, 0)
    case OrderCancelled => Cancelled(rsp.clientOrderId, 0, 0, 0)
    case OrderModified => Modified(rsp.clientOrderId, 0, 0, 0)
    case OrderTrade => Trade(rsp.clientOrderId, 0, rsp.price, rsp.quantity)
  }

  const RESPONSE_HEADER := DEFAULT_HEADER.(payloadLength := PAYLOAD_SIZE)

  lemma ResponseTypes(rsp: EngineResponse)
    ensures IsKnownResponseType(TypeOf(ResponseMessage(rsp)))
  {
  }

  /** A response frame passes the client's header checks and decodes to the response's fields. */
  lemma ResponseArrives(h: MessageHeader, rsp: EngineResponse, before: seq<Byte>)
    requires |before| == FRAME_SIZE && h.magic == MAGIC && h.version == VERSION
    ensures var m := ResponseMessage(rsp);
      IsKnownResponseType(TypeOf(m)) && Readable(h, m, Encoded(h, m, before))
  {
    ResponseTypes(rsp);
    ResponseRoundTrip(h, ResponseMessage(rsp), before);
  }

  /** The header of every response frame, as far as the encoder does not set it. */
  const PLAIN := MessageHeader(0x6c6c7467, 1, 0, 0, 0, 0, 0, 0)

  lemma ResponseSays(rsp: EngineResponse, before: seq<Byte>)
    requires |before| == FRAME_SIZE
    ensures Wire.Says(Encoded(RESPONSE_HEADER, ResponseMessage(rsp), before), PLAIN, 0, ResponseMessage(rsp))
  {
    Wire.EncodedSays(RESPONSE_HEADER, ResponseMessage(rsp), before);
    Wire.SaysUnder(Encoded(RESPONSE_HEADER, ResponseMessage(rsp), before), RESPONSE_HEADER, PLAIN, 0,
                   ResponseMessage(rsp));
  }

  /** encode_response */
  method EncodeResponse(rsp: EngineResponse, out: array<Byte>)
    requires out.Length == FRAME_SIZE
    modifies out
    ensures out[..] == Encoded(RESPONSE_HEADER, ResponseMessage(rsp), old(out[..]))
    ensures Wire.Says(out[..], MessageHeader(0x6c6c7467, 1, 0, 0, 0, 0, 0, 0), 0,
              match rsp.kind
              case OrderAccepted => Accepted(rsp.clientOrderId, 0, 0, 0)
              case OrderRejected => Rejected(rsp.clientOrderId, rsp.rejectReason, 0, 0)
              case OrderCancelled => Cancelled(rsp.clientOrderId, 0, 0, 0)
              case OrderModified => Modified(rsp.clientOrderId, 0, 0, 0)
              case OrderTrade => Trade(rsp.clientOrderId, 0, rsp.price, rsp.quantity))
  {
    ResponseSays(rsp, out[..]);
    var h := DEFAULT_HEADER.(payloadLength := PAYLOAD_SIZE);
    match rsp.kind {
      case OrderAccepted => var _ := Encode(h, Accepted(rsp.clientOrderId, 0, 0, 0), out);
      case OrderRejected => var _ := Encode(h, Rejected(rsp.clientOrderId, rsp.rejectReason, 0, 0), out);
      case OrderCancelled => var _ := Encode(h, Cancelled(rsp.clientOrderId, 0, 0, 0), out);
      case OrderModified => var _ := Encode(h, Modified(rsp.clientOrderId, 0, 0, 0), out);
      case OrderTrade => var _ := Encode(h, Trade(rsp.clientOrderId, 0, rsp.price, rsp.quantity), out);
    }
  }

  // ------------------------------ connections and session slots ------------------------------

  const PARSER_CAPACITY: nat := 4096
  const READ_SIZE: nat := 1024
  const MAX_SLOTS: nat := 1024
  const U32_SIZE: nat := 0x1_0000_0000

  /** The parser is represented by the stream that FrameParser is proved to follow. */
  datatype Connection = Connection(parser: Stream, token: SessionToken, expectedSequence: U64)

  datatype SessionSlot = SessionSlot(fd: int, generation: U32)

  datatype Table = Table(connections: map<int, Connection>, slots: seq<SessionSlot>, nextSlot: U32)

  /** Every slot in use leads to an open connection that holds exactly the slot's token. */
  ghost predicate TableOk(t: Table) {
    && |t.slots| == MAX_SLOTS
    && (forall s :: 0 <= s < MAX_SLOTS && 0 <= t.slots[s].fd ==>
          t.slots[s].fd in t.connections
          && t.connections[t.slots[s].fd].token == SessionToken(s, t.slots[s].generation))
    && (forall fd :: fd in t.connections ==>
          0 <= fd && t.connections[fd].token.slot < MAX_SLOTS && ValidStream(t.connections[fd].parser))
  }

  function InitialTable(): Table {
    Table(map[], seq(MAX_SLOTS, _ => SessionSlot(-1, 0)), 0)
  }

  function TokenForNext(t: Table): SessionToken
    requires |t.slots| == MAX_SLOTS
  {
    var s := t.nextSlot % MAX_SLOTS;
    SessionToken(s, (t.slots[s].generation + 1) % U32_SIZE)
  }

  function AfterAccept(t: Table, fd: int): Table
    requires |t.slots| == MAX_SLOTS
  {
    var tok := TokenForNext(t);
    Table(if fd in t.connections then t.connections else t.connections[fd := Connection(Stream([], 0), tok, 1)],
          t.slots[tok.slot := SessionSlot(fd, tok.generation)],
          (t.nextSlot + 1) % U32_SIZE)
  }

  function AfterClose(t: Table, fd: int): Table
    requires |t.slots| == MAX_SLOTS
    requires fd in t.connections ==> t.connections[fd].token.slot < MAX_SLOTS
  {
    if fd !in t.connections then t
    else
      var s := t.connections[fd].token.slot;
      t.(slots := t.slots[s := t.slots[s].(fd := -1)], connections := t.connections - {fd})
  }

  function ClosedCommand(token: SessionToken): EngineCommand {
    FRESH_COMMAND.(kind := SessionClosed, session := token)
  }

  /** The fd a response goes to; None if its session is gone. */
  function Route(t: Table, rsp: EngineResponse): Option<int>
    requires |t.slots| == MAX_SLOTS && rsp.session.slot < MAX_SLOTS
  {
    var slot := t.slots[rsp.session.slot];
    if slot.generation != rsp.session.generation || slot.fd < 0 then None else Some(slot.fd)
  }

  lemma ReplaceKeepsOk(t: Table, fd: int, conn: Connection)
    requires TableOk(t) && fd in t.connections && ValidStream(conn.parser)
    requires conn.token == t.connections[fd].token
    ensures TableOk(t.(connections := t.connections[fd := conn]))
  {
  }

  lemma AcceptKeepsOk(t: Table, fd: int)
    requires TableOk(t) && 0 <= fd && fd !in t.connections
    ensures TableOk(AfterAccept(t, fd))
  {
  }

  lemma CloseKeepsOk(t: Table, fd: int)
    requires TableOk(t)
    ensures TableOk(AfterClose(t, fd))
  {
  }

  /** Routing safety: a response leaves only on the connection that holds its token. */
  lemma RoutingIsSafe(t: Table, rsp: EngineResponse)
    requires TableOk(t) && rsp.session.slot < MAX_SLOTS
    ensures var r := Route(t, rsp);
      r.Some? ==> r.value in t.connections && t.connections[r.value].token == rsp.session
  {
  }

  /** Every open connection can be reached through its own token. */
  ghost predicate AllRoutable(t: Table) {
    forall fd :: fd in t.connections ==> Routable(t, fd)
  }

  ghost predicate Routable(t: Table, fd: int) {
    && fd in t.connections && t.connections[fd].token.slot < |t.slots|
    && t.slots[t.connections[fd].token.slot] == SessionSlot(fd, t.connections[fd].token.generation)
  }

  /** Is the slot that the next accept takes still held by an open connection? */
  predicate NextSlotHeld(t: Table) {
    exists fd | fd in t.connections :: t.connections[fd].token.slot == t.nextSlot % MAX_SLOTS
  }

  /**
   * Routing completeness, exactly: an accept leaves every open connection reachable if and only if
   * the slot it takes is not held by an open connection.
   */
  lemma AcceptRoutableIff(t: Table, fd: int)
    requires TableOk(t) && AllRoutable(t) && 0 <= fd && fd !in t.connections
    ensures AllRoutable(AfterAccept(t, fd)) <==> !NextSlotHeld(t)
  {
    var t' := AfterAccept(t, fd);
    if NextSlotHeld(t) {
      var held :| held in t.connections && t.connections[held].token.slot == t.nextSlot % MAX_SLOTS;
      assert Routable(t, held);
      assert held in t'.connections && t'.connections[held] == t.connections[held];
      assert !Routable(t', held);
    } else {
      forall f | f in t'.connections
        ensures Routable(t', f)
      {
        if f != fd {
          assert Routable(t, f);
        }
      }
    }
  }

  lemma CloseKeepsRoutable(t: Table, fd: int)
    requires TableOk(t) && AllRoutable(t)
    ensures AllRoutable(AfterClose(t, fd))
  {
  }

  /** Slot s is in use by the open connection fd. */
  ghost predicate InUseBy(t: Table, s: nat, fd: int)
    requires s < |t.slots|
  {
    fd in t.connections && t.slots[s] == SessionSlot(fd, t.connections[fd].token.generation)
    && t.connections[fd].token.slot == s
  }

  /**
   * While all are reachable, open connections and slots in use correspond one to one: every open
   * connection has exactly one slot, every slot in use exactly one open connection.
   */
  lemma RoutableIsBijection(t: Table)
    requires TableOk(t) && AllRoutable(t)
    ensures forall fd :: fd in t.connections ==> InUseBy(t, t.connections[fd].token.slot, fd)
    ensures forall s :: 0 <= s < MAX_SLOTS && 0 <= t.slots[s].fd ==> InUseBy(t, s, t.slots[s].fd)
    ensures forall s, s', fd | 0 <= s < MAX_SLOTS && 0 <= s' < MAX_SLOTS ::
              InUseBy(t, s, fd) && InUseBy(t, s', fd) ==> s == s'
    ensures forall s, fd, fd' | 0 <= s < MAX_SLOTS :: InUseBy(t, s, fd) && InUseBy(t, s, fd') ==> fd == fd'
    ensures forall fd, rsp: EngineResponse ::
              fd in t.connections && rsp.session == t.connections[fd].token ==> Route(t, rsp) == Some(fd)
  {
    forall fd | fd in t.connections
      ensures InUseBy(t, t.connections[fd].token.slot, fd)
    {
      assert Routable(t, fd);
    }
  }

  /** One client stays on descriptor 0, then n others in turn connect on descriptor 1 and leave. */
  function Churn(n: nat): (t: Table)
    ensures TableOk(t) && t.connections.Keys == {0}
  {
    if n == 0 then
      AcceptKeepsOk(InitialTable(), 0);
      AfterAccept(InitialTable(), 0)
    else
      ChurnKeepsOk(Churn(n - 1));
      AfterClose(AfterAccept(Churn(n - 1), 1), 1)
  }

  lemma ChurnKeepsOk(t: Table)
    requires TableOk(t) && t.connections.Keys == {0}
    ensures TableOk(AfterAccept(t, 1)) && AfterAccept(t, 1).connections.Keys == {0, 1}
    ensures TableOk(AfterClose(AfterAccept(t, 1), 1)) && AfterClose(AfterAccept(t, 1), 1).connections.Keys == {0}
  {
    AcceptKeepsOk(t, 1);
    CloseKeepsOk(AfterAccept(t, 1), 1);
  }

  /** The first n + 1 accepts took the slots 0 .. n; from the 1025th on, slot 0 is no more descriptor 0's. */
  ghost predicate Churned(t: Table, n: nat) {
    && |t.slots| == MAX_SLOTS && 0 in t.connections && t.connections[0].token == SessionToken(0, 1)
    && if n < MAX_SLOTS then t.nextSlot == n + 1 && t.slots[0] == SessionSlot(0, 1) else t.slots[0].fd != 0
  }

  lemma ChurnAccept(t: Table, n: nat)
    requires Churned(t, n) && t.connections.Keys == {0}
    ensures var t' := AfterAccept(t, 1);
      && 0 in t'.connections && t'.connections[0] == t.connections[0]
      && t'.nextSlot == (t.nextSlot + 1) % U32_SIZE
      && if n + 1 < MAX_SLOTS then t'.slots[0] == t.slots[0] else t'.slots[0].fd != 0
  {
  }

  lemma ChurnClose(t: Table)
    requires TableOk(t) && t.connections.Keys == {0, 1}
    ensures var t' := AfterClose(t, 1);
      && 0 in t'.connections && t'.connections[0] == t.connections[0] && t'.nextSlot == t.nextSlot
      && t'.slots[0] == (if t.connections[1].token.slot == 0 then t.slots[0].(fd := -1) else t.slots[0])
  {
  }

  /** The slot given to the other client is not 0 before the 1025th accept. */
  lemma OtherSlot(t: Table, n: nat)
    requires Churned(t, n) && t.connections.Keys == {0} && n + 1 < MAX_SLOTS
    ensures 1 in AfterAccept(t, 1).connections && AfterAccept(t, 1).connections[1].token.slot == n + 1
  {
  }

  lemma ChurnMore(t: Table, n: nat)
    requires Churned(t, n) && TableOk(t) && t.connections.Keys == {0}
    ensures TableOk(AfterAccept(t, 1)) && Churned(AfterClose(AfterAccept(t, 1), 1), n + 1)
  {
    ChurnKeepsOk(t);
    ChurnAccept(t, n);
    ChurnClose(AfterAccept(t, 1));
    if n + 1 < MAX_SLOTS {
      OtherSlot(t, n);
    }
  }

  lemma {:induction false} ChurnHolds(n: nat)
    ensures Churned(Churn(n), n)
  {
    if n > 0 {
      var t := Churn(n - 1);
      ChurnHolds(n - 1);
      ChurnMore(t, n - 1);
    }
  }

  /**
   * next_slot advances with every accept, whether or not connections end between. So a client that
   * stays is reached until 1024 others have come, although never more than two are connected; then
   * its responses are dropped.
   */
  lemma OneLongLived(n: nat, rsp: EngineResponse)
    requires rsp.session == SessionToken(0, 1)
    ensures var t := AfterAccept(Churn(n), 1);
      && t.connections.Keys == {0, 1} && t.connections[0].token == rsp.session && |t.slots| == MAX_SLOTS
      && (Route(t, rsp) == Some(0) <==> n + 1 < 1024)
      && (n + 1 == 1024 ==> Route(t, rsp) == None)
  {
    ChurnHolds(n);
    ChurnKeepsOk(Churn(n));
    ChurnAccept(Churn(n), n);
    if n + 1 == MAX_SLOTS {
      SecondHolder(Churn(n));
    }
  }

  lemma SecondHolder(t: Table)
    requires Churned(t, MAX_SLOTS - 1)
    ensures AfterAccept(t, 1).slots[0].generation == 2
  {
  }

  // ------------------------------ the parse loop ------------------------------

  datatype Outcome =
    | Quiet(error: bool)
    | Reply(header: MessageHeader, message: Message, stop: bool)
    | Command(command: EngineCommand)

  function CommandOf(token: SessionToken, msg: DecodedMessage): EngineCommand {
    var cmd := FRESH_COMMAND.(session := token, requestSequence := msg.header.sequenceNumber);
    if msg.kind == NEW_ORDER then
      cmd.(kind := NewLimit, clientOrderId := msg.newOrder.clientOrderId, side := msg.newOrder.side,
           price := msg.newOrder.price, quantity := msg.newOrder.quantity)
    else if msg.kind == CANCEL_ORDER then
      cmd.(kind := Cancel, clientOrderId := msg.cancelOrder.clientOrderId)
    else if msg.kind == MODIFY_ORDER then
      cmd.(kind := Modify, clientOrderId := msg.modifyOrder.clientOrderId,
           price := msg.modifyOrder.newPrice, quantity := msg.modifyOrder.newQuantity)
    else cmd
  }

  /** What the loop does with one decoded message. */
  function Dispatch(token: SessionToken, expected: U64, msg: DecodedMessage): Outcome {
    if msg.header.sequenceNumber != expected then
      Reply(msg.header.(sessionId := token.slot), Rejected(0, Session.BAD_SEQUENCE, 0, 0), false)
    else if msg.kind == LOGOUT then Reply(msg.header, Accepted(0, 0, 0, 0), true)
    else if msg.kind == HEARTBEAT then Reply(msg.header, Accepted(0, 0, 0, 0), false)
    else Command(CommandOf(token, msg))
  }

  /** The message at the cursor. */
  function MessageAt(s: Stream): DecodedMessage
    requires ValidStream(s) && StatusOf(DecodeFrame, Unread(s)) == MessageReady
  {
    var decode: Decoder<DecodedMessage> := DecodeFrame;
    decode(Unread(s)[..FRAME_SIZE]).value
  }

  /** One iteration of the parse loop. */
  function ParseOne(conn: Connection): (Connection, Outcome)
    requires ValidStream(conn.parser)
  {
    match StatusOf(DecodeFrame, Unread(conn.parser))
    case NeedMoreData => (conn, Quiet(false))
    case ProtocolError => (conn, Quiet(true))
    case MessageReady =>
      var msg := MessageAt(conn.parser);
      var inSequence := msg.header.sequenceNumber == conn.expectedSequence;
      (Connection(AfterTryParse(DecodeFrame, conn.parser), conn.token,
                  if inSequence then Session.Next(conn.expectedSequence) else conn.expectedSequence),
       Dispatch(conn.token, conn.expectedSequence, msg))
  }

  predicate LoopEnds(o: Outcome) {
    o.Quiet? || (o.Reply? && o.stop)
  }

  lemma ParseOneConsumes(conn: Connection)
    requires ValidStream(conn.parser)
    ensures var (conn', o) := ParseOne(conn);
      ValidStream(conn'.parser) && conn'.token == conn.token
      && (!o.Quiet? ==> |Unread(conn'.parser)| == |Unread(conn.parser)| - FRAME_SIZE)
  {
  }

  lemma UpdateTwice(m: map<int, Connection>, fd: int, a: Connection, b: Connection)
    ensures m[fd := a][fd := b] == m[fd := b]
  {
  }

  /** The frame that the parse loop sends back, if any: written into a zeroed buffer. */
  function ReplyFrame(o: Outcome): Option<seq<Byte>> {
    if o.Reply? then Some(Encoded(o.header, o.message, Blank())) else None
  }

  function CommandIn(o: Outcome): Option<EngineCommand> {
    if o.Command? then Some(o.command) else None
  }

  /** `Frame frame{};` */
  function Blank(): (bs: seq<Byte>)
    ensures |bs| == FRAME_SIZE && forall i :: 0 <= i < FRAME_SIZE ==> bs[i] == 0
  {
    seq(FRAME_SIZE, _ => 0)
  }

  /** What the drain loop does: a send of this frame, and a push of close_conn. */
  datatype Effect =
    | Sent(fd: int, token: SessionToken, response: EngineResponse, frame: seq<Byte>)
    | Pushed(command: EngineCommand)

  function ClosingIn(e: Effect): Option<EngineCommand> {
    if e.Pushed? then Some(e.command) else None
  }

  function SentResponse(e: Effect): Option<EngineResponse> {
    if e.Sent? then Some(e.response) else None
  }

  /** The response's slot is in use, by the session it is for. */
  predicate Live(t: Table, rsp: EngineResponse)
    requires |t.slots| == MAX_SLOTS && rsp.session.slot < MAX_SLOTS
  {
    0 <= t.slots[rsp.session.slot].fd && t.slots[rsp.session.slot].generation == rsp.session.generation
  }

  /**
   * One response on the table `t`: sent to the slot's descriptor if live; if that send fails, the
   * connection ends and its SessionClosed command is pushed; otherwise nothing.
   */
  ghost predicate Handled(t: Table, rsp: EngineResponse, sendOk: bool, t': Table, effects: seq<Effect>)
    requires |t.slots| == MAX_SLOTS && rsp.session.slot < MAX_SLOTS
  {
    var fd := t.slots[rsp.session.slot].fd;
    && (!Live(t, rsp) ==> t' == t && effects == [])
    && (Live(t, rsp) && sendOk ==>
          t' == t && |effects| == 1 && effects[0].Sent?
          && effects[0].fd == fd && effects[0].token == rsp.session && effects[0].response == rsp
          && Wire.Says(effects[0].frame, PLAIN, 0, ResponseMessage(rsp)))
    && (Live(t, rsp) && !sendOk ==>
          && t' == t.(connections := t.connections - {fd},
                      slots := t.slots[rsp.session.slot := SessionSlot(-1, rsp.session.generation)])
          && effects == [Pushed(FRESH_COMMAND.(kind := SessionClosed, session := rsp.session))])
  }

  lemma HandledKeepsOk(t: Table, rsp: EngineResponse, sendOk: bool, t': Table, effects: seq<Effect>)
    requires TableOk(t) && rsp.session.slot < MAX_SLOTS && Handled(t, rsp, sendOk, t', effects)
    ensures TableOk(t')
  {
  }

  /** The tables before each response of the drain and after the last, and what was done for each. */
  ghost predicate Drained(tables: seq<Table>, popped: seq<EngineResponse>, sendOk: seq<bool>,
                          effects: seq<seq<Effect>>) {
    && |sendOk| == |popped| == |effects| && |tables| == |popped| + 1 && TableOk(tables[0])
    && (forall i :: 0 <= i < |popped| ==> popped[i].session.slot < MAX_SLOTS)
    && (forall i :: 0 <= i < |tables| ==> |tables[i].slots| == MAX_SLOTS)
    && (forall i :: 0 <= i < |popped| ==> Handled(tables[i], popped[i], sendOk[i], tables[i + 1], effects[i]))
  }

  lemma {:induction false} DrainKeepsOk(tables: seq<Table>, popped: seq<EngineResponse>, sendOk: seq<bool>,
                                        effects: seq<seq<Effect>>, i: nat)
    requires Drained(tables, popped, sendOk, effects) && i < |tables|
    ensures TableOk(tables[i])
  {
    if i > 0 {
      DrainKeepsOk(tables, popped, sendOk, effects, i - 1);
      assert Handled(tables[i - 1], popped[i - 1], sendOk[i - 1], tables[i - 1 + 1], effects[i - 1]);
      HandledKeepsOk(tables[i - 1], popped[i - 1], sendOk[i - 1], tables[i], effects[i - 1]);
    }
  }

  /** All effects of a drain, in order. */
  function Flat(effects: seq<seq<Effect>>): seq<Effect> {
    if effects == [] then [] else Flat(effects[..|effects| - 1]) + effects[|effects| - 1]
  }

  lemma FlatSnoc(effects: seq<seq<Effect>>, more: seq<Effect>)
    ensures Flat(effects + [more]) == Flat(effects) + more
  {
  }

  /**
   * Whatever is popped and whichever sends fail: a response is sent at most once, and exactly if its
   * slot is live then and the send succeeds; it goes to the open connection that holds its token.
   */
  lemma DrainedIsSafe(tables: seq<Table>, popped: seq<EngineResponse>, sendOk: seq<bool>, effects: seq<seq<Effect>>,
                      i: nat)
    requires Drained(tables, popped, sendOk, effects) && i < |popped|
    ensures var t, slot := tables[i], tables[i].slots[popped[i].session.slot];
      && |effects[i]| <= 1
      && (effects[i] != [] && effects[i][0].Sent? <==>
            0 <= slot.fd && slot.generation == popped[i].session.generation && sendOk[i])
      && (effects[i] != [] && effects[i][0].Sent? ==>
            && effects[i][0].response == popped[i] && effects[i][0].fd == slot.fd
            && slot.fd in t.connections && t.connections[slot.fd].token == popped[i].session)
      && (effects[i] != [] && effects[i][0].Pushed? <==>
            0 <= slot.fd && slot.generation == popped[i].session.generation && !sendOk[i])
      && (effects[i] != [] && effects[i][0].Pushed? ==>
            && effects[i][0].command.kind == SessionClosed && effects[i][0].command.session == popped[i].session
            && slot.fd in t.connections && slot.fd !in tables[i + 1].connections)
  {
    DrainKeepsOk(tables, popped, sendOk, effects, i);
    assert Handled(tables[i], popped[i], sendOk[i], tables[i + 1], effects[i]);
    if Live(tables[i], popped[i]) {
      RoutingIsSafe(tables[i], popped[i]);
    }
  }

  /** The responses of a list whose slots are live in `t`. */
  function LiveIn(t: Table): EngineResponse -> Option<EngineResponse>
    requires |t.slots| == MAX_SLOTS
  {
    (rsp: EngineResponse) =>
      if rsp.session.slot < MAX_SLOTS && 0 <= t.slots[rsp.session.slot].fd
         && t.slots[rsp.session.slot].generation == rsp.session.generation then Some(rsp) else None
  }

  lemma NothingCloses(tables: seq<Table>, popped: seq<EngineResponse>, sendOk: seq<bool>, effects: seq<seq<Effect>>,
                      n: nat)
    requires Drained(tables, popped, sendOk, effects) && n <= |popped| && forall i :: 0 <= i < |sendOk| ==> sendOk[i]
    ensures tables[n] == tables[0]
  {
    if n > 0 {
      NothingCloses(tables, popped, sendOk, effects, n - 1);
      assert Handled(tables[n - 1], popped[n - 1], sendOk[n - 1], tables[n - 1 + 1], effects[n - 1]);
    }
  }

  /** One response's part of what is sent. */
  lemma OneHandled(t: Table, rsp: EngineResponse, t': Table, effects: seq<Effect>)
    requires |t.slots| == MAX_SLOTS && rsp.session.slot < MAX_SLOTS && Handled(t, rsp, true, t', effects)
    ensures Collect(SentResponse, effects) == if LiveIn(t)(rsp).Some? then [rsp] else []
  {
    if Live(t, rsp) {
      assert effects == [] + [effects[0]];
      CollectSnoc(SentResponse, [], effects[0]);
    }
  }

  /** With one response sent for each that has a value under `f`. */
  lemma {:induction false} SentAre(effects: seq<seq<Effect>>, popped: seq<EngineResponse>,
                                   f: EngineResponse -> Option<EngineResponse>)
    requires |effects| == |popped|
    requires forall i :: 0 <= i < |popped| ==>
               Collect(SentResponse, effects[i]) == if f(popped[i]).Some? then [f(popped[i]).value] else []
    ensures Collect(SentResponse, Flat(effects)) == Collect(f, popped)
  {
    if popped != [] {
      var n := |popped| - 1;
      SentAre(effects[..n], popped[..n], f);
      CollectConcat(SentResponse, Flat(effects[..n]), effects[n]);
    }
  }

  /** When all sends succeed, exactly the popped responses whose slots are live are sent, in order. */
  lemma AllLiveAreSent(tables: seq<Table>, popped: seq<EngineResponse>, sendOk: seq<bool>, effects: seq<seq<Effect>>)
    requires Drained(tables, popped, sendOk, effects) && forall i :: 0 <= i < |sendOk| ==> sendOk[i]
    ensures Collect(SentResponse, Flat(effects)) == Collect(LiveIn(tables[0]), popped)
  {
    forall i | 0 <= i < |popped|
      ensures Collect(SentResponse, effects[i])
           == if LiveIn(tables[0])(popped[i]).Some? then [LiveIn(tables[0])(popped[i]).value] else []
    {
      NothingCloses(tables, popped, sendOk, effects, i);
      assert Handled(tables[i], popped[i], sendOk[i], tables[i + 1], effects[i]);
      OneHandled(tables[i], popped[i], tables[i + 1], effects[i]);
    }
    SentAre(effects, popped, LiveIn(tables[0]));
  }

  lemma ClippedTwice<T>(limit: nat, q: seq<T>, xs: seq<T>, ys: seq<T>)
    requires |q| <= limit
    ensures |Clipped(limit, q, xs)| <= limit
    ensures Clipped(limit, Clipped(limit, q, xs), ys) == Clipped(limit, q, xs + ys)
  {
    if |q| + |xs| + |ys| <= limit {
      assert q + xs + ys == q + (xs + ys);
    } else if |q| + |xs| <= limit {
      assert q + xs + ys[..limit - |q + xs|] == q + (xs + ys)[..limit - |q|];
    } else {
      assert q + xs[..limit - |q|] + ys[..0] == q + (xs + ys)[..limit - |q|];
    }
  }

  lemma OneEffect(e: Effect)
    ensures Collect(ClosingIn, [e]) == if e.Pushed? then [e.command] else []
  {
    CollectSnoc(ClosingIn, [], e);
    assert [] + [e] == [e];
  }

  lemma ClippedMore(limit: nat, q: seq<EngineCommand>, effects: seq<Effect>, next: seq<Effect>)
    requires |q| <= limit
    ensures |Clipped(limit, q, Collect(ClosingIn, effects))| <= limit
    ensures Clipped(limit, Clipped(limit, q, Collect(ClosingIn, effects)), Collect(ClosingIn, next))
         == Clipped(limit, q, Collect(ClosingIn, effects + next))
  {
    CollectConcat(ClosingIn, effects, next);
    ClippedTwice(limit, q, Collect(ClosingIn, effects), Collect(ClosingIn, next));
  }

  /** What the drain loop has done so far. */
  ghost predicate DrainedTo(popped: seq<EngineResponse>, sendOk: seq<bool>,
                            limit: nat, q0: seq<EngineCommand>, t0: Table, tables: seq<Table>,
                            effects: seq<seq<Effect>>, q: seq<EngineCommand>, t: Table)
    requires |q0| <= limit
  {
    && |effects| <= |popped| == |sendOk| && |tables| == |effects| + 1
    && tables[0] == t0 && tables[|effects|] == t
    && Drained(tables, popped[..|effects|], sendOk[..|effects|], effects)
    && q == Clipped(limit, q0, Collect(ClosingIn, Flat(effects)))
  }

  lemma DrainMore(tables: seq<Table>, popped: seq<EngineResponse>, sendOk: seq<bool>, effects: seq<seq<Effect>>,
                  rsp: EngineResponse, ok: bool, t': Table, next: seq<Effect>)
    requires Drained(tables, popped, sendOk, effects) && rsp.session.slot < MAX_SLOTS && |t'.slots| == MAX_SLOTS
    requires Handled(tables[|popped|], rsp, ok, t', next)
    ensures Drained(tables + [t'], popped + [rsp], sendOk + [ok], effects + [next])
  {
    var ts, ps, oks, es := tables + [t'], popped + [rsp], sendOk + [ok], effects + [next];
    forall k | 0 <= k < |ps|
      ensures Handled(ts[k], ps[k], oks[k], ts[k + 1], es[k])
    {
      if k < |popped| {
        assert Handled(tables[k], popped[k], sendOk[k], tables[k + 1], effects[k]);
      }
    }
  }

  /** The slices that have been dealt with. */
  lemma DrainSlices(popped: seq<EngineResponse>, sendOk: seq<bool>, tables: seq<Table>, effects: seq<seq<Effect>>,
                    t': Table, next: seq<Effect>)
    requires |effects| < |popped| == |sendOk| && |tables| == |effects| + 1
    requires Drained(tables, popped[..|effects|], sendOk[..|effects|], effects)
    requires popped[|effects|].session.slot < MAX_SLOTS && |t'.slots| == MAX_SLOTS
    requires Handled(tables[|effects|], popped[|effects|], sendOk[|effects|], t', next)
    ensures Drained(tables + [t'], popped[..|effects| + 1], sendOk[..|effects| + 1], effects + [next])
  {
    var i := |effects|;
    DrainMore(tables, popped[..i], sendOk[..i], effects, popped[i], sendOk[i], t', next);
    assert popped[..i + 1] == popped[..i] + [popped[i]] && sendOk[..i + 1] == sendOk[..i] + [sendOk[i]];
  }

  lemma DrainQueue(limit: nat, q0: seq<EngineCommand>, effects: seq<seq<Effect>>, next: seq<Effect>)
    requires |q0| <= limit
    ensures |Clipped(limit, q0, Collect(ClosingIn, Flat(effects)))| <= limit
    ensures Clipped(limit, Clipped(limit, q0, Collect(ClosingIn, Flat(effects))), Collect(ClosingIn, next))
         == Clipped(limit, q0, Collect(ClosingIn, Flat(effects + [next])))
  {
    FlatSnoc(effects, next);
    ClippedMore(limit, q0, Flat(effects), next);
  }

  lemma DrainOne(popped: seq<EngineResponse>, sendOk: seq<bool>, limit: nat, q0: seq<EngineCommand>, t0: Table,
                 tables: seq<Table>, effects: seq<seq<Effect>>, q: seq<EngineCommand>, t: Table, t': Table,
                 next: seq<Effect>)
    requires |q0| <= limit && DrainedTo(popped, sendOk, limit, q0, t0, tables, effects, q, t) && |effects| < |popped|
    requires popped[|effects|].session.slot < MAX_SLOTS && |t.slots| == |t'.slots| == MAX_SLOTS
    requires Handled(t, popped[|effects|], sendOk[|effects|], t', next)
    ensures |q| <= limit
    ensures DrainedTo(popped, sendOk, limit, q0, t0, tables + [t'], effects + [next],
                      Clipped(limit, q, Collect(ClosingIn, next)), t')
  {
    DrainQueue(limit, q0, effects, next);
    DrainSlices(popped, sendOk, tables, effects, t', next);
  }

  lemma DrainEnds(popped: seq<EngineResponse>, sendOk: seq<bool>, limit: nat, q0: seq<EngineCommand>, t0: Table,
                  tables: seq<Table>, effects: seq<seq<Effect>>, q: seq<EngineCommand>, t: Table)
    requires |q0| <= limit && DrainedTo(popped, sendOk, limit, q0, t0, tables, effects, q, t) && |effects| == |popped|
    ensures Drained(tables, popped, sendOk, effects)
  {
    assert popped[..|popped|] == popped && sendOk[..|popped|] == sendOk;
  }

  // ------------------------------ what a round does, in plain terms ------------------------------

  /**
   * The round on message `m`, when `due` is the next number of the session with this token: the frame
   * sent back, the command pushed, and the number due afterwards.
   */
  predicate Obeys(token: SessionToken, due: U64, m: DecodedMessage, reply: Option<seq<Byte>>,
                  push: Option<EngineCommand>, due': U64) {
    var n := m.header.sequenceNumber;
    && due' == (if n == due then (due + 1) % WORD else due)
    && (n != due ==>
          push == None && reply.Some? && Wire.Says(reply.value, m.header, token.slot, Rejected(0, 1, 0, 0)))
    && (n == due && (m.kind == 4 || m.kind == 5) ==>
          push == None && reply.Some? && Wire.Says(reply.value, m.header, m.header.sessionId, Accepted(0, 0, 0, 0)))
    && (n == due && m.kind == 1 ==>
          reply == None
          && push == Some(EngineCommand(n, m.newOrder.clientOrderId, m.newOrder.price, m.newOrder.quantity,
                                        m.newOrder.side, token, NewLimit)))
    && (n == due && m.kind == 2 ==>
          reply == None && push == Some(EngineCommand(n, m.cancelOrder.clientOrderId, 0, 0, 1, token, Cancel)))
    && (n == due && m.kind == 3 ==>
          reply == None
          && push == Some(EngineCommand(n, m.modifyOrder.clientOrderId, m.modifyOrder.newPrice,
                                        m.modifyOrder.newQuantity, 1, token, Modify)))
  }

  /** The frames sent back, byte by byte, and the commands pushed. */
  lemma DispatchOnTheWire(token: SessionToken, due: U64, m: DecodedMessage)
    requires 1 <= m.kind <= 5
    ensures var o, n := Dispatch(token, due, m), m.header.sequenceNumber;
      && (o.Reply? <==> n != due || m.kind == 4 || m.kind == 5)
      && (o.Reply? <==> ReplyFrame(o).Some?)
      && (o.Command? <==> n == due && 1 <= m.kind <= 3)
      && (LoopEnds(o) <==> m.kind == 5 && n == due)
      && (o.Reply? ==>
            var frame := ReplyFrame(o).value;
            && |frame| == 64
            && LoadU16(frame, 6) == (if n != due then 102 else 101) && LoadU16(frame, 8) == 32
            && LoadU64(frame, 12) == n && LoadU64(frame, 20) == (if n != due then token.slot else m.header.sessionId)
            && LoadU64(frame, 32) == 0 && LoadU64(frame, 40) == (if n != due then 1 else 0)
            && LoadU64(frame, 48) == 0 && LoadU64(frame, 56) == 0)
      && (o.Command? ==>
            && o.command.requestSequence == n && o.command.session == token
            && (m.kind == 1 ==>
                  o.command.kind == NewLimit && o.command.clientOrderId == m.newOrder.clientOrderId
                  && o.command.side == m.newOrder.side && o.command.price == m.newOrder.price
                  && o.command.quantity == m.newOrder.quantity)
            && (m.kind == 2 ==>
                  o.command.kind == Cancel && o.command.clientOrderId == m.cancelOrder.clientOrderId)
            && (m.kind == 3 ==>
                  o.command.kind == Modify && o.command.clientOrderId == m.modifyOrder.clientOrderId
                  && o.command.price == m.modifyOrder.newPrice && o.command.quantity == m.modifyOrder.newQuantity))
  {
    var o := Dispatch(token, due, m);
    if o.Reply? {
      Wire.EncodedSays(o.header, o.message, Blank());
    }
  }

  /** A frame that answers `m` under its own header, but for the session id. */
  lemma ReplySays(h: MessageHeader, m: MessageHeader, message: Message)
    requires h == m.(sessionId := h.sessionId)
    ensures Wire.Says(Encoded(h, message, Blank()), m, h.sessionId, message)
  {
    Wire.EncodedSays(h, message, Blank());
    Wire.SaysUnder(Encoded(h, message, Blank()), h, m, h.sessionId, message);
  }

  lemma RejectObeys(token: SessionToken, due: U64, m: DecodedMessage)
    requires 1 <= m.kind <= 5 && m.header.sequenceNumber != due
    ensures var o := Dispatch(token, due, m);
      Obeys(token, due, m, ReplyFrame(o), CommandIn(o), due) && !LoopEnds(o)
  {
    ReplySays(m.header.(sessionId := token.slot), m.header, Rejected(0, 1, 0, 0));
  }

  lemma AcceptObeys(token: SessionToken, m: DecodedMessage)
    requires m.kind == 4 || m.kind == 5
    ensures var due := m.header.sequenceNumber; var o := Dispatch(token, due, m);
      Obeys(token, due, m, ReplyFrame(o), CommandIn(o), Session.Next(due)) && (LoopEnds(o) <==> m.kind == 5)
  {
    ReplySays(m.header, m.header, Accepted(0, 0, 0, 0));
  }

  lemma OrderObeys(token: SessionToken, m: DecodedMessage)
    requires 1 <= m.kind <= 3
    ensures var due := m.header.sequenceNumber; var o := Dispatch(token, due, m);
      Obeys(token, due, m, ReplyFrame(o), CommandIn(o), Session.Next(due)) && !LoopEnds(o)
  {
  }

  lemma DispatchObeys(token: SessionToken, due: U64, m: DecodedMessage)
    requires 1 <= m.kind <= 5
    ensures var o := Dispatch(token, due, m);
      && Obeys(token, due, m, ReplyFrame(o), CommandIn(o),
               if m.header.sequenceNumber == due then Session.Next(due) else due)
      && (LoopEnds(o) <==> m.kind == 5 && m.header.sequenceNumber == due)
  {
    if m.header.sequenceNumber != due {
      RejectObeys(token, due, m);
    } else if m.kind == 4 || m.kind == 5 {
      AcceptObeys(token, m);
    } else {
      OrderObeys(token, m);
    }
  }

  /** A decoded message has one of the five request types. */
  lemma DecodedKind(frame: seq<Byte>)
    requires |frame| == FRAME_SIZE && DecodeFrame(frame).Some?
    ensures 1 <= DecodeFrame(frame).value.kind <= 5
  {
    Wire.GoodFrameIff(frame);
    Wire.FilledSays(frame, FRESH);
  }

  lemma RoundObeys(conn: Connection)
    requires ValidStream(conn.parser) && StatusOf(DecodeFrame, Unread(conn.parser)) == MessageReady
    ensures var (next, o) := ParseOne(conn); var m := MessageAt(conn.parser);
      && 1 <= m.kind <= 5
      && Obeys(conn.token, conn.expectedSequence, m, ReplyFrame(o), CommandIn(o), next.expectedSequence)
      && (LoopEnds(o) <==> m.kind == 5 && m.header.sequenceNumber == conn.expectedSequence)
  {
    DecodedKind(Unread(conn.parser)[..FRAME_SIZE]);
    DispatchObeys(conn.token, conn.expectedSequence, MessageAt(conn.parser));
  }

  /** A Logout with the number that is due. */
  predicate DueLogout(m: DecodedMessage, due: U64) {
    m.kind == 5 && m.header.sequenceNumber == due
  }

  ghost predicate AllObey(token: SessionToken, messages: seq<DecodedMessage>, due: seq<U64>,
                          replies: seq<Option<seq<Byte>>>, pushes: seq<Option<EngineCommand>>) {
    && |replies| == |pushes| == |messages| && |due| == |messages| + 1
    && forall i :: 0 <= i < |messages| ==> Obeys(token, due[i], messages[i], replies[i], pushes[i], due[i + 1])
  }

  /** How far the loop that began at `start` has come: the messages taken, and what was done with each. */
  ghost predicate Taken(start: Connection, conn: Connection, messages: seq<DecodedMessage>, due: seq<U64>,
                        replies: seq<Option<seq<Byte>>>, pushes: seq<Option<EngineCommand>>) {
    var n := |messages|;
    && AllObey(start.token, messages, due, replies, pushes)
    && due[0] == start.expectedSequence && due[n] == conn.expectedSequence && conn.token == start.token
    && ValidStream(start.parser) && ValidStream(conn.parser)
    && conn.parser == Stream(start.parser.bytes, start.parser.consumed + FRAME_SIZE * n)
    && Split(DecodeFrame, Unread(start.parser)) == messages + Split(DecodeFrame, Unread(conn.parser))
  }

  /** One more message off the stream. */
  lemma SplitNext(s: Stream)
    requires ValidStream(s) && StatusOf(DecodeFrame, Unread(s)) == MessageReady
    ensures var s' := AfterTryParse(DecodeFrame, s);
      Split(DecodeFrame, Unread(s)) == [MessageAt(s)] + Split(DecodeFrame, Unread(s'))
  {
    assert Unread(s)[FRAME_SIZE..] == Unread(AfterTryParse(DecodeFrame, s));
  }

  lemma OneMoreObeys(token: SessionToken, messages: seq<DecodedMessage>, due: seq<U64>, replies: seq<Option<seq<Byte>>>,
                     pushes: seq<Option<EngineCommand>>, m: DecodedMessage, reply: Option<seq<Byte>>,
                     push: Option<EngineCommand>, due': U64)
    requires AllObey(token, messages, due, replies, pushes) && Obeys(token, due[|messages|], m, reply, push, due')
    ensures AllObey(token, messages + [m], due + [due'], replies + [reply], pushes + [push])
  {
    forall i | 0 <= i < |messages| + 1
      ensures Obeys(token, (due + [due'])[i], (messages + [m])[i], (replies + [reply])[i], (pushes + [push])[i],
                    (due + [due'])[i + 1])
    {
      if i < |messages| {
        assert Obeys(token, due[i], messages[i], replies[i], pushes[i], due[i + 1]);
      }
    }
  }

  lemma TakenMore(start: Connection, conn: Connection, next: Connection, messages: seq<DecodedMessage>, due: seq<U64>,
                  replies: seq<Option<seq<Byte>>>, pushes: seq<Option<EngineCommand>>,
                  m: DecodedMessage, reply: Option<seq<Byte>>, push: Option<EngineCommand>)
    requires Taken(start, conn, messages, due, replies, pushes)
    requires next.parser == Stream(conn.parser.bytes, conn.parser.consumed + FRAME_SIZE) && ValidStream(next.parser)
    requires next.token == conn.token
    requires Split(DecodeFrame, Unread(conn.parser)) == [m] + Split(DecodeFrame, Unread(next.parser))
    requires Obeys(conn.token, conn.expectedSequence, m, reply, push, next.expectedSequence)
    ensures Taken(start, next, messages + [m], due + [next.expectedSequence], replies + [reply], pushes + [push])
  {
    OneMoreObeys(start.token, messages, due, replies, pushes, m, reply, push, next.expectedSequence);
    MoveOver(messages, m, Split(DecodeFrame, Unread(conn.parser)), Split(DecodeFrame, Unread(next.parser)));
  }

  lemma RoundTakes(conn: Connection)
    requires ValidStream(conn.parser)
    ensures var (next, o) := ParseOne(conn);
      && ValidStream(next.parser) && next.token == conn.token
      && (o.Quiet? <==> StatusOf(DecodeFrame, Unread(conn.parser)) != MessageReady)
      && (o.Quiet? ==> next == conn && Split(DecodeFrame, Unread(conn.parser)) == [])
      && (!o.Quiet? ==>
            next.parser == Stream(conn.parser.bytes, conn.parser.consumed + FRAME_SIZE)
            && Split(DecodeFrame, Unread(conn.parser))
               == [MessageAt(conn.parser)] + Split(DecodeFrame, Unread(next.parser)))
  {
    if StatusOf(DecodeFrame, Unread(conn.parser)) == MessageReady {
      SplitNext(conn.parser);
    }
  }

  /** The state of the loop: no Logout that is due among the messages taken, but for one that ended it. */
  ghost predicate InLoop(start: Connection, conn: Connection, messages: seq<DecodedMessage>, due: seq<U64>,
                         replies: seq<Option<seq<Byte>>>, pushes: seq<Option<EngineCommand>>, ended: bool) {
    && Taken(start, conn, messages, due, replies, pushes)
    && (forall i :: 0 <= i < |messages| && DueLogout(messages[i], due[i]) ==> ended && i == |messages| - 1)
    && (ended ==> Split(DecodeFrame, Unread(conn.parser)) == []
                  || (messages != [] && DueLogout(messages[|messages| - 1], due[|messages| - 1])))
  }

  /** What the loop has done when it ends. */
  lemma LoopEnded(start: Connection, conn: Connection, messages: seq<DecodedMessage>, due: seq<U64>,
                  replies: seq<Option<seq<Byte>>>, pushes: seq<Option<EngineCommand>>)
    requires InLoop(start, conn, messages, due, replies, pushes, true)
    ensures |replies| == |pushes| == |messages| && |due| == |messages| + 1
    ensures LoopLaw(start, conn, messages, due)
    ensures AllObey(start.token, messages, due, replies, pushes)
  {
  }

  /**
   * From `start` to `conn` the loop took these messages, which the unread bytes begin with: all up to
   * a bad or incomplete frame, or up to the first Logout that is due.
   */
  ghost predicate LoopLaw(start: Connection, conn: Connection, messages: seq<DecodedMessage>, due: seq<U64>)
    requires |due| == |messages| + 1
  {
    var n := |messages|;
    && ValidStream(start.parser) && ValidStream(conn.parser)
    && conn == Connection(Stream(start.parser.bytes, start.parser.consumed + 64 * n), start.token, due[n])
    && due[0] == start.expectedSequence
    && Split(DecodeFrame, Unread(start.parser)) == messages + Split(DecodeFrame, Unread(conn.parser))
    && (forall i :: 0 <= i < n - 1 ==> !(messages[i].kind == 5 && messages[i].header.sequenceNumber == due[i]))
    && (Split(DecodeFrame, Unread(conn.parser)) == []
        || (0 < n && messages[n - 1].kind == 5 && messages[n - 1].header.sequenceNumber == due[n - 1]))
  }

  /** So it leaves less than a frame, unless it met a bad frame or a Logout that is due. */
  lemma ParseLeavesLittle(start: Connection, conn: Connection, messages: seq<DecodedMessage>, due: seq<U64>)
    requires |due| == |messages| + 1 && LoopLaw(start, conn, messages, due)
    ensures |Unread(conn.parser)| < 64
            || StatusOf(DecodeFrame, Unread(conn.parser)) == ProtocolError
            || (messages != [] && messages[|messages| - 1].kind == 5
                && messages[|messages| - 1].header.sequenceNumber == due[|messages| - 1])
  {
  }

  /** No Logout that is due, but perhaps the last. */
  lemma LogoutsMore(messages: seq<DecodedMessage>, due: seq<U64>, m: DecodedMessage, due': U64, ended: bool)
    requires |due| == |messages| + 1 && (ended <==> DueLogout(m, due[|messages|]))
    requires forall i :: 0 <= i < |messages| ==> !DueLogout(messages[i], due[i])
    ensures forall i :: 0 <= i < |messages| + 1 && DueLogout((messages + [m])[i], (due + [due'])[i]) ==>
              ended && i == |messages|
    ensures ended ==> DueLogout((messages + [m])[|messages|], (due + [due'])[|messages|])
  {
  }

  lemma LoopTakes(start: Connection, conn: Connection, messages: seq<DecodedMessage>, due: seq<U64>,
                  replies: seq<Option<seq<Byte>>>, pushes: seq<Option<EngineCommand>>)
    requires InLoop(start, conn, messages, due, replies, pushes, false)
    requires StatusOf(DecodeFrame, Unread(conn.parser)) == MessageReady
    ensures var (next, o) := ParseOne(conn);
      InLoop(start, next, messages + [MessageAt(conn.parser)], due + [next.expectedSequence],
             replies + [ReplyFrame(o)], pushes + [CommandIn(o)], LoopEnds(o))
  {
    var (next, o) := ParseOne(conn);
    var m := MessageAt(conn.parser);
    RoundTakes(conn);
    RoundObeys(conn);
    TakenMore(start, conn, next, messages, due, replies, pushes, m, ReplyFrame(o), CommandIn(o));
    LogoutsMore(messages, due, m, next.expectedSequence, LoopEnds(o));
  }

  lemma LoopRound(start: Connection, conn: Connection, messages: seq<DecodedMessage>, due: seq<U64>,
                  replies: seq<Option<seq<Byte>>>, pushes: seq<Option<EngineCommand>>)
    requires InLoop(start, conn, messages, due, replies, pushes, false)
    ensures var (next, o) := ParseOne(conn);
      && (o.Quiet? ==> InLoop(start, next, messages, due, replies, pushes, true))
      && (!o.Quiet? ==>
            StatusOf(DecodeFrame, Unread(conn.parser)) == MessageReady
            && InLoop(start, next, messages + [MessageAt(conn.parser)], due + [next.expectedSequence],
                      replies + [ReplyFrame(o)], pushes + [CommandIn(o)], LoopEnds(o)))
  {
    RoundTakes(conn);
    if StatusOf(DecodeFrame, Unread(conn.parser)) == MessageReady {
      LoopTakes(start, conn, messages, due, replies, pushes);
    }
  }

  /** The queue after the pushes of the loop so far. */
  lemma OneMorePush(limit: nat, q0: seq<EngineCommand>, pushes: seq<Option<EngineCommand>>, push: Option<EngineCommand>)
    requires |q0| <= limit
    ensures |Clipped(limit, q0, Somes(pushes))| <= limit
    ensures Clipped(limit, Clipped(limit, q0, Somes(pushes)), if push.Some? then [push.value] else [])
         == Clipped(limit, q0, Somes(pushes + [push]))
  {
    SomesSnoc(pushes, push);
    ClippedTwice(limit, q0, Somes(pushes), if push.Some? then [push.value] else []);
  }

  /** The loop's state together with the command queue, which was `q0` at the start. */
  ghost predicate Looping(start: Connection, conn: Connection, messages: seq<DecodedMessage>, due: seq<U64>,
                          replies: seq<Option<seq<Byte>>>, pushes: seq<Option<EngineCommand>>, ended: bool,
                          limit: nat, q0: seq<EngineCommand>, q: seq<EngineCommand>)
    requires |q0| <= limit
  {
    InLoop(start, conn, messages, due, replies, pushes, ended) && q == Clipped(limit, q0, Somes(pushes))
  }

  lemma OneMoreRound(start: Connection, conn: Connection, messages: seq<DecodedMessage>, due: seq<U64>,
                     replies: seq<Option<seq<Byte>>>, pushes: seq<Option<EngineCommand>>,
                     limit: nat, q0: seq<EngineCommand>, q: seq<EngineCommand>)
    requires |q0| <= limit && Looping(start, conn, messages, due, replies, pushes, false, limit, q0, q)
    ensures |q| <= limit
    ensures var (next, o) := ParseOne(conn);
      && (o.Quiet? ==> Looping(start, next, messages, due, replies, pushes, true, limit, q0, q))
      && (!o.Quiet? ==>
            StatusOf(DecodeFrame, Unread(conn.parser)) == MessageReady
            && Looping(start, next, messages + [MessageAt(conn.parser)], due + [next.expectedSequence],
                       replies + [ReplyFrame(o)], pushes + [CommandIn(o)], LoopEnds(o), limit, q0,
                       Clipped(limit, q, if o.Command? then [o.command] else [])))
  {
    var (next, o) := ParseOne(conn);
    LoopRound(start, conn, messages, due, replies, pushes);
    OneMorePush(limit, q0, pushes, CommandIn(o));
  }

  class GatewayThread {
    var connections: map<int, Connection>
    const slots: array<SessionSlot>
    var nextSlot: U32

    function Value(): Table
      reads this, slots
    {
      Table(connections, slots[..], nextSlot)
    }

    ghost predicate Valid()
      reads this, slots
    {
      TableOk(Value())
    }

    constructor ()
      ensures Valid() && fresh(slots) && Value() == InitialTable()
    {
      connections, nextSlot := map[], 0;
      slots := new SessionSlot[MAX_SLOTS](_ => SessionSlot(-1, 0));
      new;
      assert slots[..] == seq(MAX_SLOTS, _ => SessionSlot(-1, 0));
    }

    /** The kernel hands out descriptors that are not open. */
    method Accept(fd: int)
      requires Valid() && 0 <= fd && fd !in connections
      modifies this, slots
      ensures Valid() && Value() == AfterAccept(old(Value()), fd)
    {
      AcceptKeepsOk(Value(), fd);
      var s := nextSlot % MAX_SLOTS;
      nextSlot := (nextSlot + 1) % U32_SIZE;
      slots[s] := slots[s].(generation := (slots[s].generation + 1) % U32_SIZE);
      slots[s] := slots[s].(fd := fd);
      var tok := SessionToken(s, slots[s].generation);
      connections := connections[fd := Connection(Stream([], 0), tok, 1)];
    }

    /** close_conn; its SessionClosed command is lost if the queue is full. */
    method CloseConn(fd: int, cmdQueue: CommandQueue)
      requires Valid() && cmdQueue.Valid()
      modifies this, slots, cmdQueue, cmdQueue.buffer
      ensures Valid() && Value() == AfterClose(old(Value()), fd)
      ensures cmdQueue.Valid()
      ensures cmdQueue.contents == Clipped(cmdQueue.capacity - 1, old(cmdQueue.contents),
                if fd in old(connections) then [ClosedCommand(old(connections)[fd].token)] else [])
    {
      CloseKeepsOk(Value(), fd);
      if fd in connections {
        var tok := connections[fd].token;
        slots[tok.slot] := slots[tok.slot].(fd := -1);
        var _ := cmdQueue.Push(FRESH_COMMAND.(kind := SessionClosed, session := tok));
        connections := connections - {fd};
      }
    }

    /** One response of the drain loop. */
    method HandleResponse(rsp: EngineResponse, sendOk: bool, cmdQueue: CommandQueue) returns (effects: seq<Effect>)
      requires Valid() && cmdQueue.Valid() && rsp.session.slot < MAX_SLOTS
      modifies this, slots, cmdQueue, cmdQueue.buffer
      ensures Valid() && Handled(old(Value()), rsp, sendOk, Value(), effects)
      ensures cmdQueue.Valid()
      ensures cmdQueue.contents
           == Clipped(cmdQueue.capacity - 1, old(cmdQueue.contents), Collect(ClosingIn, effects))
    {
      RoutingIsSafe(Value(), rsp);
      var slot := slots[rsp.session.slot];
      if slot.generation != rsp.session.generation || slot.fd < 0 {
        return [];
      }
      var token := connections[slot.fd].token;
      var frame := ResponseFrame(rsp);
      if !sendOk {
        CloseConn(slot.fd, cmdQueue);
        OneEffect(Pushed(ClosedCommand(token)));
        return [Pushed(ClosedCommand(token))];
      }
      OneEffect(Sent(slot.fd, token, rsp, frame));
      return [Sent(slot.fd, token, rsp, frame)];
    }

    /** `Frame frame{}; encode_response(rsp, frame);` */
    method ResponseFrame(rsp: EngineResponse) returns (frame: seq<Byte>)
      ensures Wire.Says(frame, PLAIN, 0, ResponseMessage(rsp))
    {
      var out := new Byte[FRAME_SIZE](_ => 0);
      EncodeResponse(rsp, out);
      return out[..];
    }

    /**
     * The drain loop: it empties the response queue; sendOk says which of the sends succeed. `tables`
     * are the slots and connections before each response, and at the end.
     */
    method DrainResponses(rspQueue: ResponseQueue, sendOk: seq<bool>, cmdQueue: CommandQueue)
      returns (effects: seq<seq<Effect>>, ghost tables: seq<Table>)
      requires Valid() && rspQueue.Valid() && cmdQueue.Valid() && |sendOk| == |rspQueue.contents|
      requires forall i :: 0 <= i < |rspQueue.contents| ==> rspQueue.contents[i].session.slot < MAX_SLOTS
      modifies this, slots, cmdQueue, cmdQueue.buffer, rspQueue
      ensures Valid() && rspQueue.Valid() && cmdQueue.Valid()
      ensures rspQueue.contents == []
      ensures |effects| == |old(rspQueue.contents)| && |tables| == |effects| + 1
      ensures tables[0] == old(Value()) && tables[|effects|] == Value()
      ensures Drained(tables, old(rspQueue.contents), sendOk, effects)
      ensures cmdQueue.contents
           == Clipped(cmdQueue.capacity - 1, old(cmdQueue.contents), Collect(ClosingIn, Flat(effects)))
    {
      ghost var popped, q0, limit := rspQueue.contents, cmdQueue.contents, cmdQueue.capacity - 1;
      var rsp := EngineResponse(0, 0, 0, 0, SessionToken(0, 0), OrderAccepted);
      var i, more := 0, true;
      effects, tables := [], [Value()];
      while more
        invariant Valid() && rspQueue.Valid() && cmdQueue.Valid()
        invariant i == |effects| <= |popped| && rspQueue.contents == popped[i..] && (!more ==> i == |popped|)
        invariant DrainedTo(popped, sendOk, limit, q0, old(Value()), tables, effects, cmdQueue.contents, Value())
        decreases |popped| - i, more
      {
        more, rsp := rspQueue.Pop(rsp);
        if more {
          ghost var q, t := cmdQueue.contents, Value();
          var next := HandleResponse(rsp, sendOk[i], cmdQueue);
          DrainOne(popped, sendOk, limit, q0, old(Value()), tables, effects, q, t, Value(), next);
          effects, tables := effects + [next], tables + [Value()];
          i := i + 1;
        }
      }
      DrainEnds(popped, sendOk, limit, q0, old(Value()), tables, effects, cmdQueue.contents, Value());
    }

    /** `encode_...(header, message, frame)` into a new frame. */
    method NewFrame(header: MessageHeader, message: Message) returns (sent: Option<seq<Byte>>)
      ensures sent == Some(Encoded(header, message, Blank()))
    {
      var frame := new Byte[FRAME_SIZE](_ => 0);
      assert frame[..] == Blank();
      var _ := Encode(header, message, frame);
      return Some(frame[..]);
    }

    method NewCommand(token: SessionToken, msg: DecodedMessage) returns (cmd: EngineCommand)
      ensures cmd == CommandOf(token, msg)
    {
      cmd := FRESH_COMMAND.(session := token, requestSequence := msg.header.sequenceNumber);
      if msg.kind == NEW_ORDER {
        cmd := cmd.(kind := NewLimit, clientOrderId := msg.newOrder.clientOrderId, side := msg.newOrder.side,
                    price := msg.newOrder.price, quantity := msg.newOrder.quantity);
      } else if msg.kind == CANCEL_ORDER {
        cmd := cmd.(kind := Cancel, clientOrderId := msg.cancelOrder.clientOrderId);
      } else if msg.kind == MODIFY_ORDER {
        cmd := cmd.(kind := Modify, clientOrderId := msg.modifyOrder.clientOrderId,
                    price := msg.modifyOrder.newPrice, quantity := msg.modifyOrder.newQuantity);
      }
    }

    /** What the loop does with a message that carries the expected sequence number. */
    method HandleInSequence(token: SessionToken, msg: DecodedMessage, cmdQueue: CommandQueue)
      returns (outcome: Outcome, sent: Option<seq<Byte>>)
      requires cmdQueue.Valid()
      modifies cmdQueue, cmdQueue.buffer
      ensures cmdQueue.Valid()
      ensures outcome == Dispatch(token, msg.header.sequenceNumber, msg) && sent == ReplyFrame(outcome)
      ensures cmdQueue.contents
           == Clipped(cmdQueue.capacity - 1, old(cmdQueue.contents), if outcome.Command? then [outcome.command] else [])
    {
      if msg.kind == LOGOUT {
        outcome := Reply(msg.header, Accepted(0, 0, 0, 0), true);
        sent := NewFrame(outcome.header, outcome.message);
        return;
      }
      if msg.kind == HEARTBEAT {
        outcome := Reply(msg.header, Accepted(0, 0, 0, 0), false);
        sent := NewFrame(outcome.header, outcome.message);
        return;
      }
      var cmd := NewCommand(token, msg);
      var _ := cmdQueue.Push(cmd);
      return Command(cmd), None;
    }

    /** What the loop does with a message whose parser result is already stored. */
    method HandleMessage(fd: int, msg: DecodedMessage, cmdQueue: CommandQueue)
      returns (outcome: Outcome, sent: Option<seq<Byte>>)
      requires Valid() && cmdQueue.Valid() && fd in connections
      modifies this`connections, cmdQueue, cmdQueue.buffer
      ensures Valid() && cmdQueue.Valid()
      ensures var conn := old(connections)[fd]; var expected := conn.expectedSequence;
        && connections == old(connections)[fd := conn.(expectedSequence :=
             if msg.header.sequenceNumber == expected then Session.Next(expected) else expected)]
        && outcome == Dispatch(conn.token, expected, msg)
      ensures sent == ReplyFrame(outcome)
      ensures cmdQueue.contents
           == Clipped(cmdQueue.capacity - 1, old(cmdQueue.contents), if outcome.Command? then [outcome.command] else [])
    {
      var conn := connections[fd];
      if msg.header.sequenceNumber != conn.expectedSequence {
        assert connections == connections[fd := conn];
        outcome := Reply(msg.header.(sessionId := conn.token.slot), Rejected(0, Session.BAD_SEQUENCE, 0, 0), false);
        sent := NewFrame(outcome.header, outcome.message);
        return;
      }
      ReplaceKeepsOk(Value(), fd, conn.(expectedSequence := (conn.expectedSequence + 1) % WORD));
      connections := connections[fd := conn.(expectedSequence := (conn.expectedSequence + 1) % WORD)];

      outcome, sent := HandleInSequence(conn.token, msg, cmdQueue);
    }

    /** One round of the parse loop: what it does, and the frame it sends back to the client. */
    method ParseRound(fd: int, cmdQueue: CommandQueue) returns (outcome: Outcome, sent: Option<seq<Byte>>)
      requires Valid() && cmdQueue.Valid() && fd in connections
      modifies this`connections, cmdQueue, cmdQueue.buffer
      ensures Valid() && cmdQueue.Valid()
      ensures connections == old(connections)[fd := ParseOne(old(connections)[fd]).0]
      ensures outcome == ParseOne(old(connections)[fd]).1
      ensures sent == ReplyFrame(outcome)
      ensures cmdQueue.contents
           == Clipped(cmdQueue.capacity - 1, old(cmdQueue.contents), if outcome.Command? then [outcome.command] else [])
    {
      var conn := connections[fd];
      var status := StatusOf(DecodeFrame, Unread(conn.parser));
      if status == Status.NeedMoreData {
        assert connections == connections[fd := conn];
        return Quiet(false), None;
      }
      if status == ProtocolError {
        assert connections == connections[fd := conn];
        return Quiet(true), None;
      }
      var msg := MessageAt(conn.parser);
      var parsed := conn.(parser := AfterTryParse(DecodeFrame, conn.parser));
      ReplaceKeepsOk(Value(), fd, parsed);
      connections := connections[fd := parsed];
      outcome, sent := HandleMessage(fd, msg, cmdQueue);
      UpdateTwice(old(connections), fd, parsed, connections[fd]);
    }

    /**
     * The parse loop on one connection. It takes the messages that the unread bytes begin with, up to
     * the first Logout that is due, and answers each in turn: a message out of sequence with a reject,
     * a Heartbeat or Logout with an accept, an order with a command for the engine; commands that find
     * no room are lost. `messages` are those taken, `due` the numbers due before each and at the end.
     */
    method ParseLoop(fd: int, cmdQueue: CommandQueue)
      returns (replies: seq<Option<seq<Byte>>>, pushes: seq<Option<EngineCommand>>,
               ghost messages: seq<DecodedMessage>, ghost due: seq<U64>)
      requires Valid() && cmdQueue.Valid() && fd in connections
      modifies this`connections, cmdQueue, cmdQueue.buffer
      ensures Valid() && cmdQueue.Valid()
      ensures fd in connections && connections == old(connections)[fd := connections[fd]]
      ensures |replies| == |pushes| == |messages| && |due| == |messages| + 1
      ensures LoopLaw(old(connections)[fd], connections[fd], messages, due)
      ensures forall i :: 0 <= i < |messages| ==>
                Obeys(old(connections)[fd].token, due[i], messages[i], replies[i], pushes[i], due[i + 1])
      ensures cmdQueue.contents == Clipped(cmdQueue.capacity - 1, old(cmdQueue.contents), Somes(pushes))
    {
      replies, pushes := [], [];
      ghost var start, q0, limit := connections[fd], cmdQueue.contents, cmdQueue.capacity - 1;
      messages, due := [], [start.expectedSequence];
      var ended := false;
      while !ended
        invariant Valid() && cmdQueue.Valid() && fd in connections
        invariant connections == old(connections)[fd := connections[fd]]
        invariant Looping(start, connections[fd], messages, due, replies, pushes, ended, limit, q0, cmdQueue.contents)
        decreases if ended then 0 else 1 + |Unread(connections[fd].parser)|
      {
        ghost var conn, q := connections[fd], cmdQueue.contents;
        ParseOneConsumes(conn);
        var outcome, sent := ParseRound(fd, cmdQueue);
        UpdateTwice(old(connections), fd, conn, connections[fd]);
        OneMoreRound(start, conn, messages, due, replies, pushes, limit, q0, q);
        if !outcome.Quiet? {
          messages, due := messages + [MessageAt(conn.parser)], due + [connections[fd].expectedSequence];
          replies := replies + [sent];
          pushes := pushes + [if outcome.Command? then Some(outcome.command) else None];
        }
        ended := LoopEnds(outcome);
      }
      LoopEnded(start, connections[fd], messages, due, replies, pushes);
    }
  }
}
