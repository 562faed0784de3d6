/**
 * The two threads of epoll_server.cpp as one state machine: the gateway's event loop and the
 * matching thread, joined by two queues (WeakFifo, which WeakRing shows the AtomicV3 rings to
 * refine) and an eventfd. Sockets deliver any bytes in any chunks; sends, pushes and pops succeed
 * or fail in every way the queues allow.
 */
module Protocol {
  import opened Bits
  import opened LittleEndian
  import opened Codec
  import opened Framing
  import opened Frames
  import opened Subsequences
  import opened Gateway
  import F = WeakFifo
  import WeakRing

  /** A queue of kQueueCapacity = 4096 cells holds 4095 elements. */
  const LIMIT: nat := 4095

  const EVENTFD_MAX: nat := WORD - 2

  datatype GatewayPc =
    | Waiting
    | Parsing(fd: int)
    | Draining
    | Delivering(response: EngineResponse)
    | Stopped

  datatype EnginePc =
    | Polling
    | Holding(command: EngineCommand)
    | Notifying
    | Halted

  /** One accepted connection, open or closed: its token, the bytes its parser took and the messages it returned. */
  datatype SessionLog = SessionLog(token: SessionToken, bytes: seq<Byte>, messages: seq<DecodedMessage>)

  datatype Delivery = Delivery(serial: nat, response: EngineResponse)

  /**
   * `posted` is how many response pushes are published by the eventfd writes so far, `floor` how
   * many were when the gateway last read the eventfd; the kernel serialises eventfd calls, so a read
   * sees everything done before earlier writes. `serials` (which accept an open connection came
   * from), `sessions`, `handled` and `delivered` are history only.
   */
  datatype State = State(
    table: Table, gpc: GatewayPc, epc: EnginePc,
    cmds: F.Fifo<EngineCommand>, rsps: F.Fifo<EngineResponse>,
    eventfd: nat, posted: nat, floor: nat,
    serials: map<int, nat>, sessions: seq<SessionLog>,
    handled: seq<EngineCommand>, delivered: seq<Delivery>)

  function Init(): State {
    State(InitialTable(), Waiting, Polling, F.EmptyFifo(), F.EmptyFifo(), 0, 0, 0, map[], [], [], [])
  }

  /** `e` and `q` are what a queue operation shows and the queue after it. */
  datatype Label =
    | Accept(fd: int)
    | Receive(fd: int, bytes: seq<Byte>)
    | Overflow(fd: int, bytes: seq<Byte>, ce: F.Event<EngineCommand>, cq: F.Fifo<EngineCommand>)
    | Hangup(fd: int, ce: F.Event<EngineCommand>, cq: F.Fifo<EngineCommand>)
    | ParseRound(ce: F.Event<EngineCommand>, cq: F.Fifo<EngineCommand>)
    | ReadEventfd(rq: F.Fifo<EngineResponse>)
    | PopResponse(re: F.Event<EngineResponse>, rq: F.Fifo<EngineResponse>)
    | Send(sendOk: bool, ce: F.Event<EngineCommand>, cq: F.Fifo<EngineCommand>)
    | Quit(ce: F.Event<EngineCommand>, cq: F.Fifo<EngineCommand>)
    | PopCommand(ce: F.Event<EngineCommand>, cq: F.Fifo<EngineCommand>)
    | Answer(re: F.Event<EngineResponse>, rq: F.Fifo<EngineResponse>)
    | WriteEventfd
    | Learn(cq: F.Fifo<EngineCommand>, rq: F.Fifo<EngineResponse>)

  /** A push of `v` returns true or false. */
  predicate Offers<T(==)>(e: F.Event<T>, v: T) {
    e == F.Pushed(v) || e.PushFailed?
  }

  /** A pop returns some element or false. */
  predicate Takes<T>(e: F.Event<T>) {
    e.Popped? || e.PopFailed?
  }

  /** close_conn(fd), with the push of its command. */
  predicate Closing(s: State, fd: int, e: F.Event<EngineCommand>) {
    fd in s.table.connections && Offers(e, ClosedCommand(s.table.connections[fd].token))
  }

  ghost predicate Basic(s: State) {
    && TableOk(s.table)
    && s.serials.Keys == s.table.connections.Keys
    && (forall fd :: fd in s.serials ==>
          s.serials[fd] < |s.sessions| && s.sessions[s.serials[fd]].token == s.table.connections[fd].token)
    && (forall fd, fd' :: fd in s.serials && fd' in s.serials && fd != fd' ==> s.serials[fd] != s.serials[fd'])
    && (s.gpc.Parsing? ==> s.gpc.fd in s.table.connections)
    && (s.gpc.Delivering? ==> s.gpc.response.session.slot < MAX_SLOTS)
  }

  /** What the threads' own code allows; this does not look into the queues. */
  ghost predicate Control(s: State, l: Label)
    requires Basic(s)
  {
    match l
    case Accept(fd) => s.gpc.Waiting? && 0 <= fd && fd !in s.table.connections
    case Receive(fd, bytes) =>
      s.gpc.Waiting? && fd in s.table.connections && 1 <= |bytes| <= READ_SIZE
      && Fits(PARSER_CAPACITY, s.table.connections[fd].parser, bytes)
    case Overflow(fd, bytes, e, _) =>
      s.gpc.Waiting? && fd in s.table.connections && 1 <= |bytes| <= READ_SIZE
      && !Fits(PARSER_CAPACITY, s.table.connections[fd].parser, bytes) && Closing(s, fd, e)
    case Hangup(fd, e, _) => s.gpc.Waiting? && Closing(s, fd, e)
    case ParseRound(e, _) =>
      s.gpc.Parsing?
      && (var o := ParseOne(s.table.connections[s.gpc.fd]).1;
          if o.Command? then Offers(e, o.command) else e.Silent?)
    case ReadEventfd(_) => s.gpc.Waiting? && 0 < s.eventfd
    case PopResponse(e, _) => s.gpc.Draining? && Takes(e)
    case Send(sendOk, e, _) =>
      s.gpc.Delivering?
      && (var r := Route(s.table, s.gpc.response);
          if r.Some? && !sendOk then Closing(s, r.value, e) else e.Silent?)
    case Quit(e, _) => s.gpc.Waiting? && Offers(e, FRESH_COMMAND.(kind := Shutdown))
    case PopCommand(e, _) => s.epc.Polling? && Takes(e)
    case Answer(e, _) =>
      s.epc.Holding? && (var r := Stub(s.epc.command); if r.Some? then Offers(e, r.value) else e.Silent?)
    case WriteEventfd => s.epc.Notifying?
    case Learn(_, _) => true
  }

  /** No queue operation leaves the queue alone; any other is a step of it. */
  ghost predicate Moves<T>(f: F.Fifo<T>, e: F.Event<T>, f': F.Fifo<T>) {
    if e.Silent? then f' == f else F.Step(LIMIT, f, e, f')
  }

  /** What the queues and the eventfd allow. */
  ghost predicate Queues(s: State, l: Label) {
    match l
    case ReadEventfd(q) => F.Observes(s.rsps, q) && s.posted <= q.consumerSees
    case PopResponse(e, q) => Moves(s.rsps, e, q)
    case Answer(e, q) => Moves(s.rsps, e, q)
    case Learn(cq, rq) => F.Observes(s.cmds, cq) && F.Observes(s.rsps, rq)
    case Overflow(_, _, e, q) => Moves(s.cmds, e, q)
    case Hangup(_, e, q) => Moves(s.cmds, e, q)
    case ParseRound(e, q) => Moves(s.cmds, e, q)
    case Send(_, e, q) => Moves(s.cmds, e, q)
    case Quit(e, q) => Moves(s.cmds, e, q)
    case PopCommand(e, q) => Moves(s.cmds, e, q)
    case _ => true
  }

  ghost predicate Enabled(s: State, l: Label)
    requires Basic(s)
  {
    Control(s, l) && Queues(s, l)
  }

  function Closed(s: State, fd: int, q: F.Fifo<EngineCommand>): State
    requires |s.table.slots| == MAX_SLOTS
    requires fd in s.table.connections && s.table.connections[fd].token.slot < MAX_SLOTS
  {
    s.(table := AfterClose(s.table, fd), serials := s.serials - {fd}, cmds := q)
  }

  function Replaced(t: Table, fd: int, conn: Connection): Table {
    t.(connections := t.connections[fd := conn])
  }

  ghost function Apply(s: State, l: Label): State
    requires Basic(s) && Control(s, l)
  {
    match l
    case Accept(fd) =>
      s.(table := AfterAccept(s.table, fd), serials := s.serials[fd := |s.sessions|],
         sessions := s.sessions + [SessionLog(TokenForNext(s.table), [], [])])
    case Receive(fd, bytes) =>
      var conn, log := s.table.connections[fd], s.sessions[s.serials[fd]];
      s.(table := Replaced(s.table, fd, conn.(parser := AfterAppend(PARSER_CAPACITY, conn.parser, bytes))),
         sessions := s.sessions[s.serials[fd] := log.(bytes := log.bytes + bytes)],
         gpc := Parsing(fd))
    case Overflow(fd, _, _, q) => Closed(s, fd, q)
    case Hangup(fd, _, q) => Closed(s, fd, q)
    case ParseRound(_, q) =>
      var fd := s.gpc.fd;
      var conn := s.table.connections[fd];
      var (next, o) := ParseOne(conn);
      var s' := s.(table := Replaced(s.table, fd, next), cmds := q, gpc := if LoopEnds(o) then Waiting else s.gpc);
      if o.Quiet? then s' else Logged(s', s.serials[fd], MessageAt(conn.parser))
    case ReadEventfd(q) => s.(eventfd := 0, floor := s.posted, rsps := q, gpc := Draining)
    case PopResponse(e, q) => s.(rsps := q, gpc := if e.Popped? then Delivering(e.value) else Waiting)
    case Send(sendOk, _, q) =>
      var r := Route(s.table, s.gpc.response);
      var s' := s.(gpc := Draining);
      if r.None? then s'
      else if sendOk then s'.(delivered := s.delivered + [Delivery(s.serials[r.value], s.gpc.response)])
      else Closed(s', r.value, q)
    case Quit(_, q) => s.(cmds := q, gpc := Stopped)
    case PopCommand(e, q) =>
      if e.PopFailed? then s.(cmds := q)
      else if e.value.kind == Shutdown then s.(cmds := q, epc := Halted, handled := s.handled + [e.value])
      else s.(cmds := q, epc := Holding(e.value))
    case Answer(_, q) =>
      s.(rsps := q, epc := if Stub(s.epc.command).Some? then Notifying else Polling,
         handled := s.handled + [s.epc.command])
    case WriteEventfd =>
      s.(eventfd := if s.eventfd < EVENTFD_MAX then s.eventfd + 1 else s.eventfd, posted := |s.rsps.pushed|,
         epc := Polling)
    case Learn(cq, rq) => s.(cmds := cq, rsps := rq)
  }

  function Logged(s: State, serial: nat, msg: DecodedMessage): State
    requires serial < |s.sessions|
  {
    var log := s.sessions[serial];
    s.(sessions := s.sessions[serial := log.(messages := log.messages + [msg])])
  }

  /** Queue operations and eventfd calls leave the connections, the logs and the deliveries alone. */
  predicate TableAlone(l: Label) {
    l.ReadEventfd? || l.PopResponse? || l.Quit? || l.PopCommand? || l.Answer? || l.WriteEventfd? || l.Learn?
  }

  ghost predicate SameTable(s: State, s': State) {
    s'.table == s.table && s'.serials == s.serials && s'.sessions == s.sessions && s'.delivered == s.delivered
  }

  lemma ReadKeeps(s: State, q: F.Fifo<EngineResponse>)
    requires Basic(s) && Control(s, ReadEventfd(q))
    ensures SameTable(s, Apply(s, ReadEventfd(q)))
  {
  }

  lemma PopKeeps(s: State, e: F.Event<EngineResponse>, q: F.Fifo<EngineResponse>)
    requires Basic(s) && Control(s, PopResponse(e, q))
    ensures SameTable(s, Apply(s, PopResponse(e, q)))
  {
  }

  lemma QuitKeeps(s: State, e: F.Event<EngineCommand>, q: F.Fifo<EngineCommand>)
    requires Basic(s) && Control(s, Quit(e, q))
    ensures SameTable(s, Apply(s, Quit(e, q)))
  {
  }

  lemma PopCommandKeeps(s: State, e: F.Event<EngineCommand>, q: F.Fifo<EngineCommand>)
    requires Basic(s) && Control(s, PopCommand(e, q))
    ensures SameTable(s, Apply(s, PopCommand(e, q)))
  {
  }

  lemma AnswerKeeps(s: State, e: F.Event<EngineResponse>, q: F.Fifo<EngineResponse>)
    requires Basic(s) && Control(s, Answer(e, q))
    ensures SameTable(s, Apply(s, Answer(e, q)))
  {
  }

  lemma WriteKeeps(s: State)
    requires Basic(s) && Control(s, WriteEventfd)
    ensures SameTable(s, Apply(s, WriteEventfd))
  {
  }

  lemma LearnKeeps(s: State, cq: F.Fifo<EngineCommand>, rq: F.Fifo<EngineResponse>)
    requires Basic(s) && Control(s, Learn(cq, rq))
    ensures SameTable(s, Apply(s, Learn(cq, rq)))
  {
  }

  lemma TableKept(s: State, l: Label)
    requires Basic(s) && Control(s, l) && TableAlone(l)
    ensures SameTable(s, Apply(s, l))
  {
    match l {
      case ReadEventfd(q) => ReadKeeps(s, q);
      case PopResponse(e, q) => PopKeeps(s, e, q);
      case Quit(e, q) => QuitKeeps(s, e, q);
      case PopCommand(e, q) => PopCommandKeeps(s, e, q);
      case Answer(e, q) => AnswerKeeps(s, e, q);
      case WriteEventfd => WriteKeeps(s);
      case Learn(cq, rq) => LearnKeeps(s, cq, rq);
    }
  }

  // ------------------------------ connections and sessions ------------------------------

  lemma ClosedBasic(s: State, fd: int, q: F.Fifo<EngineCommand>)
    requires Basic(s) && fd in s.table.connections && !(s.gpc.Parsing? && s.gpc.fd == fd)
    ensures Basic(Closed(s, fd, q))
  {
  }

  lemma AcceptBasic(s: State, fd: int)
    requires Basic(s) && Enabled(s, Accept(fd))
    ensures Basic(Apply(s, Accept(fd)))
  {
    AcceptKeepsOk(s.table, fd);
  }

  lemma ReceiveBasic(s: State, fd: int, bytes: seq<Byte>)
    requires Basic(s) && Enabled(s, Receive(fd, bytes))
    ensures Basic(Apply(s, Receive(fd, bytes)))
  {
    var conn := s.table.connections[fd];
    ReplaceKeepsOk(s.table, fd, conn.(parser := AfterAppend(PARSER_CAPACITY, conn.parser, bytes)));
  }

  lemma ParseBasic(s: State, e: F.Event<EngineCommand>, q: F.Fifo<EngineCommand>)
    requires Basic(s) && Enabled(s, ParseRound(e, q))
    ensures Basic(Apply(s, ParseRound(e, q)))
  {
    var conn := s.table.connections[s.gpc.fd];
    ParseOneConsumes(conn);
    ReplaceKeepsOk(s.table, s.gpc.fd, ParseOne(conn).0);
  }

  // ------------------------------ tokens ------------------------------

  /** The token of the k-th accept (from 0), although next_slot wraps at 2^32. */
  function TokenOf(k: nat): SessionToken {
    SessionToken(k % MAX_SLOTS, (k / MAX_SLOTS + 1) % U32_SIZE)
  }

  /** How many of the first n accepts took the slot. */
  function Holders(n: nat, slot: nat): nat
    requires slot < MAX_SLOTS
  {
    (n + (MAX_SLOTS - 1 - slot)) / MAX_SLOTS
  }

  /** Up to 2^42 accepts, no two connections share a token. */
  const DISTINCT_TOKENS: nat := 0x400_0000_0000

  lemma TokensDiffer(j: nat, k: nat)
    requires j < k < DISTINCT_TOKENS
    ensures TokenOf(j) != TokenOf(k)
  {
  }

  ghost predicate Generations(slots: seq<SessionSlot>, n: nat) {
    |slots| == MAX_SLOTS && forall x :: 0 <= x < MAX_SLOTS ==> slots[x].generation == Holders(n, x) % U32_SIZE
  }

  ghost predicate Accepts(s: State) {
    && s.table.nextSlot == |s.sessions| % U32_SIZE
    && Generations(s.table.slots, |s.sessions|)
    && forall k :: 0 <= k < |s.sessions| ==> s.sessions[k].token == TokenOf(k)
  }

  lemma HoldersStep(n: nat, slot: nat)
    requires slot < MAX_SLOTS
    ensures Holders(n + 1, slot) == Holders(n, slot) + if n % MAX_SLOTS == slot then 1 else 0
    ensures n % MAX_SLOTS == slot ==> Holders(n, slot) == n / MAX_SLOTS
    ensures (n % U32_SIZE) % MAX_SLOTS == n % MAX_SLOTS
  {
  }

  lemma GenerationsStep(slots: seq<SessionSlot>, n: nat, fd: int)
    requires Generations(slots, n)
    ensures Generations(slots[n % MAX_SLOTS := SessionSlot(fd, TokenOf(n).generation)], n + 1)
  {
    forall x | 0 <= x < MAX_SLOTS
      ensures Holders(n + 1, x) == if n % MAX_SLOTS == x then n / MAX_SLOTS + 1 else Holders(n, x)
    {
      HoldersStep(n, x);
    }
  }

  lemma AcceptTable(t: Table, n: nat, fd: int)
    requires t.nextSlot == n % U32_SIZE && Generations(t.slots, n)
    ensures TokenForNext(t) == TokenOf(n) == SessionToken(n % 1024, (n / 1024 + 1) % 0x1_0000_0000)
    ensures AfterAccept(t, fd).nextSlot == (n + 1) % U32_SIZE
    ensures Generations(AfterAccept(t, fd).slots, n + 1)
  {
    HoldersStep(n, n % MAX_SLOTS);
    assert TokenForNext(t) == TokenOf(n);
    AddWraps(n, 1, U32_SIZE);
    GenerationsStep(t.slots, n, fd);
  }

  lemma AcceptAccepts(s: State, fd: int)
    requires Basic(s) && Accepts(s) && Enabled(s, Accept(fd))
    ensures Accepts(Apply(s, Accept(fd)))
  {
    AcceptTable(s.table, |s.sessions|, fd);
  }

  /** Only accepts take slots and give out tokens. */
  lemma AcceptsKept(s: State, s': State)
    requires Accepts(s) && s'.table.nextSlot == s.table.nextSlot && |s'.sessions| == |s.sessions|
    requires |s'.table.slots| == MAX_SLOTS
    requires forall x :: 0 <= x < MAX_SLOTS ==> s'.table.slots[x].generation == s.table.slots[x].generation
    requires forall k :: 0 <= k < |s.sessions| ==> s'.sessions[k].token == s.sessions[k].token
    ensures Accepts(s')
  {
  }

  lemma ClosingAccepts(s: State, fd: int, q: F.Fifo<EngineCommand>)
    requires Basic(s) && Accepts(s) && fd in s.table.connections
    ensures Accepts(Closed(s, fd, q))
  {
    AcceptsKept(s, Closed(s, fd, q));
  }

  lemma SendAccepts(s: State, sendOk: bool, e: F.Event<EngineCommand>, q: F.Fifo<EngineCommand>)
    requires Basic(s) && Accepts(s) && Enabled(s, Send(sendOk, e, q))
    ensures Accepts(Apply(s, Send(sendOk, e, q)))
  {
    var r := Route(s.table, s.gpc.response);
    if r.Some? && !sendOk {
      ClosingAccepts(s.(gpc := Draining), r.value, q);
    }
  }

  lemma ReceiveAccepts(s: State, fd: int, bytes: seq<Byte>)
    requires Basic(s) && Accepts(s) && Enabled(s, Receive(fd, bytes))
    ensures Accepts(Apply(s, Receive(fd, bytes)))
  {
    AcceptsKept(s, Apply(s, Receive(fd, bytes)));
  }

  lemma ParseAccepts(s: State, e: F.Event<EngineCommand>, q: F.Fifo<EngineCommand>)
    requires Basic(s) && Accepts(s) && Enabled(s, ParseRound(e, q))
    ensures Accepts(Apply(s, ParseRound(e, q)))
  {
    AcceptsKept(s, Apply(s, ParseRound(e, q)));
  }

  lemma AcceptsStep(s: State, l: Label)
    requires Basic(s) && Accepts(s) && Enabled(s, l)
    ensures Accepts(Apply(s, l))
  {
    match l {
      case Accept(fd) => AcceptAccepts(s, fd);
      case Receive(fd, bytes) => ReceiveAccepts(s, fd, bytes);
      case Overflow(fd, _, _, q) => ClosingAccepts(s, fd, q);
      case Hangup(fd, _, q) => ClosingAccepts(s, fd, q);
      case ParseRound(e, q) => ParseAccepts(s, e, q);
      case Send(sendOk, e, q) => SendAccepts(s, sendOk, e, q);
      case _ =>
        TableKept(s, l);
        AcceptsKept(s, Apply(s, l));
    }
  }

  ghost predicate Issued(n: nat, token: SessionToken) {
    exists k: nat :: k < n && token == TokenOf(k)
  }

  /** Every order command and every response carries the token of some accepted connection. */
  ghost predicate Tokens(s: State) {
    var n := |s.sessions|;
    && (forall i :: 0 <= i < |s.cmds.pushed| && IsOrder(s.cmds.pushed[i]) ==> Issued(n, s.cmds.pushed[i].session))
    && (forall i :: 0 <= i < |s.rsps.pushed| ==> Issued(n, s.rsps.pushed[i].session))
    && (s.epc.Holding? && IsOrder(s.epc.command) ==> Issued(n, s.epc.command.session))
    && (s.gpc.Delivering? ==> Issued(n, s.gpc.response.session))
  }

  lemma TokensMore(s: State, s': State)
    requires Tokens(s) && |s.sessions| <= |s'.sessions|
    requires s'.cmds.pushed == s.cmds.pushed && s'.rsps.pushed == s.rsps.pushed
    requires s'.epc == s.epc && s'.gpc == s.gpc
    ensures Tokens(s')
  {
  }

  lemma ParseTokens(s: State, e: F.Event<EngineCommand>, q: F.Fifo<EngineCommand>)
    requires Basic(s) && Accepts(s) && Tokens(s) && Enabled(s, ParseRound(e, q))
    ensures Tokens(Apply(s, ParseRound(e, q)))
  {
    var fd := s.gpc.fd;
    var k := s.serials[fd];
    var token := s.table.connections[fd].token;
    assert token == TokenOf(k) by { assert s.sessions[k].token == TokenOf(k); }
    assert Issued(|s.sessions|, token);
    DispatchToken(s.table.connections[fd]);
  }

  lemma DispatchToken(conn: Connection)
    requires ValidStream(conn.parser)
    ensures ParseOne(conn).1.Command? ==> ParseOne(conn).1.command.session == conn.token
  {
  }

  lemma PopTokens(s: State, e: F.Event<EngineResponse>, q: F.Fifo<EngineResponse>)
    requires Basic(s) && Tokens(s) && Enabled(s, PopResponse(e, q))
    ensures Tokens(Apply(s, PopResponse(e, q)))
  {
  }

  lemma AnswerTokens(s: State, e: F.Event<EngineResponse>, q: F.Fifo<EngineResponse>)
    requires Basic(s) && Tokens(s) && Enabled(s, Answer(e, q))
    ensures Tokens(Apply(s, Answer(e, q)))
  {
  }

  lemma EventfdTokens(s: State, l: Label)
    requires Basic(s) && Tokens(s) && Enabled(s, l) && (l.ReadEventfd? || l.WriteEventfd? || l.Learn?)
    ensures Tokens(Apply(s, l))
  {
    match l {
      case ReadEventfd(_) =>
      case WriteEventfd =>
      case Learn(_, _) =>
    }
  }

  /** Connections come and go; what is pushed with that is no order. */
  lemma ClosingTokens(s: State, s': State, cmd: EngineCommand)
    requires Tokens(s) && |s'.sessions| == |s.sessions| && !IsOrder(cmd)
    requires s'.cmds.pushed == s.cmds.pushed || s'.cmds.pushed == s.cmds.pushed + [cmd]
    requires s'.rsps.pushed == s.rsps.pushed && s'.epc == s.epc && (s'.gpc == s.gpc || !s'.gpc.Delivering?)
    ensures Tokens(s')
  {
  }

  lemma SendTokens(s: State, sendOk: bool, e: F.Event<EngineCommand>, q: F.Fifo<EngineCommand>)
    requires Basic(s) && Tokens(s) && Enabled(s, Send(sendOk, e, q))
    ensures Tokens(Apply(s, Send(sendOk, e, q)))
  {
    var cmd := if e.Pushed? then e.value else ClosedCommand(s.gpc.response.session);
    ClosingTokens(s, Apply(s, Send(sendOk, e, q)), cmd);
  }

  lemma ReceiveTokens(s: State, fd: int, bytes: seq<Byte>)
    requires Basic(s) && Tokens(s) && Enabled(s, Receive(fd, bytes))
    ensures Tokens(Apply(s, Receive(fd, bytes)))
  {
  }

  lemma QuitTokens(s: State, e: F.Event<EngineCommand>, q: F.Fifo<EngineCommand>)
    requires Basic(s) && Tokens(s) && Enabled(s, Quit(e, q))
    ensures Tokens(Apply(s, Quit(e, q)))
  {
    ClosingTokens(s, Apply(s, Quit(e, q)), FRESH_COMMAND.(kind := Shutdown));
  }

  lemma PopCommandTokens(s: State, e: F.Event<EngineCommand>, q: F.Fifo<EngineCommand>)
    requires Basic(s) && Tokens(s) && Enabled(s, PopCommand(e, q))
    ensures Tokens(Apply(s, PopCommand(e, q)))
  {
  }

  lemma TokensStep(s: State, l: Label)
    requires Basic(s) && Accepts(s) && Tokens(s) && Enabled(s, l)
    ensures Tokens(Apply(s, l))
  {
    match l {
      case Accept(_) => TokensMore(s, Apply(s, l));
      case Receive(fd, bytes) => ReceiveTokens(s, fd, bytes);
      case Overflow(fd, _, _, _) => ClosingTokens(s, Apply(s, l), ClosedCommand(s.table.connections[fd].token));
      case Hangup(fd, _, _) => ClosingTokens(s, Apply(s, l), ClosedCommand(s.table.connections[fd].token));
      case ParseRound(e, q) => ParseTokens(s, e, q);
      case Send(sendOk, e, q) => SendTokens(s, sendOk, e, q);
      case Quit(e, q) => QuitTokens(s, e, q);
      case PopCommand(e, q) => PopCommandTokens(s, e, q);
      case PopResponse(e, q) => PopTokens(s, e, q);
      case Answer(e, q) => AnswerTokens(s, e, q);
      case _ => EventfdTokens(s, l);
    }
  }

  lemma IssuedSlot(n: nat, token: SessionToken)
    requires Issued(n, token)
    ensures token.slot < MAX_SLOTS
  {
  }

  lemma PopBasic(s: State, e: F.Event<EngineResponse>, q: F.Fifo<EngineResponse>)
    requires Basic(s) && Tokens(s) && Enabled(s, PopResponse(e, q))
    ensures Basic(Apply(s, PopResponse(e, q)))
  {
    if e.Popped? {
      IssuedSlot(|s.sessions|, e.value.session);
    }
  }

  lemma SendBasic(s: State, sendOk: bool, e: F.Event<EngineCommand>, q: F.Fifo<EngineCommand>)
    requires Basic(s) && Enabled(s, Send(sendOk, e, q))
    ensures Basic(Apply(s, Send(sendOk, e, q)))
  {
    var r := Route(s.table, s.gpc.response);
    if r.Some? && !sendOk {
      ClosedBasic(s.(gpc := Draining), r.value, q);
    }
  }

  lemma ReadBasic(s: State, q: F.Fifo<EngineResponse>)
    requires Basic(s) && Enabled(s, ReadEventfd(q))
    ensures Basic(Apply(s, ReadEventfd(q)))
  {
  }

  lemma QuitBasic(s: State, e: F.Event<EngineCommand>, q: F.Fifo<EngineCommand>)
    requires Basic(s) && Enabled(s, Quit(e, q))
    ensures Basic(Apply(s, Quit(e, q)))
  {
  }

  lemma EngineBasic(s: State, s': State)
    requires Basic(s) && SameTable(s, s') && s'.gpc == s.gpc
    ensures Basic(s')
  {
  }

  lemma EngineKeepsGateway(s: State, l: Label)
    requires Basic(s) && Control(s, l) && (l.PopCommand? || l.Answer? || l.WriteEventfd? || l.Learn?)
    ensures Apply(s, l).gpc == s.gpc
  {
    match l {
      case PopCommand(_, _) =>
      case Answer(_, _) =>
      case WriteEventfd =>
      case Learn(_, _) =>
    }
  }

  lemma BasicStep(s: State, l: Label)
    requires Basic(s) && Tokens(s) && Enabled(s, l)
    ensures Basic(Apply(s, l))
  {
    match l {
      case Accept(fd) => AcceptBasic(s, fd);
      case Receive(fd, bytes) => ReceiveBasic(s, fd, bytes);
      case Overflow(fd, _, _, q) => ClosedBasic(s, fd, q);
      case Hangup(fd, _, q) => ClosedBasic(s, fd, q);
      case ParseRound(e, q) => ParseBasic(s, e, q);
      case PopResponse(e, q) => PopBasic(s, e, q);
      case Send(sendOk, e, q) => SendBasic(s, sendOk, e, q);
      case ReadEventfd(q) => ReadBasic(s, q);
      case Quit(e, q) => QuitBasic(s, e, q);
      case _ =>
        TableKept(s, l);
        EngineKeepsGateway(s, l);
        EngineBasic(s, Apply(s, l));
    }
  }

  // ------------------------------ no lost wakeup ------------------------------

  ghost predicate Wake(s: State) {
    && F.Valid(LIMIT, s.cmds) && F.Valid(LIMIT, s.rsps)
    && s.floor <= s.posted <= |s.rsps.pushed|
    && s.floor <= s.rsps.consumerSees
    && (!s.epc.Notifying? ==> s.posted == |s.rsps.pushed|)
    && (s.eventfd == 0 ==> s.floor == s.posted)
    && (!s.gpc.Draining? && !s.gpc.Delivering? ==> s.floor <= s.rsps.popped)
  }

  lemma PopCommandWakes(s: State, e: F.Event<EngineCommand>, q: F.Fifo<EngineCommand>)
    requires Basic(s) && Wake(s) && Enabled(s, PopCommand(e, q))
    ensures Wake(Apply(s, PopCommand(e, q)))
  {
    F.StepKeepsValid(LIMIT, s.cmds, e, q);
  }

  lemma LearnWakes(s: State, cq: F.Fifo<EngineCommand>, rq: F.Fifo<EngineResponse>)
    requires Basic(s) && Wake(s) && Enabled(s, Learn(cq, rq))
    ensures Wake(Apply(s, Learn(cq, rq)))
  {
  }

  lemma WriteWakes(s: State)
    requires Basic(s) && Wake(s) && Enabled(s, WriteEventfd)
    ensures Wake(Apply(s, WriteEventfd))
  {
  }

  lemma AnswerWakes(s: State, e: F.Event<EngineResponse>, q: F.Fifo<EngineResponse>)
    requires Basic(s) && Wake(s) && Enabled(s, Answer(e, q))
    ensures Wake(Apply(s, Answer(e, q)))
  {
  }

  lemma GatewayWakes(s: State, l: Label)
    requires Basic(s) && Wake(s) && Enabled(s, l)
    requires l.ReadEventfd? || l.PopResponse? || l.Accept? || l.Receive?
    ensures Wake(Apply(s, l))
  {
    if l.PopResponse? {
      F.StepKeepsValid(LIMIT, s.rsps, l.re, l.rq);
    }
  }

  lemma CommandWakes(s: State, l: Label)
    requires Basic(s) && Wake(s) && Enabled(s, l)
    requires l.Overflow? || l.Hangup? || l.ParseRound? || l.Send? || l.Quit?
    ensures Wake(Apply(s, l))
  {
    if !l.ce.Silent? {
      F.StepKeepsValid(LIMIT, s.cmds, l.ce, l.cq);
    }
  }

  lemma WakeStep(s: State, l: Label)
    requires Basic(s) && Wake(s) && Enabled(s, l)
    ensures Wake(Apply(s, l))
  {
    match l {
      case PopCommand(e, q) => PopCommandWakes(s, e, q);
      case Answer(e, q) => AnswerWakes(s, e, q);
      case WriteEventfd => WriteWakes(s);
      case Learn(cq, rq) => LearnWakes(s, cq, rq);
      case _ =>
        if l.ReadEventfd? || l.PopResponse? || l.Accept? || l.Receive? {
          GatewayWakes(s, l);
        } else {
          CommandWakes(s, l);
        }
    }
  }

  /**
   * No lost wakeup: whenever a response waits in the queue, the eventfd is readable, or the matching
   * thread is about to write it, or the gateway is still draining.
   */
  lemma NoLostWakeup(s: State)
    requires Wake(s) && F.Queue(s.rsps) != []
    ensures 0 < s.eventfd || s.epc.Notifying? || s.gpc.Draining? || s.gpc.Delivering?
  {
  }

  /** And a drain does not end over a waiting response, unless another wakeup is already due. */
  lemma DrainEndsEmpty(s: State, q: F.Fifo<EngineResponse>)
    requires Basic(s) && Wake(s) && Enabled(s, PopResponse(F.PopFailed, q))
    ensures F.Queue(q) == [] || 0 < s.eventfd || s.epc.Notifying?
  {
  }

  // ------------------------------ conservation and order ------------------------------

  /** What a step shows of the command queue. */
  function CommandEvent(l: Label): F.Event<EngineCommand> {
    match l
    case Overflow(_, _, e, _) => e
    case Hangup(_, e, _) => e
    case ParseRound(e, _) => e
    case Send(_, e, _) => e
    case Quit(e, _) => e
    case PopCommand(e, _) => e
    case _ => F.Silent
  }

  /** The commands pushed grow by what a step shows to be pushed; closing commands and Shutdown are no orders. */
  lemma CommandsPushed(s: State, l: Label)
    requires Basic(s) && Enabled(s, l)
    ensures var e := CommandEvent(l);
      && Apply(s, l).cmds.pushed == (if e.Pushed? then s.cmds.pushed + [e.value] else s.cmds.pushed)
      && (e.Pushed? && !l.ParseRound? ==> !IsOrder(e.value))
  {
    match l {
      case Overflow(_, _, _, _) => ClosingPushed(s, l);
      case Hangup(_, _, _) => ClosingPushed(s, l);
      case Send(_, _, _) => ClosingPushed(s, l);
      case ParseRound(_, _) =>
      case _ =>
    }
  }

  lemma ClosingPushed(s: State, l: Label)
    requires Basic(s) && Enabled(s, l) && (l.Overflow? || l.Hangup? || l.Send?)
    ensures Apply(s, l).cmds.pushed == if l.ce.Pushed? then s.cmds.pushed + [l.ce.value] else s.cmds.pushed
    ensures l.ce.Pushed? ==> !IsOrder(l.ce.value)
  {
  }

  function InHand(s: State): seq<EngineCommand> {
    if s.epc.Holding? then [s.epc.command] else []
  }

  /** Commands pushed are those handled, then the one in hand, then those still queued. */
  ghost predicate Conserved(s: State) {
    s.cmds.popped <= |s.cmds.pushed| && s.cmds.pushed == s.handled + InHand(s) + F.Queue(s.cmds)
  }

  /** A push, or none. */
  lemma PushConserves(s: State, s': State, e: F.Event<EngineCommand>)
    requires Conserved(s) && s'.handled == s.handled && InHand(s') == InHand(s) && s'.cmds.popped == s.cmds.popped
    requires s'.cmds.pushed == if e.Pushed? then s.cmds.pushed + [e.value] else s.cmds.pushed
    ensures Conserved(s')
  {
    assert F.Queue(s'.cmds) == if e.Pushed? then F.Queue(s.cmds) + [e.value] else F.Queue(s.cmds);
  }

  lemma SendConserves(s: State, sendOk: bool, e: F.Event<EngineCommand>, q: F.Fifo<EngineCommand>)
    requires Basic(s) && Conserved(s) && Enabled(s, Send(sendOk, e, q))
    ensures Conserved(Apply(s, Send(sendOk, e, q)))
  {
    CommandsPushed(s, Send(sendOk, e, q));
    PushConserves(s, Apply(s, Send(sendOk, e, q)), e);
  }

  /** The oldest command goes from the queue into the engine's hand, or is handled at once. */
  lemma PopConserves(s: State, s': State, cmd: EngineCommand)
    requires Conserved(s) && s'.cmds.pushed == s.cmds.pushed && s'.cmds.popped == s.cmds.popped + 1 <= |s.cmds.pushed|
    requires cmd == s.cmds.pushed[s.cmds.popped] && InHand(s) == []
    requires s'.handled + InHand(s') == s.handled + [cmd]
    ensures Conserved(s')
  {
    assert F.Queue(s.cmds) == [cmd] + F.Queue(s'.cmds);
  }

  lemma PopCommandConserves(s: State, e: F.Event<EngineCommand>, q: F.Fifo<EngineCommand>)
    requires Basic(s) && Conserved(s) && Enabled(s, PopCommand(e, q))
    ensures Conserved(Apply(s, PopCommand(e, q)))
  {
    var s' := Apply(s, PopCommand(e, q));
    if e.Popped? {
      assert s'.handled + InHand(s') == s.handled + [e.value];
      PopConserves(s, s', e.value);
    } else {
      PushConserves(s, s', F.Silent);
    }
  }

  lemma OtherConserves(s: State, l: Label)
    requires Basic(s) && Conserved(s) && Enabled(s, l)
    requires l.ReadEventfd? || l.PopResponse? || l.WriteEventfd? || l.Learn?
    ensures Conserved(Apply(s, l))
  {
    match l {
      case ReadEventfd(_) => PushConserves(s, Apply(s, l), F.Silent);
      case PopResponse(_, _) => PushConserves(s, Apply(s, l), F.Silent);
      case WriteEventfd => PushConserves(s, Apply(s, l), F.Silent);
      case Learn(_, _) => PushConserves(s, Apply(s, l), F.Silent);
    }
  }

  lemma ConservedStep(s: State, l: Label)
    requires Basic(s) && Wake(s) && Conserved(s) && Enabled(s, l)
    ensures Conserved(Apply(s, l))
  {
    match l {
      case Overflow(_, _, e, _) => PushConserves(s, Apply(s, l), e);
      case Hangup(_, e, _) => PushConserves(s, Apply(s, l), e);
      case ParseRound(e, _) => PushConserves(s, Apply(s, l), e);
      case Send(sendOk, e, q) => SendConserves(s, sendOk, e, q);
      case Quit(e, _) => PushConserves(s, Apply(s, l), e);
      case PopCommand(e, q) => PopCommandConserves(s, e, q);
      case Answer(_, _) => assert Apply(s, l).handled + [] == s.handled + InHand(s);
      case Accept(_) => PushConserves(s, Apply(s, l), F.Silent);
      case Receive(_, _) => PushConserves(s, Apply(s, l), F.Silent);
      case _ => OtherConserves(s, l);
    }
  }

  function ResponseOf(d: Delivery): Option<EngineResponse> {
    Some(d.response)
  }

  /** How many of the popped responses the gateway is done with. */
  function Done(s: State): int {
    s.rsps.popped - if s.gpc.Delivering? then 1 else 0
  }

  /** Responses pushed are answers to handled commands, in order; those delivered are among them, in order. */
  ghost predicate Ordered(s: State) {
    && Sub(s.rsps.pushed, Collect(Stub, s.handled))
    && 0 <= Done(s) <= |s.rsps.pushed|
    && Sub(Collect(ResponseOf, s.delivered), s.rsps.pushed[..Done(s)])
    && (s.gpc.Delivering? ==> Done(s) < |s.rsps.pushed| && s.gpc.response == s.rsps.pushed[Done(s)])
  }

  /** One more command handled, and its answer pushed or lost. */
  lemma AnswerSub(pushed: seq<EngineResponse>, pushed': seq<EngineResponse>,
                  handled: seq<EngineCommand>, cmd: EngineCommand)
    requires Sub(pushed, Collect(Stub, handled))
    requires pushed' == pushed || (Stub(cmd).Some? && pushed' == pushed + [Stub(cmd).value])
    ensures Sub(pushed', Collect(Stub, handled + [cmd]))
  {
  }

  lemma AnswerOrdered(s: State, e: F.Event<EngineResponse>, q: F.Fifo<EngineResponse>)
    requires Basic(s) && Wake(s) && Ordered(s) && Enabled(s, Answer(e, q))
    ensures Ordered(Apply(s, Answer(e, q)))
  {
    AnswerSub(s.rsps.pushed, q.pushed, s.handled, s.epc.command);
    assert q.pushed[..Done(s)] == s.rsps.pushed[..Done(s)];
  }

  lemma SendOrdered(s: State, l: Label)
    requires Basic(s) && Wake(s) && Ordered(s) && Enabled(s, l) && l.Send?
    ensures Ordered(Apply(s, l))
  {
    var done := s.rsps.pushed[..Done(s)];
    var s' := Apply(s, l);
    assert s'.rsps.pushed[..Done(s')] == done + [s.gpc.response];
    if s'.delivered != s.delivered {
      CollectSnoc(ResponseOf, s.delivered, s'.delivered[|s.delivered|]);
      SubBoth(Collect(ResponseOf, s.delivered), done, s.gpc.response);
    } else {
      SubSkip(Collect(ResponseOf, s.delivered), done, s.gpc.response);
    }
  }

  lemma ShutdownHandled(s: State, l: Label)
    requires Basic(s) && Wake(s) && Ordered(s) && Enabled(s, l) && l.PopCommand?
    ensures Ordered(Apply(s, l))
  {
    if l.ce.Popped? && l.ce.value.kind == Shutdown {
      CollectSnoc(Stub, s.handled, l.ce.value);
    }
  }

  lemma PopOrdered(s: State, e: F.Event<EngineResponse>, q: F.Fifo<EngineResponse>)
    requires Basic(s) && Wake(s) && Ordered(s) && Enabled(s, PopResponse(e, q))
    ensures Ordered(Apply(s, PopResponse(e, q)))
  {
  }

  /** The other steps leave responses, handled commands and deliveries alone. */
  lemma StillOrdered(s: State, s': State)
    requires Ordered(s) && s'.rsps.pushed == s.rsps.pushed && s'.rsps.popped == s.rsps.popped
    requires s'.handled == s.handled && s'.delivered == s.delivered
    requires s'.gpc == s.gpc || (!s.gpc.Delivering? && !s'.gpc.Delivering?)
    ensures Ordered(s')
  {
  }

  lemma OrderedStep(s: State, l: Label)
    requires Basic(s) && Wake(s) && Ordered(s) && Enabled(s, l)
    ensures Ordered(Apply(s, l))
  {
    match l {
      case Answer(e, q) => AnswerOrdered(s, e, q);
      case Send(_, _, _) => SendOrdered(s, l);
      case PopCommand(_, _) => ShutdownHandled(s, l);
      case PopResponse(e, q) => PopOrdered(s, e, q);
      case _ => StillOrdered(s, Apply(s, l));
    }
  }

  // ------------------------------ deliveries ------------------------------

  /** Each delivery went to a connection that was given the response's token. */
  ghost predicate Delivered(s: State) {
    forall i :: 0 <= i < |s.delivered| ==>
      s.delivered[i].serial < |s.sessions|
      && s.sessions[s.delivered[i].serial].token == s.delivered[i].response.session
  }

  lemma DeliveredKept(s: State, s': State)
    requires Delivered(s) && s'.delivered == s.delivered && |s.sessions| <= |s'.sessions|
    requires forall k :: 0 <= k < |s.sessions| ==> s'.sessions[k].token == s.sessions[k].token
    ensures Delivered(s')
  {
  }

  lemma SendDelivered(s: State, sendOk: bool, e: F.Event<EngineCommand>, q: F.Fifo<EngineCommand>)
    requires Basic(s) && Delivered(s) && Enabled(s, Send(sendOk, e, q))
    ensures Delivered(Apply(s, Send(sendOk, e, q)))
  {
    RoutingIsSafe(s.table, s.gpc.response);
  }

  lemma DeliveredStep(s: State, l: Label)
    requires Basic(s) && Delivered(s) && Enabled(s, l)
    ensures Delivered(Apply(s, l))
  {
    if l.Send? {
      SendDelivered(s, l.sendOk, l.ce, l.cq);
    } else {
      LogsGrow(s, l);
      DeliveredKept(s, Apply(s, l));
    }
  }

  /** A response is sent only to the fd whose open connection holds exactly its token. */
  lemma SentToHolder(s: State, l: Label)
    requires Basic(s) && Enabled(s, l) && l.Send? && Apply(s, l).delivered != s.delivered
    ensures exists fd | fd in s.table.connections ::
              s.table.connections[fd].token == s.gpc.response.session
              && Apply(s, l).delivered == s.delivered + [Delivery(s.serials[fd], s.gpc.response)]
  {
  }

  // ------------------------------ messages, commands and buffers ------------------------------

  lemma KnownKind(frame: seq<Byte>)
    requires DecodeFrame(frame).Some?
    ensures IsKnownRequestType(DecodeFrame(frame).value.kind)
  {
  }

  /** The parser of a connection, told from its log. */
  function ParserOf(log: SessionLog): Stream {
    Stream(log.bytes, FRAME_SIZE * |log.messages|)
  }

  /** The messages are the frames of the bytes as far as those are parsed. */
  ghost predicate LogFaithful(log: SessionLog) {
    Faithful(DecodeFrame, Progress(ParserOf(log), log.messages))
  }

  /** Each log is faithful, and each open connection's parser, token and sequence filter are those of its log. */
  ghost predicate Logs(s: State) {
    && (forall k :: 0 <= k < |s.sessions| ==> LogFaithful(s.sessions[k]))
    && (forall fd :: fd in s.table.connections ==> LogOk(s.table.connections[fd], s.sessions, s.serials, fd))
  }

  ghost predicate LogOk(conn: Connection, sessions: seq<SessionLog>, serials: map<int, nat>, fd: int) {
    fd in serials && serials[fd] < |sessions| && ConnOk(conn, sessions[serials[fd]])
  }

  ghost predicate ConnOk(conn: Connection, log: SessionLog) {
    && LogFaithful(log)
    && conn.parser == ParserOf(log) && conn.token == log.token
    && conn.expectedSequence == Session.Run(0, log.messages).expected
  }

  lemma ConnReceives(conn: Connection, log: SessionLog, bytes: seq<Byte>)
    requires ConnOk(conn, log) && Fits(PARSER_CAPACITY, conn.parser, bytes)
    ensures ConnOk(conn.(parser := AfterAppend(PARSER_CAPACITY, conn.parser, bytes)), log.(bytes := log.bytes + bytes))
  {
    CallKeepsFaithful(DecodeFrame, PARSER_CAPACITY, Progress(conn.parser, log.messages), Append(bytes));
  }

  /** The log after one more message. */
  function WithMessage(log: SessionLog, msg: DecodedMessage): SessionLog {
    log.(messages := log.messages + [msg])
  }

  lemma ConnParses(conn: Connection, log: SessionLog)
    requires ConnOk(conn, log) && !ParseOne(conn).1.Quiet?
    ensures StatusOf(DecodeFrame, Unread(conn.parser)) == MessageReady
    ensures IsKnownRequestType(MessageAt(conn.parser).kind)
    ensures ConnOk(ParseOne(conn).0, WithMessage(log, MessageAt(conn.parser)))
  {
    var msg := MessageAt(conn.parser);
    CallKeepsFaithful(DecodeFrame, PARSER_CAPACITY, Progress(conn.parser, log.messages), TryParse);
    KnownKind(Unread(conn.parser)[..FRAME_SIZE]);
    Session.RunSnoc(0, log.messages, msg);
    Session.AfterExpected(Session.Run(0, log.messages), msg);
  }

  /** One connection and its log move on together. */
  lemma ReplaceLog(s: State, s': State, fd: int, next: Connection, log: SessionLog)
    requires Basic(s) && Logs(s) && fd in s.table.connections && ConnOk(next, log)
    requires s'.table.connections == s.table.connections[fd := next] && s'.serials == s.serials
    requires s'.sessions == s.sessions[s.serials[fd] := log]
    ensures Logs(s')
  {
    forall f | f in s'.table.connections
      ensures LogOk(s'.table.connections[f], s'.sessions, s'.serials, f)
    {
      assert LogOk(s.table.connections[f], s.sessions, s.serials, f);
    }
  }

  lemma ParseLogs(s: State, e: F.Event<EngineCommand>, q: F.Fifo<EngineCommand>)
    requires Basic(s) && Logs(s) && Enabled(s, ParseRound(e, q))
    ensures Logs(Apply(s, ParseRound(e, q)))
  {
    var fd := s.gpc.fd;
    var conn, log := s.table.connections[fd], s.sessions[s.serials[fd]];
    assert LogOk(conn, s.sessions, s.serials, fd);
    if ParseOne(conn).1.Quiet? {
      QuietKeeps(conn);
      ReplaceLog(s, Apply(s, ParseRound(e, q)), fd, conn, log);
    } else {
      ConnParses(conn, log);
      ReplaceLog(s, Apply(s, ParseRound(e, q)), fd, ParseOne(conn).0, WithMessage(log, MessageAt(conn.parser)));
    }
  }

  lemma QuietKeeps(conn: Connection)
    requires ValidStream(conn.parser) && ParseOne(conn).1.Quiet?
    ensures ParseOne(conn).0 == conn
  {
  }

  lemma OtherLogs(s: State, s': State)
    requires Basic(s) && Basic(s') && Logs(s)
    requires s'.sessions == s.sessions
    requires forall fd | fd in s'.table.connections ::
               fd in s.table.connections && s'.table.connections[fd] == s.table.connections[fd]
               && s'.serials[fd] == s.serials[fd]
    ensures Logs(s')
  {
    forall fd | fd in s'.table.connections
      ensures LogOk(s'.table.connections[fd], s'.sessions, s'.serials, fd)
    {
      assert LogOk(s.table.connections[fd], s.sessions, s.serials, fd);
    }
  }

  lemma NewLog(token: SessionToken)
    ensures ConnOk(Connection(Stream([], 0), token, 1), SessionLog(token, [], []))
  {
  }

  lemma AcceptLogs(s: State, fd: int)
    requires Basic(s) && Logs(s) && Enabled(s, Accept(fd))
    ensures Logs(Apply(s, Accept(fd)))
  {
    var s' := Apply(s, Accept(fd));
    NewLog(TokenForNext(s.table));
    forall f | f in s'.table.connections
      ensures LogOk(s'.table.connections[f], s'.sessions, s'.serials, f)
    {
      if f != fd {
        assert LogOk(s.table.connections[f], s.sessions, s.serials, f);
      }
    }
  }

  lemma ReceiveLogs(s: State, fd: int, bytes: seq<Byte>)
    requires Basic(s) && Logs(s) && Enabled(s, Receive(fd, bytes))
    ensures Logs(Apply(s, Receive(fd, bytes)))
  {
    var conn, log := s.table.connections[fd], s.sessions[s.serials[fd]];
    assert LogOk(conn, s.sessions, s.serials, fd);
    ConnReceives(conn, log, bytes);
    ReplaceLog(s, Apply(s, Receive(fd, bytes)), fd,
               conn.(parser := AfterAppend(PARSER_CAPACITY, conn.parser, bytes)), log.(bytes := log.bytes + bytes));
  }

  lemma ClosedLogs(s: State, fd: int, q: F.Fifo<EngineCommand>)
    requires Basic(s) && Logs(s) && fd in s.table.connections && !(s.gpc.Parsing? && s.gpc.fd == fd)
    ensures Logs(Closed(s, fd, q))
  {
    ClosedBasic(s, fd, q);
    OtherLogs(s, Closed(s, fd, q));
  }

  lemma SendLogs(s: State, sendOk: bool, e: F.Event<EngineCommand>, q: F.Fifo<EngineCommand>)
    requires Basic(s) && Logs(s) && Enabled(s, Send(sendOk, e, q))
    ensures Logs(Apply(s, Send(sendOk, e, q)))
  {
    var r := Route(s.table, s.gpc.response);
    if r.Some? && !sendOk {
      ClosedLogs(s.(gpc := Draining), r.value, q);
    }
  }

  lemma LogsStep(s: State, l: Label)
    requires Basic(s) && Tokens(s) && Logs(s) && Enabled(s, l)
    ensures Logs(Apply(s, l))
  {
    match l {
      case Accept(fd) => AcceptLogs(s, fd);
      case Receive(fd, bytes) => ReceiveLogs(s, fd, bytes);
      case ParseRound(e, q) => ParseLogs(s, e, q);
      case Overflow(fd, _, _, q) => ClosedLogs(s, fd, q);
      case Hangup(fd, _, q) => ClosedLogs(s, fd, q);
      case Send(sendOk, e, q) => SendLogs(s, sendOk, e, q);
      case _ => TableKept(s, l);
    }
  }

  /** Logs only grow: a token stays, bytes and messages are added behind. */
  ghost predicate Grown(log: SessionLog, log': SessionLog) {
    log'.token == log.token && log.bytes <= log'.bytes && log.messages <= log'.messages
  }

  lemma LogsGrow(s: State, l: Label)
    requires Basic(s) && Enabled(s, l)
    ensures |s.sessions| <= |Apply(s, l).sessions|
    ensures forall k :: 0 <= k < |s.sessions| ==> Grown(s.sessions[k], Apply(s, l).sessions[k])
    ensures !l.Accept? && !l.Receive? && !l.ParseRound? ==> Apply(s, l).sessions == s.sessions
  {
    match l {
      case Accept(_) =>
      case Receive(fd, _) =>
      case Overflow(_, _, _, _) =>
      case Hangup(_, _, _) =>
      case ParseRound(e, q) => ParseGrows(s, e, q);
      case Send(sendOk, e, q) => SendGrows(s, sendOk, e, q);
      case _ => TableKept(s, l);
    }
  }

  lemma SendGrows(s: State, sendOk: bool, e: F.Event<EngineCommand>, q: F.Fifo<EngineCommand>)
    requires Basic(s) && Enabled(s, Send(sendOk, e, q))
    ensures Apply(s, Send(sendOk, e, q)).sessions == s.sessions
  {
  }

  lemma ParseGrows(s: State, e: F.Event<EngineCommand>, q: F.Fifo<EngineCommand>)
    requires Basic(s) && Enabled(s, ParseRound(e, q))
    ensures var s', k := Apply(s, ParseRound(e, q)), s.serials[s.gpc.fd];
      s'.sessions == s.sessions
      || exists msg :: s'.sessions == s.sessions[k := WithMessage(s.sessions[k], msg)]
  {
    if !ParseOne(s.table.connections[s.gpc.fd]).1.Quiet? {
      var msg := MessageAt(s.table.connections[s.gpc.fd].parser);
      var k := s.serials[s.gpc.fd];
      assert Apply(s, ParseRound(e, q)).sessions == s.sessions[k := WithMessage(s.sessions[k], msg)];
    }
  }

  /** The order commands that carry `token`. */
  function OrderWith(token: SessionToken): EngineCommand -> Option<EngineCommand> {
    (c: EngineCommand) => if IsOrder(c) && c.session == token then Some(c) else None
  }

  predicate IsOrderKind(kind: U16) {
    kind == NEW_ORDER || kind == CANCEL_ORDER || kind == MODIFY_ORDER
  }

  function OrderOf(token: SessionToken): DecodedMessage -> Option<EngineCommand> {
    (m: DecodedMessage) => if IsOrderKind(m.kind) then Some(CommandOf(token, m)) else None
  }

  /** The commands a connection asked for: one for each of its in-sequence order messages. */
  function CommandsFor(log: SessionLog): seq<EngineCommand> {
    Collect(OrderOf(log.token), Session.Kept(0, log.messages))
  }

  lemma KeptSnoc(messages: seq<DecodedMessage>, msg: DecodedMessage)
    ensures Session.Kept(0, messages + [msg])
         == if Session.InSequence(Session.Run(0, messages), msg)
            then Session.Kept(0, messages) + [msg] else Session.Kept(0, messages)
  {
  }

  lemma CommandsForSnoc(log: SessionLog, msg: DecodedMessage)
    ensures CommandsFor(WithMessage(log, msg))
         == if Session.InSequence(Session.Run(0, log.messages), msg) && IsOrderKind(msg.kind)
            then CommandsFor(log) + [CommandOf(log.token, msg)] else CommandsFor(log)
  {
  }

  /** The parse loop makes a command of exactly the in-sequence order messages. */
  lemma CommandIffOrder(conn: Connection, log: SessionLog)
    requires ConnOk(conn, log) && !ParseOne(conn).1.Quiet?
    requires IsKnownRequestType(MessageAt(conn.parser).kind)
    ensures var msg, o := MessageAt(conn.parser), ParseOne(conn).1;
      && (o.Command? <==> Session.InSequence(Session.Run(0, log.messages), msg) && IsOrderKind(msg.kind))
      && (o.Command? ==> o.command == CommandOf(log.token, msg) && IsOrder(o.command))
      && (o.Reply? && o.stop ==> Session.InSequence(Session.Run(0, log.messages), msg) && msg.kind == LOGOUT)
  {
  }

  /** What each session pushed is, in order, among what it asked for. */
  ghost predicate Commands(s: State) {
    |s.sessions| <= DISTINCT_TOKENS ==> forall k :: 0 <= k < |s.sessions| ==> Asked(s.sessions[k], s.cmds.pushed)
  }

  ghost predicate Asked(log: SessionLog, pushed: seq<EngineCommand>) {
    Sub(Collect(OrderWith(log.token), pushed), CommandsFor(log))
  }

  /** A push that is not an order of this session changes nothing for it. */
  lemma AskedOther(log: SessionLog, pushed: seq<EngineCommand>, pushed': seq<EngineCommand>, cmd: EngineCommand)
    requires Asked(log, pushed) && (pushed' == pushed || pushed' == pushed + [cmd])
    requires !(IsOrder(cmd) && cmd.session == log.token)
    ensures Asked(log, pushed')
  {
  }

  /** A new message of this session, and its command pushed or lost. */
  lemma AskedOwn(log: SessionLog, msg: DecodedMessage, pushed: seq<EngineCommand>, pushed': seq<EngineCommand>)
    requires Asked(log, pushed)
    requires pushed' == pushed
      || (Session.InSequence(Session.Run(0, log.messages), msg) && IsOrderKind(msg.kind)
          && pushed' == pushed + [CommandOf(log.token, msg)])
    ensures Asked(WithMessage(log, msg), pushed')
  {
    var cmd, mine := CommandOf(log.token, msg), Collect(OrderWith(log.token), pushed);
    CommandsForSnoc(log, msg);
    SubSkip(mine, CommandsFor(log), cmd);
    if pushed' != pushed {
      CollectSnoc(OrderWith(log.token), pushed, cmd);
      SubBoth(mine, CommandsFor(log), cmd);
    }
  }

  lemma {:induction false} UnissuedToken(n: nat, pushed: seq<EngineCommand>)
    requires n < DISTINCT_TOKENS
    requires forall i :: 0 <= i < |pushed| && IsOrder(pushed[i]) ==> Issued(n, pushed[i].session)
    ensures Collect(OrderWith(TokenOf(n)), pushed) == []
  {
    if pushed != [] {
      var last := pushed[|pushed| - 1];
      UnissuedToken(n, pushed[..|pushed| - 1]);
      if IsOrder(last) {
        var k: nat :| k < n && last.session == TokenOf(k);
        TokensDiffer(k, n);
      }
    }
  }

  lemma AcceptCommands(s: State, fd: int)
    requires Basic(s) && Accepts(s) && Tokens(s) && Commands(s) && Enabled(s, Accept(fd))
    ensures Commands(Apply(s, Accept(fd)))
  {
    var n := |s.sessions|;
    if n < DISTINCT_TOKENS {
      AcceptTable(s.table, n, fd);
      UnissuedToken(n, s.cmds.pushed);
    }
  }

  lemma OtherCommands(s: State, l: Label)
    requires Basic(s) && Commands(s) && Enabled(s, l) && !l.Accept? && !l.Receive? && !l.ParseRound?
    ensures Commands(Apply(s, l))
  {
    CommandsPushed(s, l);
    LogsGrow(s, l);
    SameCommands(s, Apply(s, l), CommandEvent(l));
  }

  lemma SameCommands(s: State, s': State, e: F.Event<EngineCommand>)
    requires Commands(s) && s'.sessions == s.sessions
    requires s'.cmds.pushed == if e.Pushed? then s.cmds.pushed + [e.value] else s.cmds.pushed
    requires e.Pushed? ==> !IsOrder(e.value)
    ensures Commands(s')
  {
    if |s.sessions| <= DISTINCT_TOKENS && e.Pushed? {
      forall k | 0 <= k < |s.sessions|
        ensures Asked(s'.sessions[k], s'.cmds.pushed)
      {
        AskedOther(s.sessions[k], s.cmds.pushed, s'.cmds.pushed, e.value);
      }
    }
  }

  /** More bytes, but no message. */
  lemma ReceiveCommands(s: State, fd: int, bytes: seq<Byte>)
    requires Basic(s) && Commands(s) && Enabled(s, Receive(fd, bytes))
    ensures Commands(Apply(s, Receive(fd, bytes)))
  {
    var s' := Apply(s, Receive(fd, bytes));
    if |s.sessions| <= DISTINCT_TOKENS {
      forall k | 0 <= k < |s.sessions|
        ensures Asked(s'.sessions[k], s'.cmds.pushed)
      {
        assert Asked(s.sessions[k], s.cmds.pushed);
        assert CommandsFor(s'.sessions[k]) == CommandsFor(s.sessions[k]);
      }
    }
  }

  lemma ParseCommands(s: State, e: F.Event<EngineCommand>, q: F.Fifo<EngineCommand>)
    requires Basic(s) && Accepts(s) && Logs(s) && Commands(s) && Enabled(s, ParseRound(e, q))
    ensures Commands(Apply(s, ParseRound(e, q)))
  {
    var fd, s' := s.gpc.fd, Apply(s, ParseRound(e, q));
    var conn, mine := s.table.connections[fd], s.serials[fd];
    var o := ParseOne(conn).1;
    assert LogOk(conn, s.sessions, s.serials, fd);
    if |s.sessions| <= DISTINCT_TOKENS && !o.Quiet? {
      var log := s.sessions[mine];
      ConnParses(conn, log);
      CommandIffOrder(conn, log);
      forall k | 0 <= k < |s.sessions|
        ensures Asked(s'.sessions[k], q.pushed)
      {
        assert Asked(s.sessions[k], s.cmds.pushed);
        if k == mine {
          AskedOwn(log, MessageAt(conn.parser), s.cmds.pushed, q.pushed);
        } else if o.Command? {
          OtherTokens(s, k, mine);
          AskedOther(s.sessions[k], s.cmds.pushed, q.pushed, o.command);
        }
      }
    }
  }

  lemma OtherTokens(s: State, j: nat, k: nat)
    requires Accepts(s) && |s.sessions| <= DISTINCT_TOKENS && j < |s.sessions| && k < |s.sessions| && j != k
    ensures s.sessions[j].token != s.sessions[k].token
  {
  }

  lemma CommandsStep(s: State, l: Label)
    requires Basic(s) && Accepts(s) && Tokens(s) && Wake(s) && Logs(s) && Commands(s) && Enabled(s, l)
    ensures Commands(Apply(s, l))
  {
    match l {
      case Accept(fd) => AcceptCommands(s, fd);
      case Receive(fd, bytes) => ReceiveCommands(s, fd, bytes);
      case ParseRound(e, q) => ParseCommands(s, e, q);
      case _ => OtherCommands(s, l);
    }
  }

  // ------------------------------ the read buffer ------------------------------

  ghost predicate LoggedOut(messages: seq<DecodedMessage>) {
    exists i :: 0 <= i < |Session.Kept(0, messages)| && Session.Kept(0, messages)[i].kind == LOGOUT
  }

  /** Less than a frame is left to parse, or a bad frame comes next, or a Logout came. */
  ghost predicate ParsedUp(log: SessionLog) {
    && ValidStream(ParserOf(log))
    && (|Unread(ParserOf(log))| < FRAME_SIZE
        || StatusOf(DecodeFrame, Unread(ParserOf(log))) == ProtocolError
        || LoggedOut(log.messages))
  }

  /** The parse loop is at work on the k-th connection. */
  predicate Serving(s: State, k: nat) {
    s.gpc.Parsing? && s.gpc.fd in s.serials && s.serials[s.gpc.fd] == k
  }

  /** Between two reads every connection is parsed up; a closed one stays so. */
  ghost predicate Buffers(s: State) {
    forall k: nat :: k < |s.sessions| ==> Serving(s, k) || ParsedUp(s.sessions[k])
  }

  lemma RoundParses(conn: Connection, log: SessionLog)
    requires ConnOk(conn, log) && LoopEnds(ParseOne(conn).1)
    ensures ParseOne(conn).1.Quiet? ==> ParsedUp(log)
    ensures !ParseOne(conn).1.Quiet? ==> ParsedUp(WithMessage(log, MessageAt(conn.parser)))
  {
    if !ParseOne(conn).1.Quiet? {
      var msg := MessageAt(conn.parser);
      ConnParses(conn, log);
      CommandIffOrder(conn, log);
      KeptSnoc(log.messages, msg);
      var kept := Session.Kept(0, log.messages + [msg]);
      assert kept[|kept| - 1].kind == LOGOUT;
    }
  }

  lemma ParseBuffers(s: State, e: F.Event<EngineCommand>, q: F.Fifo<EngineCommand>)
    requires Basic(s) && Logs(s) && Buffers(s) && Enabled(s, ParseRound(e, q))
    ensures Buffers(Apply(s, ParseRound(e, q)))
  {
    var fd, s' := s.gpc.fd, Apply(s, ParseRound(e, q));
    var conn, mine := s.table.connections[fd], s.serials[fd];
    assert LogOk(conn, s.sessions, s.serials, fd);
    if LoopEnds(ParseOne(conn).1) {
      RoundParses(conn, s.sessions[mine]);
    }
    forall k: nat | k < |s'.sessions|
      ensures Serving(s', k) || ParsedUp(s'.sessions[k])
    {
      assert Serving(s, k) || ParsedUp(s.sessions[k]);
    }
  }

  lemma AcceptBuffers(s: State, fd: int)
    requires Basic(s) && Buffers(s) && Enabled(s, Accept(fd))
    ensures Buffers(Apply(s, Accept(fd)))
  {
    var s' := Apply(s, Accept(fd));
    forall k: nat | k < |s'.sessions|
      ensures ParsedUp(s'.sessions[k])
    {
      if k < |s.sessions| {
        assert Serving(s, k) || ParsedUp(s.sessions[k]);
      }
    }
  }

  lemma ReceiveBuffers(s: State, fd: int, bytes: seq<Byte>)
    requires Basic(s) && Buffers(s) && Enabled(s, Receive(fd, bytes))
    ensures Buffers(Apply(s, Receive(fd, bytes)))
  {
    var s' := Apply(s, Receive(fd, bytes));
    forall k: nat | k < |s'.sessions|
      ensures Serving(s', k) || ParsedUp(s'.sessions[k])
    {
      assert Serving(s, k) || ParsedUp(s.sessions[k]);
    }
  }

  lemma SameBuffers(s: State, s': State)
    requires Buffers(s) && s'.sessions == s.sessions
    requires (s'.gpc == s.gpc && s'.serials == s.serials) || !s.gpc.Parsing?
    ensures Buffers(s')
  {
    forall k: nat | k < |s'.sessions|
      ensures Serving(s', k) || ParsedUp(s'.sessions[k])
    {
      assert Serving(s, k) || ParsedUp(s.sessions[k]);
    }
  }

  lemma SendBuffers(s: State, sendOk: bool, e: F.Event<EngineCommand>, q: F.Fifo<EngineCommand>)
    requires Basic(s) && Buffers(s) && Enabled(s, Send(sendOk, e, q))
    ensures Buffers(Apply(s, Send(sendOk, e, q)))
  {
    SendGrows(s, sendOk, e, q);
    SameBuffers(s, Apply(s, Send(sendOk, e, q)));
  }

  lemma QueueBuffers(s: State, l: Label)
    requires Basic(s) && Buffers(s) && Enabled(s, l) && TableAlone(l)
    ensures Buffers(Apply(s, l))
  {
    TableKept(s, l);
    if l.PopCommand? || l.Answer? || l.WriteEventfd? || l.Learn? {
      EngineKeepsGateway(s, l);
    } else {
      assert !s.gpc.Parsing?;
    }
    SameBuffers(s, Apply(s, l));
  }

  lemma BuffersStep(s: State, l: Label)
    requires Basic(s) && Logs(s) && Buffers(s) && Enabled(s, l)
    ensures Buffers(Apply(s, l))
  {
    match l {
      case Accept(fd) => AcceptBuffers(s, fd);
      case Receive(fd, bytes) => ReceiveBuffers(s, fd, bytes);
      case ParseRound(e, q) => ParseBuffers(s, e, q);
      case Overflow(_, _, _, _) => SameBuffers(s, Apply(s, l));
      case Hangup(_, _, _) => SameBuffers(s, Apply(s, l));
      case Send(sendOk, e, q) => SendBuffers(s, sendOk, e, q);
      case _ => QueueBuffers(s, l);
    }
  }

  // ------------------------------ whole runs ------------------------------

  ghost predicate Inv(s: State) {
    && Basic(s) && Accepts(s) && Tokens(s) && Wake(s) && Conserved(s)
    && Ordered(s) && Delivered(s) && Logs(s) && Commands(s) && Buffers(s)
  }

  lemma InitInv()
    ensures Inv(Init())
  {
  }

  lemma StepInv(s: State, l: Label)
    requires Inv(s) && Enabled(s, l)
    ensures Inv(Apply(s, l))
  {
    BasicStep(s, l);
    AcceptsStep(s, l);
    TokensStep(s, l);
    WakeStep(s, l);
    ConservedStep(s, l);
    OrderedStep(s, l);
    DeliveredStep(s, l);
    LogsStep(s, l);
    CommandsStep(s, l);
    BuffersStep(s, l);
  }

  ghost predicate Follows(s: State, l: Label, s': State) {
    Basic(s) && Enabled(s, l) && s' == Apply(s, l)
  }

  ghost predicate Run(ss: seq<State>, ls: seq<Label>) {
    && |ss| == |ls| + 1
    && ss[0] == Init()
    && forall i :: 0 <= i < |ls| ==> Follows(ss[i], ls[i], ss[i + 1])
  }

  lemma FollowsInv(s: State, l: Label, s': State)
    requires Inv(s) && Follows(s, l, s')
    ensures Inv(s')
  {
    StepInv(s, l);
  }

  /** What the first state satisfies and each step keeps holds in every state. */
  lemma {:induction false} Along<S(!new)>(p: S -> bool, ss: seq<S>, n: nat)
    requires n < |ss| && p(ss[0]) && forall i :: 0 <= i < n ==> (p(ss[i]) ==> p(ss[i + 1]))
    ensures p(ss[n])
  {
    if n > 0 {
      Along(p, ss, n - 1);
      assert p(ss[n - 1]) ==> p(ss[n - 1 + 1]);
    }
  }

  /** Every state of every run satisfies the invariant. */
  lemma RunInv(ss: seq<State>, ls: seq<Label>, n: nat)
    requires Run(ss, ls) && n <= |ls|
    ensures Inv(ss[n])
  {
    InitInv();
    forall i | 0 <= i < n
      ensures Inv(ss[i]) ==> Inv(ss[i + 1])
    {
      if Inv(ss[i]) {
        FollowsInv(ss[i], ls[i], ss[i + 1]);
      }
    }
    Along(Inv, ss, n);
  }

  lemma RunFollows(ss: seq<State>, ls: seq<Label>, n: nat)
    requires Run(ss, ls) && n < |ls|
    ensures Inv(ss[n]) && Follows(ss[n], ls[n], ss[n + 1]) && Inv(ss[n + 1])
  {
    RunInv(ss, ls, n);
    RunInv(ss, ls, n + 1);
  }

  /** The queues are AtomicV3 rings of 4096 cells. */
  lemma QueueLimit()
    ensures var c := WeakRing.Config(WeakRing.CachedIndex, 4096);
      WeakRing.ValidConfig(c) && WeakRing.Limit(c) == LIMIT
  {
  }

  // ------------------------------ every response reaches its own session ------------------------------

  function ToSerial(k: nat): Delivery -> Option<EngineResponse> {
    (d: Delivery) => if d.serial == k then Some(d.response) else None
  }

  function ResponseWith(token: SessionToken): EngineResponse -> Option<EngineResponse> {
    (r: EngineResponse) => if r.session == token then Some(r) else None
  }

  /** The responses delivered to the k-th connection, in order. */
  function DeliveredTo(s: State, k: nat): seq<EngineResponse> {
    Collect(ToSerial(k), s.delivered)
  }

  /** Sorting deliveries by connection and by token is the same. */
  lemma {:induction false} BySerialIsByToken(s: State, k: nat, n: nat)
    requires Accepts(s) && Delivered(s) && |s.sessions| <= DISTINCT_TOKENS && k < |s.sessions|
    requires n <= |s.delivered|
    ensures Collect(ToSerial(k), s.delivered[..n])
         == Collect(ResponseWith(s.sessions[k].token), Collect(ResponseOf, s.delivered[..n]))
  {
    if n != 0 {
      var init, d := s.delivered[..n - 1], s.delivered[n - 1];
      BySerialIsByToken(s, k, n - 1);
      assert s.delivered[..n] == init + [d];
      CollectSnoc(ToSerial(k), init, d);
      CollectSnoc(ResponseOf, init, d);
      CollectSnoc(ResponseWith(s.sessions[k].token), Collect(ResponseOf, init), d.response);
      if d.serial != k {
        OtherTokens(s, d.serial, k);
      }
    }
  }

  /** The stub answers an order, and nothing else, under the order's own token. */
  lemma {:induction false} StubKeepsToken(cmds: seq<EngineCommand>, token: SessionToken)
    ensures Collect(ResponseWith(token), Collect(Stub, cmds)) == Collect(Stub, Collect(OrderWith(token), cmds))
  {
    if cmds != [] {
      var init, last := cmds[..|cmds| - 1], cmds[|cmds| - 1];
      StubKeepsToken(init, token);
      if Stub(last).Some? {
        CollectSnoc(ResponseWith(token), Collect(Stub, init), Stub(last).value);
        if last.session == token {
          CollectSnoc(Stub, Collect(OrderWith(token), init), last);
        }
      }
    }
  }

  lemma HandledArePushed(s: State)
    requires Conserved(s)
    ensures Sub(s.handled, s.cmds.pushed)
  {
    SubPrefix(s.cmds.pushed, |s.handled|);
    assert s.cmds.pushed[..|s.handled|] == s.handled;
  }

  /**
   * Main theorem of the pipeline. In any reachable state, for fewer than 2^42 accepts: what the k-th
   * connection was sent is, in order and at most once each, among the stub's answers to its own
   * in-sequence order messages. It never receives another connection's response.
   */
  lemma ResponsesReachTheirSession(s: State, k: nat)
    requires Inv(s) && |s.sessions| <= DISTINCT_TOKENS && k < |s.sessions|
    ensures Sub(DeliveredTo(s, k), Collect(Stub, CommandsFor(s.sessions[k])))
  {
    var token := s.sessions[k].token;
    var sent, popped := Collect(ResponseOf, s.delivered), s.rsps.pushed[..Done(s)];
    BySerialIsByToken(s, k, |s.delivered|);
    assert s.delivered[..|s.delivered|] == s.delivered;
    SubPrefix(s.rsps.pushed, Done(s));
    SubTrans(sent, popped, s.rsps.pushed);
    SubTrans(sent, s.rsps.pushed, Collect(Stub, s.handled));
    HandledArePushed(s);
    SubCollect(Stub, s.handled, s.cmds.pushed);
    SubTrans(sent, Collect(Stub, s.handled), Collect(Stub, s.cmds.pushed));
    SubCollect(ResponseWith(token), sent, Collect(Stub, s.cmds.pushed));
    StubKeepsToken(s.cmds.pushed, token);
    assert Asked(s.sessions[k], s.cmds.pushed);
    SubCollect(Stub, Collect(OrderWith(token), s.cmds.pushed), CommandsFor(s.sessions[k]));
    SubTrans(DeliveredTo(s, k), Collect(Stub, Collect(OrderWith(token), s.cmds.pushed)),
             Collect(Stub, CommandsFor(s.sessions[k])));
  }

  /**
   * The messages the answers come from, for every connection, open or closed: they are the frames of
   * the bytes it sent, as far as those were parsed, and between two reads all of them, up to a bad
   * frame, unless a Logout came. The sequence filter counts 1, 2, 3, ...
   */
  lemma MessagesAreTheStream(s: State, k: nat)
    requires Logs(s) && Buffers(s) && k < |s.sessions|
    ensures var log := s.sessions[k]; var parsed := FRAME_SIZE * |log.messages|;
      && parsed <= |log.bytes|
      && Split(DecodeFrame, log.bytes) == log.messages + Split(DecodeFrame, log.bytes[parsed..])
      && (!Serving(s, k) && !LoggedOut(log.messages) ==> log.messages == Split(DecodeFrame, log.bytes))
      && Session.Run(0, log.messages).expected == (|Session.Kept(0, log.messages)| + 1) % WORD
  {
    var log := s.sessions[k];
    FaithfulSplits(DecodeFrame, Progress(ParserOf(log), log.messages));
    Session.KeptAreNumbered(0, log.messages);
    assert Serving(s, k) || ParsedUp(log);
  }

  /** And an open connection stands exactly where its log says. */
  lemma ConnectionIsItsLog(s: State, fd: int)
    requires Logs(s) && fd in s.table.connections && fd in s.serials
    ensures s.serials[fd] < |s.sessions|
    ensures var conn, log := s.table.connections[fd], s.sessions[s.serials[fd]];
      && conn.parser == Stream(log.bytes, FRAME_SIZE * |log.messages|) && conn.token == log.token
      && conn.expectedSequence == Session.Run(0, log.messages).expected
  {
    assert LogOk(s.table.connections[fd], s.sessions, s.serials, fd);
  }

  // ------------------------------ the buffer never overflows ------------------------------

  /** Without a bad frame or an in-sequence Logout, the next read always fits the parser. */
  lemma NoOverflow(s: State, fd: int, bytes: seq<Byte>)
    requires Inv(s) && s.gpc.Waiting? && fd in s.table.connections && 1 <= |bytes| <= READ_SIZE
    requires StatusOf(DecodeFrame, Unread(s.table.connections[fd].parser)) != ProtocolError
    requires !LoggedOut(s.sessions[s.serials[fd]].messages)
    ensures Enabled(s, Receive(fd, bytes))
    ensures |Unread(s.table.connections[fd].parser)| < FRAME_SIZE
  {
    ConnectionIsItsLog(s, fd);
    assert Serving(s, s.serials[fd]) || ParsedUp(s.sessions[s.serials[fd]]);
  }

  /** A connection of the state has sent a bad frame, not yet passed, or an in-sequence Logout. */
  ghost predicate BadOrLoggedOut(s: State, fd: int) {
    && fd in s.table.connections && ValidStream(s.table.connections[fd].parser)
    && fd in s.serials && s.serials[fd] < |s.sessions|
    && (StatusOf(DecodeFrame, Unread(s.table.connections[fd].parser)) == ProtocolError
        || LoggedOut(s.sessions[s.serials[fd]].messages))
  }

  lemma OverflowCause(s: State, l: Label)
    requires Inv(s) && Enabled(s, l) && l.Overflow?
    ensures BadOrLoggedOut(s, l.fd)
  {
    if StatusOf(DecodeFrame, Unread(s.table.connections[l.fd].parser)) != ProtocolError
       && !LoggedOut(s.sessions[s.serials[l.fd]].messages) {
      NoOverflow(s, l.fd, l.bytes);
    }
  }

  /** So in any run, a connection closed for a full buffer had sent a bad frame or a Logout before. */
  lemma OverflowHasCause(ss: seq<State>, ls: seq<Label>, i: nat)
    requires Run(ss, ls) && i < |ls| && ls[i].Overflow?
    ensures BadOrLoggedOut(ss[i], ls[i].fd)
  {
    RunFollows(ss, ls, i);
    OverflowCause(ss[i], ls[i]);
  }

  // ------------------------------ a protocol error silences a connection ------------------------------

  /** The k-th connection is closed, or stuck at a bad frame. */
  ghost predicate Silent(s: State, k: nat) {
    && k < |s.sessions|
    && forall fd :: fd in s.serials && s.serials[fd] == k ==> Stuck(s, fd)
  }

  /** No message of the k-th connection was decoded between the two. */
  predicate SameMessages(s: State, s': State, k: nat) {
    && k < |s.sessions| && k < |s'.sessions|
    && s'.sessions[k].token == s.sessions[k].token && s'.sessions[k].messages == s.sessions[k].messages
  }

  ghost predicate Stuck(s: State, fd: int) {
    && fd in s.table.connections && ValidStream(s.table.connections[fd].parser)
    && StatusOf(DecodeFrame, Unread(s.table.connections[fd].parser)) == ProtocolError
  }

  lemma ReceiveStuck(s: State, fd: int, bytes: seq<Byte>)
    requires Basic(s) && Enabled(s, Receive(fd, bytes)) && Stuck(s, fd)
    ensures Stuck(Apply(s, Receive(fd, bytes)), fd)
  {
    var conn := s.table.connections[fd];
    ErrorStays(DecodeFrame, PARSER_CAPACITY, Progress(conn.parser, []), Append(bytes));
  }

  lemma ReceiveSilent(s: State, fd: int, bytes: seq<Byte>, k: nat)
    requires Basic(s) && Enabled(s, Receive(fd, bytes)) && Silent(s, k)
    ensures Silent(Apply(s, Receive(fd, bytes)), k) && SameMessages(s, Apply(s, Receive(fd, bytes)), k)
  {
    if s.serials[fd] == k {
      assert Stuck(s, fd);
      ReceiveStuck(s, fd, bytes);
    }
    forall f | f in s.serials && s.serials[f] == k && f != fd
      ensures Stuck(Apply(s, Receive(fd, bytes)), f)
    {
      assert Stuck(s, f);
    }
  }

  /** A round on a stuck connection finds nothing. */
  lemma StuckIsQuiet(s: State, fd: int)
    requires Stuck(s, fd)
    ensures ParseOne(s.table.connections[fd]) == (s.table.connections[fd], Quiet(true))
  {
  }

  lemma ParseSilent(s: State, e: F.Event<EngineCommand>, q: F.Fifo<EngineCommand>, k: nat)
    requires Basic(s) && Enabled(s, ParseRound(e, q)) && Silent(s, k)
    ensures Silent(Apply(s, ParseRound(e, q)), k)
    ensures Apply(s, ParseRound(e, q)).sessions[k] == s.sessions[k]
  {
    var fd := s.gpc.fd;
    if s.serials[fd] == k {
      StuckIsQuiet(s, fd);
    }
    forall f | f in s.serials && s.serials[f] == k && f != fd
      ensures Stuck(Apply(s, ParseRound(e, q)), f)
    {
      assert Stuck(s, f);
    }
  }

  /** Steps that read no bytes of it and parse none. */
  lemma StillSilent(s: State, s': State, k: nat)
    requires Silent(s, k) && k < |s'.sessions|
    requires forall fd :: fd in s'.serials && s'.serials[fd] == k ==>
               fd in s.serials && s.serials[fd] == k
               && fd in s'.table.connections && fd in s.table.connections
               && s'.table.connections[fd] == s.table.connections[fd]
    ensures Silent(s', k)
  {
    forall fd | fd in s'.serials && s'.serials[fd] == k
      ensures Stuck(s', fd)
    {
      assert Stuck(s, fd);
    }
  }

  lemma SendSilent(s: State, sendOk: bool, e: F.Event<EngineCommand>, q: F.Fifo<EngineCommand>, k: nat)
    requires Basic(s) && Enabled(s, Send(sendOk, e, q)) && Silent(s, k)
    ensures Silent(Apply(s, Send(sendOk, e, q)), k)
    ensures Apply(s, Send(sendOk, e, q)).sessions == s.sessions
  {
    StillSilent(s, Apply(s, Send(sendOk, e, q)), k);
  }

  lemma SilentStep(s: State, l: Label, k: nat)
    requires Basic(s) && Enabled(s, l) && Silent(s, k)
    ensures Silent(Apply(s, l), k)
    ensures SameMessages(s, Apply(s, l), k)
  {
    match l {
      case Accept(_) => StillSilent(s, Apply(s, l), k);
      case Receive(fd, bytes) => ReceiveSilent(s, fd, bytes, k);
      case Overflow(_, _, _, _) => StillSilent(s, Apply(s, l), k);
      case Hangup(_, _, _) => StillSilent(s, Apply(s, l), k);
      case ParseRound(e, q) => ParseSilent(s, e, q, k);
      case Send(sendOk, e, q) => SendSilent(s, sendOk, e, q, k);
      case _ =>
        TableKept(s, l);
        StillSilent(s, Apply(s, l), k);
    }
  }

  lemma ParsePushesOwn(s: State, l: Label, k: nat)
    requires Basic(s) && Accepts(s) && Enabled(s, l) && l.ParseRound? && l.ce.Pushed?
    requires |s.sessions| <= DISTINCT_TOKENS && Silent(s, k)
    ensures l.ce.value.session != s.sessions[k].token
  {
    var fd := s.gpc.fd;
    var mine := s.serials[fd];
    if mine == k {
      StuckIsQuiet(s, fd);
    } else {
      OtherTokens(s, mine, k);
      DispatchToken(s.table.connections[fd]);
    }
  }

  /** No step pushes an order for a silent connection. */
  lemma SilentPushesNothing(s: State, l: Label, k: nat)
    requires Basic(s) && Accepts(s) && Enabled(s, l) && Silent(s, k) && |s.sessions| <= DISTINCT_TOKENS
    ensures Collect(OrderWith(s.sessions[k].token), Apply(s, l).cmds.pushed)
         == Collect(OrderWith(s.sessions[k].token), s.cmds.pushed)
  {
    var token := s.sessions[k].token;
    if l.ParseRound? {
      if l.ce.Pushed? {
        ParsePushesOwn(s, l, k);
        CollectSnoc(OrderWith(token), s.cmds.pushed, l.ce.value);
      }
    } else {
      CommandsPushed(s, l);
      if CommandEvent(l).Pushed? {
        CollectSnoc(OrderWith(token), s.cmds.pushed, CommandEvent(l).value);
      }
    }
  }

  /** From s to s' the k-th connection stayed silent, decoded no message and got no order pushed. */
  ghost predicate Quieted(s: State, s': State, k: nat) {
    && Silent(s, k) && Silent(s', k) && SameMessages(s, s', k)
    && Collect(OrderWith(s.sessions[k].token), s'.cmds.pushed)
       == Collect(OrderWith(s.sessions[k].token), s.cmds.pushed)
  }

  ghost predicate StepGrows(s: State, s': State) {
    |s.sessions| <= |s'.sessions|
  }

  lemma FollowsGrows(s: State, l: Label, s': State)
    requires Follows(s, l, s')
    ensures StepGrows(s, s')
  {
    LogsGrow(s, l);
  }

  lemma {:induction false} GrowsAlong(ss: seq<State>, n: nat, m: nat)
    requires n <= m < |ss| && forall i :: n <= i < m ==> StepGrows(ss[i], ss[i + 1])
    ensures StepGrows(ss[n], ss[m])
  {
    if n < m {
      GrowsAlong(ss, n, m - 1);
      assert StepGrows(ss[m - 1], ss[m - 1 + 1]);
    }
  }

  lemma SessionsGrow(ss: seq<State>, ls: seq<Label>, n: nat, m: nat)
    requires Run(ss, ls) && n <= m <= |ls|
    ensures |ss[n].sessions| <= |ss[m].sessions|
  {
    forall i | n <= i < m
      ensures StepGrows(ss[i], ss[i + 1])
    {
      FollowsGrows(ss[i], ls[i], ss[i + 1]);
    }
    GrowsAlong(ss, n, m);
  }

  lemma FollowsQuieted(s: State, l: Label, s': State, k: nat)
    requires Inv(s) && Follows(s, l, s') && |s.sessions| <= DISTINCT_TOKENS && Silent(s, k)
    ensures Quieted(s, s', k)
  {
    SilentStep(s, l, k);
    SilentPushesNothing(s, l, k);
  }

  lemma SilentAt(ss: seq<State>, ls: seq<Label>, n: nat, m: nat, k: nat)
    requires Run(ss, ls) && n < m <= |ls| && |ss[m].sessions| <= DISTINCT_TOKENS
    ensures Silent(ss[n], k) ==> Quieted(ss[n], ss[n + 1], k)
  {
    SessionsGrow(ss, ls, n, m);
    RunFollows(ss, ls, n);
    if Silent(ss[n], k) {
      FollowsQuieted(ss[n], ls[n], ss[n + 1], k);
    }
  }

  lemma QuietedTrans(s: State, s': State, s'': State, k: nat)
    requires Quieted(s, s', k) && Quieted(s', s'', k)
    ensures Quieted(s, s'', k)
  {
  }

  lemma {:induction false} QuietedAlong(ss: seq<State>, n: nat, m: nat, k: nat)
    requires n <= m < |ss| && Silent(ss[n], k)
    requires forall i :: n <= i < m ==> Silent(ss[i], k) ==> Quieted(ss[i], ss[i + 1], k)
    ensures Quieted(ss[n], ss[m], k)
  {
    if n < m {
      QuietedAlong(ss, n, m - 1, k);
      QuietedTrans(ss[n], ss[m - 1], ss[m], k);
    }
  }

  /**
   * Once a connection has met a bad frame (or is closed), no continuation of the run decodes another
   * message of it or pushes another order for it.
   */
  lemma ErrorSilences(ss: seq<State>, ls: seq<Label>, n: nat, m: nat, k: nat)
    requires Run(ss, ls) && n <= m <= |ls| && |ss[m].sessions| <= DISTINCT_TOKENS && Silent(ss[n], k)
    ensures Quieted(ss[n], ss[m], k)
  {
    forall i | n <= i < m
      ensures Silent(ss[i], k) ==> Quieted(ss[i], ss[i + 1], k)
    {
      SilentAt(ss, ls, i, m, k);
    }
    QuietedAlong(ss, n, m, k);
  }

  // ------------------------------ how a connection ends ------------------------------

  /** A failed send of the response in hand, to this descriptor. */
  predicate SendFails(s: State, l: Label, fd: int)
    requires |s.table.slots| == MAX_SLOTS
  {
    l.Send? && !l.sendOk && s.gpc.Delivering? && s.gpc.response.session.slot < MAX_SLOTS
    && Route(s.table, s.gpc.response) == Some(fd)
  }

  /**
   * A connection leaves the table exactly at a full buffer, at a hangup or at a failed send; so no
   * round of the parse loop closes it, whatever it decodes: not a bad frame, and not a Logout.
   */
  lemma LeavesTableIff(s: State, l: Label, fd: int)
    requires Basic(s) && Enabled(s, l) && fd in s.table.connections
    ensures fd !in Apply(s, l).table.connections
       <==> (l.Overflow? && l.fd == fd) || (l.Hangup? && l.fd == fd) || SendFails(s, l, fd)
  {
    if l.Send? {
      SendLeaves(s, l, fd);
    }
  }

  lemma SendLeaves(s: State, l: Label, fd: int)
    requires Basic(s) && Enabled(s, l) && l.Send? && fd in s.table.connections
    ensures fd !in Apply(s, l).table.connections <==> SendFails(s, l, fd)
  {
  }

  // ------------------------------ routing completeness over runs ------------------------------

  lemma RoutableStep(s: State, l: Label)
    requires Basic(s) && Enabled(s, l) && AllRoutable(s.table)
    ensures AllRoutable(Apply(s, l).table) <==> !(l.Accept? && NextSlotHeld(s.table))
  {
    match l {
      case Accept(fd) => AcceptRoutableIff(s.table, fd);
      case Overflow(fd, _, _, _) => CloseKeepsRoutable(s.table, fd);
      case Hangup(fd, _, _) => CloseKeepsRoutable(s.table, fd);
      case Send(_, _, _) =>
        var r := Route(s.table, s.gpc.response);
        if r.Some? {
          CloseKeepsRoutable(s.table, r.value);
        }
      case Receive(fd, bytes) =>
        var conn := s.table.connections[fd];
        ReplaceRoutable(s.table, fd, conn.(parser := AfterAppend(PARSER_CAPACITY, conn.parser, bytes)));
      case ParseRound(_, _) =>
        var conn := s.table.connections[s.gpc.fd];
        ParseOneConsumes(conn);
        ReplaceRoutable(s.table, s.gpc.fd, ParseOne(conn).0);
      case _ =>
    }
  }

  lemma ReplaceRoutable(t: Table, fd: int, conn: Connection)
    requires AllRoutable(t) && fd in t.connections && conn.token == t.connections[fd].token
    ensures AllRoutable(Replaced(t, fd, conn))
  {
  }

  lemma FollowsRoutable(s: State, l: Label, s': State)
    requires Follows(s, l, s') && AllRoutable(s.table)
    ensures AllRoutable(s'.table) <==> !(l.Accept? && NextSlotHeld(s.table))
  {
    RoutableStep(s, l);
  }

  ghost predicate AllReachable(s: State) {
    AllRoutable(s.table)
  }

  lemma StaysRoutable(ss: seq<State>, ls: seq<Label>, n: nat)
    requires Run(ss, ls) && n < |ss|
    requires forall i :: 0 <= i < |ls| && ls[i].Accept? ==> !NextSlotHeld(ss[i].table)
    ensures AllRoutable(ss[n].table)
  {
    forall i | 0 <= i < n
      ensures AllReachable(ss[i]) ==> AllReachable(ss[i + 1])
    {
      if AllReachable(ss[i]) {
        FollowsRoutable(ss[i], ls[i], ss[i + 1]);
      }
    }
    Along(AllReachable, ss, n);
  }

  /**
   * Exactly when responses can always be routed: every open connection stays reachable through its
   * token in all states of a run if and only if no accept took a slot that was still held.
   */
  lemma RoutableIff(ss: seq<State>, ls: seq<Label>)
    requires Run(ss, ls)
    ensures (forall n :: 0 <= n < |ss| ==> AllRoutable(ss[n].table))
       <==> (forall i :: 0 <= i < |ls| && ls[i].Accept? ==> !NextSlotHeld(ss[i].table))
  {
    if forall n :: 0 <= n < |ss| ==> AllRoutable(ss[n].table) {
      forall i | 0 <= i < |ls| && ls[i].Accept?
        ensures !NextSlotHeld(ss[i].table)
      {
        assert AllRoutable(ss[i].table) && AllRoutable(ss[i + 1].table);
        FollowsRoutable(ss[i], ls[i], ss[i + 1]);
      }
    }
    if forall i :: 0 <= i < |ls| && ls[i].Accept? ==> !NextSlotHeld(ss[i].table) {
      forall n | 0 <= n < |ss|
        ensures AllRoutable(ss[n].table)
      {
        StaysRoutable(ss, ls, n);
      }
    }
  }

  /** Then no response to an open connection is discarded: it is sent, or the send itself fails. */
  lemma RoutableIsSent(s: State, l: Label, fd: int)
    requires Basic(s) && AllRoutable(s.table) && Enabled(s, l) && l.Send?
    requires fd in s.table.connections && s.table.connections[fd].token == s.gpc.response.session
    ensures l.sendOk ==> Apply(s, l).delivered == s.delivered + [Delivery(s.serials[fd], s.gpc.response)]
    ensures !l.sendOk ==> fd !in Apply(s, l).table.connections
  {
    assert Routable(s.table, fd);
  }

  // ------------------------------ the run theorem ------------------------------

  /** What holds in every state of every run of the two threads. */
  lemma RunsAreSafe(ss: seq<State>, ls: seq<Label>, n: nat)
    requires Run(ss, ls) && n <= |ls|
    ensures var s := ss[n];
      && Conserved(s) && s.rsps.popped <= |s.rsps.pushed|
      && (F.Queue(s.rsps) != [] ==> 0 < s.eventfd || s.epc.Notifying? || s.gpc.Draining? || s.gpc.Delivering?)
      && (forall k :: 0 <= k < |s.sessions| ==> s.sessions[k].token == TokenOf(k))
      && (|s.sessions| <= DISTINCT_TOKENS ==> forall k :: 0 <= k < |s.sessions| ==>
            Sub(DeliveredTo(s, k), Collect(Stub, CommandsFor(s.sessions[k]))))
  {
    RunInv(ss, ls, n);
    var s := ss[n];
    if F.Queue(s.rsps) != [] {
      NoLostWakeup(s);
    }
    if |s.sessions| <= DISTINCT_TOKENS {
      forall k | 0 <= k < |s.sessions|
        ensures Sub(DeliveredTo(s, k), Collect(Stub, CommandsFor(s.sessions[k])))
      {
        ResponsesReachTheirSession(s, k);
      }
    }
  }
}
