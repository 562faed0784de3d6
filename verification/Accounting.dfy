/**
 * Where every order goes. In any run of the two threads, for each session by itself: its in-sequence
 * orders are those answered to it, those on their way, and one for each step that lost one.
 */
module Accounting {
  import opened LittleEndian
  import opened Frames
  import opened Subsequences
  import opened Gateway
  import opened Protocol

  /** How an order of a session is lost: its push fails, the push of its answer fails, the answer is not sent. */
  datatype Cause = OrderRefused | AnswerRefused | NotSent

  /** Step `l` loses one order of the k-th connection. */
  predicate Loses(s: State, l: Label, k: nat, cause: Cause) {
    k < |s.sessions|
    && match cause
       case OrderRefused =>
         l.ParseRound? && l.ce.PushFailed? && s.gpc.Parsing? && s.gpc.fd in s.serials && s.serials[s.gpc.fd] == k
       case AnswerRefused =>
         l.Answer? && l.re.PushFailed? && s.epc.Holding? && s.epc.command.session == s.sessions[k].token
       case NotSent =>
         l.Send? && s.gpc.Delivering? && s.gpc.response.session == s.sessions[k].token && NotDelivered(s, l)
  }

  predicate NotDelivered(s: State, l: Label)
    requires l.Send? && s.gpc.Delivering?
  {
    |s.table.slots| == MAX_SLOTS && s.gpc.response.session.slot < MAX_SLOTS
    && (!l.sendOk || Route(s.table, s.gpc.response).None?)
  }

  /** The k-th connection is open and its slot still leads to it. */
  ghost predicate Reachable(s: State, k: nat) {
    exists fd :: fd in s.serials && s.serials[fd] == k && Routable(s.table, fd)
  }

  /** A popped response is lost exactly if its session is gone or cut off, or if the send fails. */
  lemma NotSentIff(s: State, l: Label, k: nat)
    requires Inv(s) && Enabled(s, l) && l.Send? && k < |s.sessions| && |s.sessions| <= DISTINCT_TOKENS
    requires s.gpc.response.session == s.sessions[k].token
    ensures Loses(s, l, k, NotSent) <==> !(l.sendOk && Reachable(s, k))
  {
    var r := Route(s.table, s.gpc.response);
    if r.Some? {
      RoutingIsSafe(s.table, s.gpc.response);
      HolderIs(s, r.value, k);
      assert Routable(s.table, r.value);
    }
  }

  /** The open connection that holds the k-th token is the k-th. */
  lemma HolderIs(s: State, fd: int, k: nat)
    requires Basic(s) && Accepts(s) && |s.sessions| <= DISTINCT_TOKENS && k < |s.sessions|
    requires fd in s.table.connections && s.table.connections[fd].token == s.sessions[k].token
    ensures fd in s.serials && s.serials[fd] == k
  {
    if s.serials[fd] != k {
      OtherTokens(s, s.serials[fd], k);
    }
  }

  // ------------------------------ where the orders are ------------------------------

  function Token(s: State, k: nat): SessionToken
    requires k < |s.sessions|
  {
    s.sessions[k].token
  }

  /** The orders of the k-th connection in the engine's hand or in the command queue. */
  function OrdersInFlight(s: State, k: nat): seq<EngineCommand>
    requires k < |s.sessions| && s.cmds.popped <= |s.cmds.pushed|
  {
    Collect(OrderWith(Token(s, k)), InHand(s) + F.Queue(s.cmds))
  }

  /** The answers to it in the gateway's hand or in the response queue. */
  function AnswersInFlight(s: State, k: nat): seq<EngineResponse>
    requires k < |s.sessions| && 0 <= Done(s) <= |s.rsps.pushed|
  {
    Collect(ResponseWith(Token(s, k)), s.rsps.pushed[Done(s)..])
  }

  function OrdersPushed(s: State, k: nat): seq<EngineCommand>
    requires k < |s.sessions|
  {
    Collect(OrderWith(Token(s, k)), s.cmds.pushed)
  }

  function OrdersHandled(s: State, k: nat): seq<EngineCommand>
    requires k < |s.sessions|
  {
    Collect(OrderWith(Token(s, k)), s.handled)
  }

  function AnswersPushed(s: State, k: nat): seq<EngineResponse>
    requires k < |s.sessions|
  {
    Collect(ResponseWith(Token(s, k)), s.rsps.pushed)
  }

  function AnswersDone(s: State, k: nat): seq<EngineResponse>
    requires k < |s.sessions| && 0 <= Done(s) <= |s.rsps.pushed|
  {
    Collect(ResponseWith(Token(s, k)), s.rsps.pushed[..Done(s)])
  }

  /** How many of its orders the k-th connection lost so far, told from the state; 0 before it is accepted. */
  function Lost(s: State, k: nat, cause: Cause): int {
    if |s.sessions| <= k || !(0 <= Done(s) <= |s.rsps.pushed|) then 0
    else
      match cause
      case OrderRefused => |CommandsFor(s.sessions[k])| - |OrdersPushed(s, k)|
      case AnswerRefused => |OrdersHandled(s, k)| - |AnswersPushed(s, k)|
      case NotSent => |AnswersDone(s, k)| - |DeliveredTo(s, k)|
  }

  // ------------------------------ one step ------------------------------

  /** A message of the connection, and its command pushed, refused or none. */
  lemma OwnMessage(log: SessionLog, msg: DecodedMessage, pushed: seq<EngineCommand>, pushed': seq<EngineCommand>)
    requires var asks := Session.InSequence(Session.Run(0, log.messages), msg) && IsOrderKind(msg.kind);
      pushed' == pushed || (asks && pushed' == pushed + [CommandOf(log.token, msg)])
    ensures var asks := Session.InSequence(Session.Run(0, log.messages), msg) && IsOrderKind(msg.kind);
      |CommandsFor(WithMessage(log, msg))| - |Collect(OrderWith(log.token), pushed')|
      == |CommandsFor(log)| - |Collect(OrderWith(log.token), pushed)| + One(asks && pushed' == pushed)
  {
    CommandsForSnoc(log, msg);
    OneCommand(log.token, pushed, CommandOf(log.token, msg));
  }

  /** What the round of the parse loop makes of the logs and the queue. */
  lemma ParseMoves(s: State, e: F.Event<EngineCommand>, q: F.Fifo<EngineCommand>)
    requires Basic(s) && Logs(s) && Enabled(s, ParseRound(e, q)) && !ParseOne(s.table.connections[s.gpc.fd]).1.Quiet?
    ensures s.serials[s.gpc.fd] < |s.sessions|
    ensures var s', conn, mine := Apply(s, ParseRound(e, q)), s.table.connections[s.gpc.fd], s.serials[s.gpc.fd];
      var msg, log := MessageAt(conn.parser), s.sessions[mine];
      && s'.sessions == s.sessions[mine := WithMessage(log, msg)]
      && (ParseOne(conn).1.Command? <==> Session.InSequence(Session.Run(0, log.messages), msg) && IsOrderKind(msg.kind))
      && s'.cmds.pushed == (if e.Pushed? then s.cmds.pushed + [CommandOf(log.token, msg)] else s.cmds.pushed)
      && (e.Pushed? || e.PushFailed? <==> ParseOne(conn).1.Command?)
  {
    var conn, mine := s.table.connections[s.gpc.fd], s.serials[s.gpc.fd];
    assert LogOk(conn, s.sessions, s.serials, s.gpc.fd);
    ConnParses(conn, s.sessions[mine]);
    CommandIffOrder(conn, s.sessions[mine]);
  }

  lemma QuietMoves(s: State, e: F.Event<EngineCommand>, q: F.Fifo<EngineCommand>)
    requires Basic(s) && Enabled(s, ParseRound(e, q)) && ParseOne(s.table.connections[s.gpc.fd]).1.Quiet?
    ensures var s' := Apply(s, ParseRound(e, q)); s'.sessions == s.sessions && s'.cmds == s.cmds && e.Silent?
  {
  }

  /** The command of a round on another connection carries another token. */
  lemma PushedElsewhere(s: State, e: F.Event<EngineCommand>, q: F.Fifo<EngineCommand>, k: nat)
    requires Inv(s) && Enabled(s, ParseRound(e, q)) && k < |s.sessions| && |s.sessions| <= DISTINCT_TOKENS
    requires s.serials[s.gpc.fd] != k && e.Pushed?
    ensures e.value.session != Token(s, k)
  {
    DispatchToken(s.table.connections[s.gpc.fd]);
    OtherTokens(s, k, s.serials[s.gpc.fd]);
  }

  lemma LogElsewhere(s: State, e: F.Event<EngineCommand>, q: F.Fifo<EngineCommand>, k: nat)
    requires Basic(s) && Enabled(s, ParseRound(e, q)) && k < |s.sessions| && s.serials[s.gpc.fd] != k
    ensures var s' := Apply(s, ParseRound(e, q)); k < |s'.sessions| && s'.sessions[k] == s.sessions[k]
  {
    ParseGrows(s, e, q);
  }

  /** A round on another connection. */
  lemma ParseElsewhere(s: State, e: F.Event<EngineCommand>, q: F.Fifo<EngineCommand>, k: nat)
    requires Inv(s) && Enabled(s, ParseRound(e, q)) && k < |s.sessions| && |s.sessions| <= DISTINCT_TOKENS
    requires s.serials[s.gpc.fd] != k
    ensures var s' := Apply(s, ParseRound(e, q));
      k < |s'.sessions| && s'.sessions[k] == s.sessions[k] && |OrdersPushed(s', k)| == |OrdersPushed(s, k)|
  {
    LogElsewhere(s, e, q, k);
    CommandsPushed(s, ParseRound(e, q));
    if e.Pushed? {
      PushedElsewhere(s, e, q, k);
      OneCommand(Token(s, k), s.cmds.pushed, e.value);
    }
  }

  lemma ParseHere(s: State, e: F.Event<EngineCommand>, q: F.Fifo<EngineCommand>, k: nat)
    requires Inv(s) && Enabled(s, ParseRound(e, q)) && k < |s.sessions| && s.serials[s.gpc.fd] == k
    ensures var s' := Apply(s, ParseRound(e, q));
      && k < |s'.sessions| && s'.sessions[k].token == s.sessions[k].token
      && |CommandsFor(s'.sessions[k])| - |OrdersPushed(s', k)|
         == |CommandsFor(s.sessions[k])| - |OrdersPushed(s, k)| + One(e.PushFailed?)
  {
    var conn := s.table.connections[s.gpc.fd];
    if ParseOne(conn).1.Quiet? {
      QuietMoves(s, e, q);
    } else {
      ParseMoves(s, e, q);
      OwnMessage(s.sessions[k], MessageAt(conn.parser), s.cmds.pushed, Apply(s, ParseRound(e, q)).cmds.pushed);
    }
  }

  lemma ParseLoses(s: State, e: F.Event<EngineCommand>, q: F.Fifo<EngineCommand>, k: nat)
    requires Inv(s) && Enabled(s, ParseRound(e, q)) && k < |s.sessions| && |s.sessions| <= DISTINCT_TOKENS
    ensures var s' := Apply(s, ParseRound(e, q));
      && k < |s'.sessions| && s'.sessions[k].token == s.sessions[k].token
      && |CommandsFor(s'.sessions[k])| - |OrdersPushed(s', k)|
         == |CommandsFor(s.sessions[k])| - |OrdersPushed(s, k)| + One(Loses(s, ParseRound(e, q), k, OrderRefused))
  {
    if s.serials[s.gpc.fd] == k {
      ParseHere(s, e, q, k);
    } else {
      ParseElsewhere(s, e, q, k);
    }
  }

  /** Steps that parse nothing push no orders. */
  lemma NoOrder(s: State, s': State, e: F.Event<EngineCommand>, k: nat)
    requires k < |s.sessions| && k < |s'.sessions| && s'.sessions[k].token == s.sessions[k].token
    requires s'.sessions[k].messages == s.sessions[k].messages
    requires s'.cmds.pushed == if e.Pushed? then s.cmds.pushed + [e.value] else s.cmds.pushed
    requires e.Pushed? ==> !IsOrder(e.value)
    ensures |CommandsFor(s'.sessions[k])| - |OrdersPushed(s', k)| == |CommandsFor(s.sessions[k])| - |OrdersPushed(s, k)|
  {
    if e.Pushed? {
      OneCommand(Token(s, k), s.cmds.pushed, e.value);
    }
  }

  lemma MessagesKept(s: State, l: Label, k: nat)
    requires Basic(s) && Enabled(s, l) && k < |s.sessions|
    ensures k < |Apply(s, l).sessions| && Apply(s, l).sessions[k].token == s.sessions[k].token
    ensures !l.ParseRound? ==> Apply(s, l).sessions[k].messages == s.sessions[k].messages
  {
    LogsGrow(s, l);
    if l.Receive? {
      ReceiveKeeps(s, l.fd, l.bytes, k);
    }
  }

  lemma ReceiveKeeps(s: State, fd: int, bytes: seq<Byte>, k: nat)
    requires Basic(s) && Enabled(s, Receive(fd, bytes)) && k < |s.sessions|
    ensures Apply(s, Receive(fd, bytes)).sessions[k].messages == s.sessions[k].messages
  {
  }

  lemma OrdersStep(s: State, l: Label, k: nat)
    requires Inv(s) && Enabled(s, l) && k < |s.sessions| && |s.sessions| <= DISTINCT_TOKENS
    ensures k < |Apply(s, l).sessions|
    ensures |CommandsFor(Apply(s, l).sessions[k])| - |OrdersPushed(Apply(s, l), k)|
         == |CommandsFor(s.sessions[k])| - |OrdersPushed(s, k)| + One(Loses(s, l, k, OrderRefused))
  {
    MessagesKept(s, l, k);
    if l.ParseRound? {
      ParseLoses(s, l.ce, l.cq, k);
    } else {
      CommandsPushed(s, l);
      NoOrder(s, Apply(s, l), CommandEvent(l), k);
    }
  }

  function One(b: bool): nat {
    if b then 1 else 0
  }

  lemma OneCommand(token: SessionToken, cmds: seq<EngineCommand>, cmd: EngineCommand)
    ensures |Collect(OrderWith(token), cmds + [cmd])|
         == |Collect(OrderWith(token), cmds)| + One(IsOrder(cmd) && cmd.session == token)
  {
    CollectSnoc(OrderWith(token), cmds, cmd);
  }

  lemma OneResponse(token: SessionToken, rsps: seq<EngineResponse>, rsp: EngineResponse)
    ensures |Collect(ResponseWith(token), rsps + [rsp])|
         == |Collect(ResponseWith(token), rsps)| + One(rsp.session == token)
  {
    CollectSnoc(ResponseWith(token), rsps, rsp);
  }

  lemma OneDelivery(k: nat, ds: seq<Delivery>, d: Delivery)
    ensures |Collect(ToSerial(k), ds + [d])| == |Collect(ToSerial(k), ds)| + One(d.serial == k)
  {
    CollectSnoc(ToSerial(k), ds, d);
  }

  lemma AnswerLoses(s: State, e: F.Event<EngineResponse>, q: F.Fifo<EngineResponse>, k: nat)
    requires Basic(s) && Enabled(s, Answer(e, q)) && k < |s.sessions|
    ensures var s' := Apply(s, Answer(e, q));
      && s'.sessions == s.sessions
      && |OrdersHandled(s', k)| - |AnswersPushed(s', k)|
         == |OrdersHandled(s, k)| - |AnswersPushed(s, k)| + One(Loses(s, Answer(e, q), k, AnswerRefused))
  {
    var cmd := s.epc.command;
    OneCommand(Token(s, k), s.handled, cmd);
    if e.Pushed? {
      OneResponse(Token(s, k), s.rsps.pushed, e.value);
    }
  }

  /** A Shutdown is handled when it is popped. */
  lemma PopHandles(s: State, e: F.Event<EngineCommand>, q: F.Fifo<EngineCommand>, k: nat)
    requires Basic(s) && Enabled(s, PopCommand(e, q)) && k < |s.sessions|
    ensures var s' := Apply(s, PopCommand(e, q));
      && s'.sessions == s.sessions && s'.rsps == s.rsps && OrdersHandled(s', k) == OrdersHandled(s, k)
  {
    if e.Popped? {
      CollectSnoc(OrderWith(Token(s, k)), s.handled, e.value);
    }
  }

  /** Only the engine handles commands and pushes responses. */
  lemma EngineAlone(s: State, l: Label)
    requires Basic(s) && Enabled(s, l)
    ensures l.Answer? || l.PopCommand? || (Apply(s, l).handled == s.handled && Apply(s, l).rsps.pushed == s.rsps.pushed)
  {
    match l {
      case Accept(_) =>
      case Receive(_, _) =>
      case Overflow(_, _, _, _) =>
      case Hangup(_, _, _) =>
      case ParseRound(_, _) =>
      case Send(sendOk, e, q) => SendEngine(s, sendOk, e, q);
      case _ =>
    }
  }

  lemma SendEngine(s: State, sendOk: bool, e: F.Event<EngineCommand>, q: F.Fifo<EngineCommand>)
    requires Basic(s) && Enabled(s, Send(sendOk, e, q))
    ensures var s' := Apply(s, Send(sendOk, e, q)); s'.handled == s.handled && s'.rsps == s.rsps
  {
  }

  lemma AnswersStep(s: State, l: Label, k: nat)
    requires Inv(s) && Enabled(s, l) && k < |s.sessions|
    ensures k < |Apply(s, l).sessions|
    ensures |OrdersHandled(Apply(s, l), k)| - |AnswersPushed(Apply(s, l), k)|
         == |OrdersHandled(s, k)| - |AnswersPushed(s, k)| + One(Loses(s, l, k, AnswerRefused))
  {
    MessagesKept(s, l, k);
    EngineAlone(s, l);
    if l.Answer? {
      AnswerLoses(s, l.re, l.rq, k);
    } else if l.PopCommand? {
      PopHandles(s, l.ce, l.cq, k);
    }
  }

  /** What one send delivers. */
  lemma SendDelivers(s: State, sendOk: bool, e: F.Event<EngineCommand>, q: F.Fifo<EngineCommand>, k: nat)
    requires Basic(s) && Accepts(s) && Enabled(s, Send(sendOk, e, q))
    requires k < |s.sessions| && |s.sessions| <= DISTINCT_TOKENS
    ensures var s' := Apply(s, Send(sendOk, e, q));
      |DeliveredTo(s', k)| == |DeliveredTo(s, k)|
        + One(s.gpc.response.session == Token(s, k) && !NotDelivered(s, Send(sendOk, e, q)))
  {
    var r := Route(s.table, s.gpc.response);
    if r.Some? && sendOk {
      RoutingIsSafe(s.table, s.gpc.response);
      HolderIs(s, r.value, s.serials[r.value]);
      if s.serials[r.value] != k {
        OtherTokens(s, s.serials[r.value], k);
      }
      OneDelivery(k, s.delivered, Delivery(s.serials[r.value], s.gpc.response));
    }
  }

  /** A send is done with the response in hand. */
  lemma SendIsDone(s: State, sendOk: bool, e: F.Event<EngineCommand>, q: F.Fifo<EngineCommand>)
    requires Basic(s) && Ordered(s) && Enabled(s, Send(sendOk, e, q))
    ensures var s' := Apply(s, Send(sendOk, e, q));
      && s'.sessions == s.sessions && Done(s') == Done(s) + 1 <= |s.rsps.pushed| && s'.rsps == s.rsps
      && s'.rsps.pushed[..Done(s')] == s.rsps.pushed[..Done(s)] + [s.gpc.response]
  {
    assert s.rsps.pushed[..Done(s) + 1] == s.rsps.pushed[..Done(s)] + [s.gpc.response];
  }

  lemma SendLoses(s: State, sendOk: bool, e: F.Event<EngineCommand>, q: F.Fifo<EngineCommand>, k: nat)
    requires Inv(s) && Enabled(s, Send(sendOk, e, q)) && k < |s.sessions| && |s.sessions| <= DISTINCT_TOKENS
    ensures var s' := Apply(s, Send(sendOk, e, q));
      && s'.sessions == s.sessions && 0 <= Done(s') <= |s'.rsps.pushed|
      && |AnswersDone(s', k)| - |DeliveredTo(s', k)|
         == |AnswersDone(s, k)| - |DeliveredTo(s, k)| + One(Loses(s, Send(sendOk, e, q), k, NotSent))
  {
    SendIsDone(s, sendOk, e, q);
    SendDelivers(s, sendOk, e, q, k);
    OneResponse(Token(s, k), s.rsps.pushed[..Done(s)], s.gpc.response);
  }

  /** `s'` is done with the same responses, and delivered the same. */
  ghost predicate SameDone(s: State, s': State) {
    Done(s') == Done(s) && s'.delivered == s.delivered && s.rsps.pushed <= s'.rsps.pushed
  }

  lemma PopDone(s: State, e: F.Event<EngineResponse>, q: F.Fifo<EngineResponse>)
    requires Basic(s) && Enabled(s, PopResponse(e, q))
    ensures SameDone(s, Apply(s, PopResponse(e, q)))
  {
  }

  lemma AnswerDone(s: State, e: F.Event<EngineResponse>, q: F.Fifo<EngineResponse>)
    requires Basic(s) && Enabled(s, Answer(e, q))
    ensures SameDone(s, Apply(s, Answer(e, q)))
  {
  }

  lemma ParseDone(s: State, e: F.Event<EngineCommand>, q: F.Fifo<EngineCommand>)
    requires Basic(s) && Enabled(s, ParseRound(e, q))
    ensures SameDone(s, Apply(s, ParseRound(e, q)))
  {
  }

  lemma PopCommandDone(s: State, e: F.Event<EngineCommand>, q: F.Fifo<EngineCommand>)
    requires Basic(s) && Enabled(s, PopCommand(e, q))
    ensures SameDone(s, Apply(s, PopCommand(e, q)))
  {
  }

  /** Only Send is done with a response. */
  lemma DoneKept(s: State, l: Label)
    requires Basic(s) && Enabled(s, l)
    ensures l.Send? || SameDone(s, Apply(s, l))
  {
    match l {
      case PopResponse(e, q) => PopDone(s, e, q);
      case Answer(e, q) => AnswerDone(s, e, q);
      case ParseRound(e, q) => ParseDone(s, e, q);
      case PopCommand(e, q) => PopCommandDone(s, e, q);
      case Send(_, _, _) =>
      case _ =>
    }
  }

  lemma SameDoneLost(s: State, s': State, k: nat)
    requires k < |s.sessions| && k < |s'.sessions| && s'.sessions[k].token == s.sessions[k].token
    requires 0 <= Done(s) <= |s.rsps.pushed| && SameDone(s, s')
    ensures AnswersDone(s', k) == AnswersDone(s, k) && DeliveredTo(s', k) == DeliveredTo(s, k)
  {
    assert s'.rsps.pushed[..Done(s)] == s.rsps.pushed[..Done(s)];
  }

  lemma SendsStep(s: State, l: Label, k: nat)
    requires Inv(s) && Enabled(s, l) && k < |s.sessions| && |s.sessions| <= DISTINCT_TOKENS
    ensures k < |Apply(s, l).sessions| && 0 <= Done(Apply(s, l)) <= |Apply(s, l).rsps.pushed|
    ensures |AnswersDone(Apply(s, l), k)| - |DeliveredTo(Apply(s, l), k)|
         == |AnswersDone(s, k)| - |DeliveredTo(s, k)| + One(Loses(s, l, k, NotSent))
  {
    if l.Send? {
      SendLoses(s, l.sendOk, l.ce, l.cq, k);
    } else {
      MessagesKept(s, l, k);
      DoneKept(s, l);
      SameDoneLost(s, Apply(s, l), k);
    }
  }

  /** Each step loses what it is said to lose, and nothing else. */
  lemma LostStep(s: State, l: Label, k: nat, cause: Cause)
    requires Inv(s) && Enabled(s, l) && k < |s.sessions| && |s.sessions| <= DISTINCT_TOKENS
    ensures Lost(Apply(s, l), k, cause) == Lost(s, k, cause) + One(Loses(s, l, k, cause))
  {
    SendsStep(s, l, k);
    match cause {
      case OrderRefused => OrdersStep(s, l, k);
      case AnswerRefused => AnswersStep(s, l, k);
      case NotSent =>
    }
  }

  // ------------------------------ a new connection ------------------------------

  lemma {:induction false} NoAnswers(rsps: seq<EngineResponse>, n: nat)
    requires n < DISTINCT_TOKENS && forall i :: 0 <= i < |rsps| ==> Issued(n, rsps[i].session)
    ensures Collect(ResponseWith(TokenOf(n)), rsps) == []
  {
    if rsps != [] {
      NoAnswers(rsps[..|rsps| - 1], n);
      assert Issued(n, rsps[|rsps| - 1].session);
      var k: nat :| k < n && rsps[|rsps| - 1].session == TokenOf(k);
      TokensDiffer(k, n);
    }
  }

  lemma {:induction false} NoDeliveries(ds: seq<Delivery>, n: nat)
    requires forall i :: 0 <= i < |ds| ==> ds[i].serial < n
    ensures Collect(ToSerial(n), ds) == []
  {
    if ds != [] {
      NoDeliveries(ds[..|ds| - 1], n);
    }
  }

  /** Nothing in the queues carries the token that the next accept gives out. */
  lemma NothingYet(s: State)
    requires Inv(s) && |s.sessions| < DISTINCT_TOKENS
    ensures var n := |s.sessions|; var token := TokenOf(n);
      && Collect(OrderWith(token), s.cmds.pushed) == [] && Collect(OrderWith(token), s.handled) == []
      && Collect(ResponseWith(token), s.rsps.pushed) == []
      && Collect(ResponseWith(token), s.rsps.pushed[..Done(s)]) == []
      && Collect(ToSerial(n), s.delivered) == []
  {
    var n := |s.sessions|;
    UnissuedToken(n, s.cmds.pushed);
    HandledArePushed(s);
    SubCollect(OrderWith(TokenOf(n)), s.handled, s.cmds.pushed);
    NoAnswers(s.rsps.pushed, n);
    NoAnswers(s.rsps.pushed[..Done(s)], n);
    NoDeliveries(s.delivered, n);
  }

  /** An accept adds an empty log under the next token, and touches nothing else that is counted. */
  lemma NewSession(s: State, fd: int)
    requires Basic(s) && Accepts(s) && Enabled(s, Accept(fd))
    ensures var s', n := Apply(s, Accept(fd)), |s.sessions|;
      && s'.sessions == s.sessions + [SessionLog(TokenOf(n), [], [])]
      && s'.cmds == s.cmds && s'.rsps == s.rsps && s'.handled == s.handled && s'.delivered == s.delivered
      && Done(s') == Done(s)
  {
    AcceptTable(s.table, |s.sessions|, fd);
  }

  /** A connection just accepted has asked for nothing, and nothing has been lost of it. */
  lemma NewLost(s: State, fd: int, cause: Cause)
    requires Inv(s) && Enabled(s, Accept(fd)) && |s.sessions| < DISTINCT_TOKENS
    ensures Lost(Apply(s, Accept(fd)), |s.sessions|, cause) == 0
  {
    NothingYet(s);
    NewSession(s, fd);
    assert Session.Kept(0, []) == [];
  }

  // ------------------------------ whole runs ------------------------------

  /** How many of the first n steps lost an order of the k-th connection in this way. */
  function Count(ss: seq<State>, ls: seq<Label>, n: nat, k: nat, cause: Cause): nat
    requires n <= |ls| <= |ss|
  {
    if n == 0 then 0 else Count(ss, ls, n - 1, k, cause) + One(Loses(ss[n - 1], ls[n - 1], k, cause))
  }

  lemma OneAccept(s: State, l: Label, k: nat)
    requires Basic(s) && Enabled(s, l) && |s.sessions| <= k < |Apply(s, l).sessions|
    ensures l.Accept? && k == |s.sessions|
  {
    LogsGrow(s, l);
  }

  /** From one state to the next, the connection accepted just now included. */
  ghost predicate StepCounts(s: State, l: Label, s': State, k: nat, cause: Cause) {
    Lost(s', k, cause) == Lost(s, k, cause) + One(Loses(s, l, k, cause))
  }

  lemma FollowsCounts(s: State, l: Label, s': State, k: nat, cause: Cause)
    requires Inv(s) && Follows(s, l, s') && |s'.sessions| <= DISTINCT_TOKENS
    ensures StepCounts(s, l, s', k, cause)
  {
    LogsGrow(s, l);
    if k < |s.sessions| {
      LostStep(s, l, k, cause);
    } else if k < |s'.sessions| {
      OneAccept(s, l, k);
      NewLost(s, l.fd, cause);
    }
  }

  lemma {:induction false} CountsAlong(ss: seq<State>, ls: seq<Label>, n: nat, k: nat, cause: Cause)
    requires n <= |ls| < |ss| && Lost(ss[0], k, cause) == 0
    requires forall i :: 0 <= i < n ==> StepCounts(ss[i], ls[i], ss[i + 1], k, cause)
    ensures Lost(ss[n], k, cause) == Count(ss, ls, n, k, cause)
  {
    if n > 0 {
      CountsAlong(ss, ls, n - 1, k, cause);
      assert StepCounts(ss[n - 1], ls[n - 1], ss[n - 1 + 1], k, cause);
    }
  }

  /** What the state says is lost is what the steps lost. */
  lemma LostIsCounted(ss: seq<State>, ls: seq<Label>, n: nat, k: nat, cause: Cause)
    requires Run(ss, ls) && n <= |ls| && |ss[n].sessions| <= DISTINCT_TOKENS
    ensures Inv(ss[n]) && Lost(ss[n], k, cause) == Count(ss, ls, n, k, cause)
  {
    RunInv(ss, ls, n);
    forall i | 0 <= i < n
      ensures StepCounts(ss[i], ls[i], ss[i + 1], k, cause)
    {
      RunFollows(ss, ls, i);
      SessionsGrow(ss, ls, i + 1, n);
      FollowsCounts(ss[i], ls[i], ss[i + 1], k, cause);
    }
    CountsAlong(ss, ls, n, k, cause);
  }

  /** Orders pushed are handled or on their way. */
  lemma OrdersSplit(s: State, k: nat)
    requires Conserved(s) && k < |s.sessions|
    ensures OrdersPushed(s, k) == OrdersHandled(s, k) + OrdersInFlight(s, k)
  {
    assert s.cmds.pushed == s.handled + (InHand(s) + F.Queue(s.cmds));
    CollectConcat(OrderWith(Token(s, k)), s.handled, InHand(s) + F.Queue(s.cmds));
  }

  /** Answers pushed are done with or on their way. */
  lemma AnswersSplit(s: State, k: nat)
    requires 0 <= Done(s) <= |s.rsps.pushed| && k < |s.sessions|
    ensures AnswersPushed(s, k) == AnswersDone(s, k) + AnswersInFlight(s, k)
  {
    assert s.rsps.pushed == s.rsps.pushed[..Done(s)] + s.rsps.pushed[Done(s)..];
    CollectConcat(ResponseWith(Token(s, k)), s.rsps.pushed[..Done(s)], s.rsps.pushed[Done(s)..]);
  }

  /**
   * The ledger. In every state of every run, for every session and whatever the others do: each of
   * its in-sequence orders was answered to it, or is on its way as command or answer, or was lost by
   * one step of the run, which refused the command, refused the answer or did not send it.
   */
  lemma Ledger(ss: seq<State>, ls: seq<Label>, n: nat, k: nat)
    requires Run(ss, ls) && n <= |ls| && |ss[n].sessions| <= DISTINCT_TOKENS && k < |ss[n].sessions|
    ensures Inv(ss[n])
    ensures var s := ss[n];
      |CommandsFor(s.sessions[k])|
      == |DeliveredTo(s, k)| + |OrdersInFlight(s, k)| + |AnswersInFlight(s, k)|
       + Count(ss, ls, n, k, OrderRefused) + Count(ss, ls, n, k, AnswerRefused) + Count(ss, ls, n, k, NotSent)
  {
    LostIsCounted(ss, ls, n, k, OrderRefused);
    LostIsCounted(ss, ls, n, k, AnswerRefused);
    LostIsCounted(ss, ls, n, k, NotSent);
    OrdersSplit(ss[n], k);
    AnswersSplit(ss[n], k);
  }

  // ------------------------------ exactly when nothing is missing ------------------------------

  /** What the session received, then what it will receive if nothing more is lost. */
  function ReceivedInTheEnd(s: State, k: nat): seq<EngineResponse>
    requires k < |s.sessions| && s.cmds.popped <= |s.cmds.pushed| && 0 <= Done(s) <= |s.rsps.pushed|
  {
    DeliveredTo(s, k) + AnswersInFlight(s, k) + Collect(Stub, OrdersInFlight(s, k))
  }

  /** The stub answers every order. */
  lemma {:induction false} OrdersAreAnswered(cmds: seq<EngineCommand>)
    requires forall i :: 0 <= i < |cmds| ==> IsOrder(cmds[i])
    ensures |Collect(Stub, cmds)| == |cmds|
  {
    if cmds != [] {
      OrdersAreAnswered(cmds[..|cmds| - 1]);
    }
  }

  lemma {:induction false} CollectedAreOrders(token: SessionToken, cmds: seq<EngineCommand>, i: nat)
    requires i < |Collect(OrderWith(token), cmds)|
    ensures IsOrder(Collect(OrderWith(token), cmds)[i])
  {
    var init := Collect(OrderWith(token), cmds[..|cmds| - 1]);
    if i < |init| {
      CollectedAreOrders(token, cmds[..|cmds| - 1], i);
    }
  }

  lemma {:induction false} AskedAreOrders(token: SessionToken, messages: seq<DecodedMessage>, i: nat)
    requires i < |Collect(OrderOf(token), messages)|
    ensures IsOrder(Collect(OrderOf(token), messages)[i])
  {
    var init := Collect(OrderOf(token), messages[..|messages| - 1]);
    if i < |init| {
      AskedAreOrders(token, messages[..|messages| - 1], i);
    }
  }

  /** Deliveries are, in order, among the answers done with. */
  lemma DeliveredAmongDone(s: State, k: nat)
    requires Inv(s) && |s.sessions| <= DISTINCT_TOKENS && k < |s.sessions|
    ensures Sub(DeliveredTo(s, k), AnswersDone(s, k))
  {
    BySerialIsByToken(s, k, |s.delivered|);
    assert s.delivered[..|s.delivered|] == s.delivered;
    SubCollect(ResponseWith(Token(s, k)), Collect(ResponseOf, s.delivered), s.rsps.pushed[..Done(s)]);
  }

  /** Answers pushed are, in order, among those to the orders handled. */
  lemma PushedAmongHandled(s: State, k: nat)
    requires Inv(s) && k < |s.sessions|
    ensures Sub(AnswersPushed(s, k), Collect(Stub, OrdersHandled(s, k)))
  {
    SubCollect(ResponseWith(Token(s, k)), s.rsps.pushed, Collect(Stub, s.handled));
    StubKeepsToken(s.handled, Token(s, k));
  }

  /** All along the pipeline the order is kept. */
  lemma PipelineOrder(s: State, k: nat)
    requires Inv(s) && |s.sessions| <= DISTINCT_TOKENS && k < |s.sessions|
    ensures Sub(ReceivedInTheEnd(s, k), Collect(Stub, CommandsFor(s.sessions[k])))
  {
    var done, coming, later := DeliveredTo(s, k), AnswersInFlight(s, k), Collect(Stub, OrdersInFlight(s, k));
    OrdersSplit(s, k);
    AnswersSplit(s, k);
    DeliveredAmongDone(s, k);
    PushedAmongHandled(s, k);
    SubRefl(coming);
    SubConcat(done, AnswersDone(s, k), coming, coming);
    SubTrans(done + coming, AnswersPushed(s, k), Collect(Stub, OrdersHandled(s, k)));
    SubRefl(later);
    SubConcat(done + coming, Collect(Stub, OrdersHandled(s, k)), later, later);
    CollectConcat(Stub, OrdersHandled(s, k), OrdersInFlight(s, k));
    assert Asked(s.sessions[k], s.cmds.pushed);
    SubCollect(Stub, OrdersPushed(s, k), CommandsFor(s.sessions[k]));
    SubTrans(ReceivedInTheEnd(s, k), Collect(Stub, OrdersPushed(s, k)), Collect(Stub, CommandsFor(s.sessions[k])));
  }

  /** The sizes in the ledger, in answers. */
  lemma InAnswers(s: State, k: nat)
    requires Inv(s) && k < |s.sessions|
    ensures |Collect(Stub, CommandsFor(s.sessions[k]))| == |CommandsFor(s.sessions[k])|
    ensures |Collect(Stub, OrdersInFlight(s, k))| == |OrdersInFlight(s, k)|
  {
    var log := s.sessions[k];
    forall i | 0 <= i < |CommandsFor(log)|
      ensures IsOrder(CommandsFor(log)[i])
    {
      AskedAreOrders(log.token, Session.Kept(0, log.messages), i);
    }
    OrdersAreAnswered(CommandsFor(log));
    forall i | 0 <= i < |OrdersInFlight(s, k)|
      ensures IsOrder(OrdersInFlight(s, k)[i])
    {
      CollectedAreOrders(log.token, InHand(s) + F.Queue(s.cmds), i);
    }
    OrdersAreAnswered(OrdersInFlight(s, k));
  }

  /** No step of the first n lost an order of the k-th connection. */
  predicate LosesNone(ss: seq<State>, ls: seq<Label>, n: nat, k: nat)
    requires n <= |ls| <= |ss|
  {
    forall i, cause | 0 <= i < n :: !Loses(ss[i], ls[i], k, cause)
  }

  lemma {:induction false} CountIsZero(ss: seq<State>, ls: seq<Label>, n: nat, k: nat, cause: Cause)
    requires n <= |ls| <= |ss|
    ensures Count(ss, ls, n, k, cause) == 0 <==> forall i | 0 <= i < n :: !Loses(ss[i], ls[i], k, cause)
  {
    if n > 0 {
      CountIsZero(ss, ls, n - 1, k, cause);
    }
  }

  /**
   * Completeness, exactly. In every state of every run: what a session has received and still has
   * coming is all the answers to its in-sequence orders, each once and in order, if and only if no
   * step of the run lost one of them. What happens to other sessions does not matter.
   */
  lemma EverySessionIsAnswered(ss: seq<State>, ls: seq<Label>, n: nat, k: nat)
    requires Run(ss, ls) && n <= |ls| && |ss[n].sessions| <= DISTINCT_TOKENS && k < |ss[n].sessions|
    ensures Inv(ss[n])
    ensures ReceivedInTheEnd(ss[n], k) == Collect(Stub, CommandsFor(ss[n].sessions[k])) <==> LosesNone(ss, ls, n, k)
  {
    Ledger(ss, ls, n, k);
    PipelineOrder(ss[n], k);
    InAnswers(ss[n], k);
    SubLength(ReceivedInTheEnd(ss[n], k), Collect(Stub, CommandsFor(ss[n].sessions[k])));
    CountIsZero(ss, ls, n, k, OrderRefused);
    CountIsZero(ss, ls, n, k, AnswerRefused);
    CountIsZero(ss, ls, n, k, NotSent);
  }

  /** Nothing of the k-th connection is on its way. */
  ghost predicate AtRest(s: State, k: nat)
    requires Inv(s) && k < |s.sessions|
  {
    OrdersInFlight(s, k) == [] && AnswersInFlight(s, k) == []
  }

  /** So at rest it has received exactly those answers, if and only if no step lost one. */
  lemma AtRestAllAnswered(ss: seq<State>, ls: seq<Label>, n: nat, k: nat)
    requires Run(ss, ls) && n <= |ls| && |ss[n].sessions| <= DISTINCT_TOKENS && k < |ss[n].sessions|
    requires Inv(ss[n]) && AtRest(ss[n], k)
    ensures DeliveredTo(ss[n], k) == Collect(Stub, CommandsFor(ss[n].sessions[k])) <==> LosesNone(ss, ls, n, k)
  {
    EverySessionIsAnswered(ss, ls, n, k);
    assert ReceivedInTheEnd(ss[n], k) == DeliveredTo(ss[n], k);
  }
}
