/** Concrete runs of the two threads that show where the server falls short. */
module Scenarios {
  import opened LittleEndian
  import opened Codec
  import opened Framing
  import opened Frames
  import opened Gateway
  import opened Protocol
  import opened Accounting
  import opened Stopping

  // ------------------------------ two frames ------------------------------

  const ORDER := NewOrder(1, 1, 1, 1)

  function OrderFrame(n: U64): (frame: seq<Byte>)
    ensures |frame| == FRAME_SIZE
  {
    FrameOf(Request(DEFAULT_HEADER.(sequenceNumber := n), ORDER, Blank()))
  }

  function LogoutHeader(n: U64): MessageHeader {
    DEFAULT_HEADER.(messageType := LOGOUT, payloadLength := PAYLOAD_SIZE, sequenceNumber := n)
  }

  function LogoutFrame(n: U64): (frame: seq<Byte>)
    ensures |frame| == FRAME_SIZE
  {
    HeaderThen(LogoutHeader(n), Blank()[..FRAME_SIZE - HEADER_SIZE])
  }

  /** The frame decodes to a message of this type and number. */
  predicate IsFrameOf(frame: seq<Byte>, kind: U16, n: U64) {
    && |frame| == FRAME_SIZE && DecodeFrame(frame).Some?
    && DecodeFrame(frame).value.kind == kind && DecodeFrame(frame).value.header.sequenceNumber == n
  }

  lemma OrderDecodes(n: U64)
    ensures IsFrameOf(OrderFrame(n), NEW_ORDER, n)
  {
    EncodedIsGood(Request(DEFAULT_HEADER.(sequenceNumber := n), ORDER, Blank()));
  }

  /** A good frame without payload fields carries its header and type. */
  lemma BareFrame(frame: seq<Byte>, h: MessageHeader)
    requires |frame| == FRAME_SIZE && LoadHeader(frame[..HEADER_SIZE]) == h
    requires !BadFrame(frame) && h.messageType == LOGOUT
    ensures IsFrameOf(frame, LOGOUT, h.sequenceNumber)
  {
  }

  lemma GoodLogout(frame: seq<Byte>, n: U64)
    requires |frame| == FRAME_SIZE && LoadHeader(frame[..HEADER_SIZE]) == LogoutHeader(n)
    ensures !BadFrame(frame)
  {
    GoodHeader(frame);
  }

  lemma LogoutDecodes(n: U64)
    ensures IsFrameOf(LogoutFrame(n), LOGOUT, n)
  {
    var frame := LogoutFrame(n);
    HeaderRoundTrip(LogoutHeader(n), Blank()[..FRAME_SIZE - HEADER_SIZE]);
    HeaderOfPrefix(frame);
    GoodLogout(frame, n);
    BareFrame(frame, LogoutHeader(n));
  }

  // ------------------------------ one connection, one frame at a time ------------------------------

  /** The gateway waits, and has parsed all that the client on descriptor 0 sent. */
  ghost predicate Idle(s: State) {
    && Inv(s) && s.gpc.Waiting? && 0 in s.table.connections
    && Unread(s.table.connections[0].parser) == []
  }

  /** The parser's whole unread part is one good frame. */
  lemma OneFrame(conn: Connection, frame: seq<Byte>)
    requires ValidStream(conn.parser) && Unread(conn.parser) == frame
    requires |frame| == FRAME_SIZE && DecodeFrame(frame).Some?
    ensures var (next, o) := ParseOne(conn);
      && MessageReady == StatusOf(DecodeFrame, frame) && MessageAt(conn.parser) == DecodeFrame(frame).value
      && ValidStream(next.parser) && Unread(next.parser) == []
      && o == Dispatch(conn.token, conn.expectedSequence, DecodeFrame(frame).value)
  {
    assert frame[..FRAME_SIZE] == frame;
  }

  lemma NoFrame(conn: Connection)
    requires ValidStream(conn.parser) && Unread(conn.parser) == []
    ensures ParseOne(conn) == (conn, Quiet(false))
  {
  }

  lemma FrameArrives(s: State, frame: seq<Byte>)
    requires Idle(s) && |frame| == FRAME_SIZE
    ensures Enabled(s, Receive(0, frame))
    ensures var s' := Apply(s, Receive(0, frame));
      && Inv(s') && s'.gpc == Parsing(0) && 0 in s'.table.connections
      && Unread(s'.table.connections[0].parser) == frame
      && s'.table.connections[0].token == s.table.connections[0].token
      && s'.table.connections[0].expectedSequence == s.table.connections[0].expectedSequence
      && s'.cmds == s.cmds && s'.serials == s.serials && |s'.sessions| == |s.sessions|
      && forall k :: 0 <= k < |s.sessions| ==> s'.sessions[k].messages == s.sessions[k].messages
  {
    StepInv(s, Receive(0, frame));
  }

  /** The parse loop is at work on descriptor 0, with this frame and nothing else unread. */
  ghost predicate HasFrame(s: State, frame: seq<Byte>) {
    && Inv(s) && s.gpc == Parsing(0) && 0 in s.table.connections && 0 in s.serials
    && |frame| == FRAME_SIZE && Unread(s.table.connections[0].parser) == frame
  }

  /** The last round of the loop finds no more. */
  lemma LoopEndsHere(s: State)
    requires Inv(s) && s.gpc == Parsing(0) && 0 in s.table.connections && Unread(s.table.connections[0].parser) == []
    ensures Enabled(s, ParseRound(F.Silent, s.cmds))
    ensures var s' := Apply(s, ParseRound(F.Silent, s.cmds)); Idle(s') && s' == s.(gpc := Waiting)
  {
    var conn := s.table.connections[0];
    NoFrame(conn);
    assert s.table.connections[0 := conn] == s.table.connections;
    StepInv(s, ParseRound(F.Silent, s.cmds));
  }

  /** What a push shows and does now, told from what the producer knows of the pops. */
  function PushEvent(f: F.Fifo<EngineCommand>, cmd: EngineCommand): F.Event<EngineCommand> {
    if |f.pushed| < f.producerSees + LIMIT then F.Pushed(cmd) else F.PushFailed
  }

  function AfterPush(f: F.Fifo<EngineCommand>, cmd: EngineCommand): F.Fifo<EngineCommand> {
    if |f.pushed| < f.producerSees + LIMIT then f.(pushed := f.pushed + [cmd]) else f
  }

  /** The command of the frame. */
  function OrderIn(s: State, frame: seq<Byte>): EngineCommand
    requires 0 in s.table.connections && DecodeFrame(frame).Some?
  {
    CommandOf(s.table.connections[0].token, DecodeFrame(frame).value)
  }

  function OrderRound(s: State, frame: seq<Byte>): Label
    requires 0 in s.table.connections && DecodeFrame(frame).Some?
  {
    ParseRound(PushEvent(s.cmds, OrderIn(s, frame)), AfterPush(s.cmds, OrderIn(s, frame)))
  }

  lemma OrderDispatched(s: State, frame: seq<Byte>)
    requires HasFrame(s, frame) && IsFrameOf(frame, NEW_ORDER, s.table.connections[0].expectedSequence)
    ensures var conn := s.table.connections[0]; var (next, o) := ParseOne(conn);
      && o == Command(OrderIn(s, frame)) && IsOrder(o.command)
      && ValidStream(next.parser) && Unread(next.parser) == [] && MessageAt(conn.parser) == DecodeFrame(frame).value
  {
    OneFrame(s.table.connections[0], frame);
  }

  lemma PushMoves(f: F.Fifo<EngineCommand>, cmd: EngineCommand)
    requires F.Valid(LIMIT, f)
    ensures Offers(PushEvent(f, cmd), cmd) && Moves(f, PushEvent(f, cmd), AfterPush(f, cmd))
  {
  }

  lemma RoundEnabled(s: State, cmd: EngineCommand, e: F.Event<EngineCommand>, q: F.Fifo<EngineCommand>)
    requires Basic(s) && s.gpc == Parsing(0) && ParseOne(s.table.connections[0]).1 == Command(cmd)
    requires Offers(e, cmd) && Moves(s.cmds, e, q)
    ensures Enabled(s, ParseRound(e, q))
  {
  }

  lemma OrderEnabled(s: State, frame: seq<Byte>)
    requires HasFrame(s, frame) && IsFrameOf(frame, NEW_ORDER, s.table.connections[0].expectedSequence)
    ensures Enabled(s, OrderRound(s, frame))
  {
    var cmd := OrderIn(s, frame);
    OrderDispatched(s, frame);
    PushMoves(s.cmds, cmd);
    RoundEnabled(s, cmd, PushEvent(s.cmds, cmd), AfterPush(s.cmds, cmd));
  }

  /** What a round that parses leaves, told from ParseOne. */
  lemma RoundLeaves(s: State, e: F.Event<EngineCommand>, q: F.Fifo<EngineCommand>)
    requires Basic(s) && s.gpc == Parsing(0) && 0 in s.table.connections && Control(s, ParseRound(e, q))
    requires !ParseOne(s.table.connections[0]).1.Quiet?
    ensures var s', k := Apply(s, ParseRound(e, q)), s.serials[0]; var (next, o) := ParseOne(s.table.connections[0]);
      && s'.gpc == (if LoopEnds(o) then Waiting else Parsing(0))
      && s'.table.connections == s.table.connections[0 := next] && next.token == s.table.connections[0].token
      && s'.serials == s.serials && s'.cmds == q
      && k < |s.sessions|
      && s'.sessions == s.sessions[k := WithMessage(s.sessions[k], MessageAt(s.table.connections[0].parser))]
  {
  }

  /** The round that parses an order pushes it, or finds the queue full. */
  lemma OrderParsed(s: State, frame: seq<Byte>)
    requires HasFrame(s, frame) && IsFrameOf(frame, NEW_ORDER, s.table.connections[0].expectedSequence)
    ensures Enabled(s, OrderRound(s, frame))
    ensures var s', k := Apply(s, OrderRound(s, frame)), s.serials[0];
      && s'.gpc == Parsing(0) && 0 in s'.table.connections && s'.serials == s.serials
      && s'.table.connections[0].parser == ParseOne(s.table.connections[0]).0.parser
      && s'.table.connections[0].token == s.table.connections[0].token
      && s'.cmds == AfterPush(s.cmds, OrderIn(s, frame))
      && k < |s.sessions| && s'.sessions == s.sessions[k := WithMessage(s.sessions[k], DecodeFrame(frame).value)]
  {
    OrderDispatched(s, frame);
    OrderEnabled(s, frame);
    RoundLeaves(s, OrderRound(s, frame).ce, OrderRound(s, frame).cq);
  }

  lemma OrderAskedFor(s: State, frame: seq<Byte>)
    requires HasFrame(s, frame) && IsFrameOf(frame, NEW_ORDER, s.table.connections[0].expectedSequence)
    ensures s.serials[0] < |s.sessions|
    ensures var log := s.sessions[s.serials[0]];
      CommandsFor(WithMessage(log, DecodeFrame(frame).value)) == CommandsFor(log) + [OrderIn(s, frame)]
  {
    var conn, log := s.table.connections[0], s.sessions[s.serials[0]];
    OrderDispatched(s, frame);
    assert LogOk(conn, s.sessions, s.serials, 0);
    ConnParses(conn, log);
    CommandIffOrder(conn, log);
    CommandsForSnoc(log, DecodeFrame(frame).value);
  }

  // ------------------------------ the engine takes no command ------------------------------

  /** Of n orders the first 4095 were pushed, in order, and no others. */
  ghost predicate FirstOnly(log: SessionLog, pushed: seq<EngineCommand>, n: nat) {
    |CommandsFor(log)| == n && pushed == CommandsFor(log)[..if n < LIMIT then n else LIMIT]
  }

  lemma FirstOnlyStill(log: SessionLog, log': SessionLog, pushed: seq<EngineCommand>, pushed': seq<EngineCommand>,
                       n: nat, cmd: EngineCommand)
    requires FirstOnly(log, pushed, n) && CommandsFor(log') == CommandsFor(log) + [cmd]
    requires pushed' == if |pushed| < LIMIT then pushed + [cmd] else pushed
    ensures FirstOnly(log', pushed', n + 1)
  {
  }

  /** The client sent `n` orders in sequence and the engine took none: the queue holds the first 4095. */
  ghost predicate Asleep(s: State, n: nat) {
    && Idle(s) && s.serials == map[0 := 0] && |s.sessions| == 1
    && s.cmds.producerSees == 0 && FirstOnly(s.sessions[0], s.cmds.pushed, n)
  }

  /** One more frame with an order in it has come. */
  ghost predicate OrderWaits(s: State, n: nat) {
    && 0 in s.table.connections && s.serials == map[0 := 0] && |s.sessions| == 1
    && HasFrame(s, OrderFrame(s.table.connections[0].expectedSequence))
    && s.cmds.producerSees == 0 && FirstOnly(s.sessions[0], s.cmds.pushed, n)
  }

  /** It has been dealt with. */
  ghost predicate OrderDone(s: State, n: nat) {
    && Inv(s) && s.gpc == Parsing(0) && 0 in s.table.connections && Unread(s.table.connections[0].parser) == []
    && s.serials == map[0 := 0] && |s.sessions| == 1
    && s.cmds.producerSees == 0 && FirstOnly(s.sessions[0], s.cmds.pushed, n)
  }

  /** s' follows s, and loses one order there or none. */
  ghost predicate MovesOn(s: State, l: Label, s': State, refused: bool) {
    Follows(s, l, s') && Loses(s, l, 0, OrderRefused) == refused
  }

  lemma OrderComes(s: State, n: nat) returns (l: Label, s': State)
    requires Asleep(s, n)
    ensures MovesOn(s, l, s', false) && OrderWaits(s', n)
  {
    var frame := OrderFrame(s.table.connections[0].expectedSequence);
    FrameArrives(s, frame);
    l, s' := Receive(0, frame), Apply(s, Receive(0, frame));
    assert CommandsFor(s'.sessions[0]) == CommandsFor(s.sessions[0]);
  }

  lemma OrderGoes(s: State, n: nat) returns (l: Label, s': State)
    requires OrderWaits(s, n)
    ensures MovesOn(s, l, s', LIMIT <= n) && OrderDone(s', n + 1)
  {
    var frame := OrderFrame(s.table.connections[0].expectedSequence);
    OrderDecodes(s.table.connections[0].expectedSequence);
    OrderDispatched(s, frame);
    OrderParsed(s, frame);
    OrderAskedFor(s, frame);
    l, s' := OrderRound(s, frame), Apply(s, OrderRound(s, frame));
    StepInv(s, l);
    FirstOnlyStill(s.sessions[0], s'.sessions[0], s.cmds.pushed, s'.cmds.pushed, n, OrderIn(s, frame));
  }

  lemma LoopEnded(s: State, n: nat) returns (l: Label, s': State)
    requires OrderDone(s, n)
    ensures MovesOn(s, l, s', false) && Asleep(s', n)
  {
    LoopEndsHere(s);
    l, s' := ParseRound(F.Silent, s.cmds), Apply(s, ParseRound(F.Silent, s.cmds));
  }

  // ------------------------------ runs ------------------------------

  lemma {:induction false} CountExtended(ss: seq<State>, ls: seq<Label>, s': State, l: Label,
                                         n: nat, k: nat, cause: Cause)
    requires n <= |ls| && |ss| == |ls| + 1
    ensures Count(ss + [s'], ls + [l], n, k, cause) == Count(ss, ls, n, k, cause)
  {
    if n > 0 {
      CountExtended(ss, ls, s', l, n - 1, k, cause);
    }
  }

  /** A run to `s`; `refused` of the orders were lost for want of room in the command queue. */
  ghost predicate Reaches(ss: seq<State>, ls: seq<Label>, s: State, refused: nat) {
    Run(ss, ls) && ss[|ls|] == s && Count(ss, ls, |ls|, 0, OrderRefused) == refused
  }

  lemma OneMoreCount(ss: seq<State>, ls: seq<Label>, l: Label, s': State)
    requires |ss| == |ls| + 1
    ensures Count(ss + [s'], ls + [l], |ls| + 1, 0, OrderRefused)
         == Count(ss, ls, |ls|, 0, OrderRefused) + One(Loses(ss[|ls|], l, 0, OrderRefused))
  {
    CountExtended(ss, ls, s', l, |ls|, 0, OrderRefused);
  }

  lemma OneMoreStep(ss: seq<State>, ls: seq<Label>, l: Label, s': State)
    requires Run(ss, ls) && Follows(ss[|ls|], l, s')
    ensures Run(ss + [s'], ls + [l])
  {
    forall i | 0 <= i < |ls|
      ensures Follows((ss + [s'])[i], (ls + [l])[i], (ss + [s'])[i + 1])
    {
      assert Follows(ss[i], ls[i], ss[i + 1]);
    }
  }

  lemma Extend(ss: seq<State>, ls: seq<Label>, s: State, refused: nat, l: Label, s': State, more: bool)
    returns (ss': seq<State>, ls': seq<Label>)
    requires Reaches(ss, ls, s, refused) && MovesOn(s, l, s', more)
    ensures Reaches(ss', ls', s', refused + One(more))
  {
    ss', ls' := ss + [s'], ls + [l];
    OneMoreStep(ss, ls, l, s');
    OneMoreCount(ss, ls, l, s');
  }

  lemma FirstAccepted() returns (s: State)
    ensures Basic(Init()) && Enabled(Init(), Accept(0)) && s == Apply(Init(), Accept(0)) && Asleep(s, 0)
    ensures s.sessions[0].messages == [] && s.cmds.pushed == []
  {
    InitInv();
    StepInv(Init(), Accept(0));
    s := Apply(Init(), Accept(0));
  }

  lemma FirstClient() returns (ss: seq<State>, ls: seq<Label>, s: State)
    ensures Reaches(ss, ls, s, 0) && Asleep(s, 0)
    ensures s.sessions[0].messages == [] && s.cmds.pushed == []
  {
    s := FirstAccepted();
    ss, ls := Extend([Init()], [], Init(), 0, Accept(0), s, false);
  }

  lemma AnOrderComes(ss: seq<State>, ls: seq<Label>, s: State, n: nat, refused: nat)
    returns (ss': seq<State>, ls': seq<Label>, s': State)
    requires Reaches(ss, ls, s, refused) && Asleep(s, n)
    ensures Reaches(ss', ls', s', refused) && OrderWaits(s', n)
  {
    var l;
    l, s' := OrderComes(s, n);
    ss', ls' := Extend(ss, ls, s, refused, l, s', false);
  }

  lemma AnOrderGoes(ss: seq<State>, ls: seq<Label>, s: State, n: nat, refused: nat)
    returns (ss': seq<State>, ls': seq<Label>, s': State)
    requires Reaches(ss, ls, s, refused) && OrderWaits(s, n)
    ensures Reaches(ss', ls', s', refused + One(LIMIT <= n)) && OrderDone(s', n + 1)
  {
    var l;
    l, s' := OrderGoes(s, n);
    ss', ls' := Extend(ss, ls, s, refused, l, s', LIMIT <= n);
  }

  lemma TheLoopEnds(ss: seq<State>, ls: seq<Label>, s: State, n: nat, refused: nat)
    returns (ss': seq<State>, ls': seq<Label>, s': State)
    requires Reaches(ss, ls, s, refused) && OrderDone(s, n)
    ensures Reaches(ss', ls', s', refused) && Asleep(s', n)
  {
    var l;
    l, s' := LoopEnded(s, n);
    ss', ls' := Extend(ss, ls, s, refused, l, s', false);
  }

  lemma OneMoreOrder(ss: seq<State>, ls: seq<Label>, s: State, n: nat, refused: nat)
    returns (ss': seq<State>, ls': seq<Label>, s': State)
    requires Reaches(ss, ls, s, refused) && Asleep(s, n)
    ensures Reaches(ss', ls', s', refused + One(LIMIT <= n)) && Asleep(s', n + 1)
  {
    ss', ls', s' := AnOrderComes(ss, ls, s, n, refused);
    ss', ls', s' := AnOrderGoes(ss', ls', s', n, refused);
    ss', ls', s' := TheLoopEnds(ss', ls', s', n + 1, refused + One(LIMIT <= n));
  }

  /** How many of n orders find no room. */
  function Excess(n: nat): nat {
    if n < LIMIT then 0 else n - LIMIT
  }

  lemma FirstPile() returns (ss: seq<State>, ls: seq<Label>, s: State)
    ensures Reaches(ss, ls, s, Excess(0)) && Asleep(s, 0)
  {
    ss, ls, s := FirstClient();
  }

  lemma NextPile(ss: seq<State>, ls: seq<Label>, s: State, n: nat) returns (ss': seq<State>, ls': seq<Label>, s': State)
    requires Reaches(ss, ls, s, Excess(n)) && Asleep(s, n)
    ensures Reaches(ss', ls', s', Excess(n + 1)) && Asleep(s', n + 1)
  {
    assert Excess(n + 1) == Excess(n) + One(LIMIT <= n);
    ss', ls', s' := OneMoreOrder(ss, ls, s, n, Excess(n));
  }

  lemma {:induction false} OrdersPileUp(n: nat) returns (ss: seq<State>, ls: seq<Label>, s: State)
    ensures Reaches(ss, ls, s, Excess(n)) && Asleep(s, n)
  {
    if n == 0 {
      ss, ls, s := FirstPile();
    } else {
      ss, ls, s := OrdersPileUp(n - 1);
      ss, ls, s := NextPile(ss, ls, s, n - 1);
    }
  }

  /**
   * The bound is sharp: while the engine takes none, a client can send any number n of orders, all in
   * sequence; exactly the first 4095 are queued and all later ones are lost.
   */
  lemma FullQueueLoses(n: nat)
    ensures exists ss, ls :: Run(ss, ls) && Asleep(ss[|ls|], n)
              && Count(ss, ls, |ls|, 0, OrderRefused) == Excess(n)
  {
    var ss, ls, s := OrdersPileUp(n);
    assert Run(ss, ls) && Asleep(ss[|ls|], n);
  }

  lemma FullRefuses(f: F.Fifo<EngineCommand>)
    requires F.Valid(LIMIT, f) && |f.pushed| == f.producerSees + LIMIT
    ensures Moves(f, F.PushFailed, f)
  {
  }

  lemma QuitEnabled(s: State)
    requires Basic(s) && s.gpc.Waiting? && Moves(s.cmds, F.PushFailed, s.cmds)
    ensures Enabled(s, Quit(F.PushFailed, s.cmds))
  {
  }

  /** With the queue full the gateway stops, and its Shutdown is refused. */
  lemma StopsInVain(s: State) returns (s': State)
    requires Asleep(s, LIMIT)
    ensures MovesOn(s, Quit(F.PushFailed, s.cmds), s', false) && s'.gpc.Stopped? && s'.cmds == s.cmds
  {
    FullRefuses(s.cmds);
    QuitEnabled(s);
    s' := Apply(s, Quit(F.PushFailed, s.cmds));
  }

  /** A run after which the matching thread never ends: the Shutdown found the queue full. */
  lemma ShutdownCanBeLost()
    ensures exists ss, ls :: Run(ss, ls) && ShutdownLost(ss[|ls|])
  {
    var ss, ls, s := OrdersPileUp(LIMIT);
    var s' := StopsInVain(s);
    RunStops(ss, ls, |ls|);
    NoShutdownYet(s);
    var ss', ls' := Extend(ss, ls, s, Excess(LIMIT), Quit(F.PushFailed, s.cmds), s', false);
    assert Run(ss', ls') && ShutdownLost(ss'[|ls'|]);
  }

  lemma NoShutdownYet(s: State)
    requires Stops(s) && s.gpc.Waiting?
    ensures forall i :: 0 <= i < |s.cmds.pushed| ==> !s.cmds.pushed[i].kind.Shutdown?
  {
  }

  // ------------------------------ a Logout does not close ------------------------------

  lemma LogoutDispatched(s: State, frame: seq<Byte>)
    requires HasFrame(s, frame) && IsFrameOf(frame, LOGOUT, s.table.connections[0].expectedSequence)
    ensures var conn := s.table.connections[0]; var (next, o) := ParseOne(conn);
      && o.Reply? && o.stop && MessageAt(conn.parser) == DecodeFrame(frame).value
      && ValidStream(next.parser) && Unread(next.parser) == []
  {
    OneFrame(s.table.connections[0], frame);
  }

  lemma ReplyEnabled(s: State)
    requires Basic(s) && s.gpc == Parsing(0) && ParseOne(s.table.connections[0]).1.Reply?
    ensures Enabled(s, ParseRound(F.Silent, s.cmds))
  {
  }

  /** The round that parses a Logout ends the loop, and only that. */
  lemma LogoutParsed(s: State, frame: seq<Byte>)
    requires HasFrame(s, frame) && IsFrameOf(frame, LOGOUT, s.table.connections[0].expectedSequence)
    ensures Enabled(s, ParseRound(F.Silent, s.cmds))
    ensures var s', k := Apply(s, ParseRound(F.Silent, s.cmds)), s.serials[0];
      && Idle(s') && s'.serials == s.serials && s'.cmds == s.cmds
      && k < |s.sessions| && s'.sessions == s.sessions[k := WithMessage(s.sessions[k], DecodeFrame(frame).value)]
  {
    LogoutDispatched(s, frame);
    ReplyEnabled(s);
    RoundLeaves(s, F.Silent, s.cmds);
    StepInv(s, ParseRound(F.Silent, s.cmds));
  }

  lemma LogoutCounts(s: State, frame: seq<Byte>)
    requires HasFrame(s, frame) && IsFrameOf(frame, LOGOUT, s.table.connections[0].expectedSequence)
    ensures s.serials[0] < |s.sessions|
    ensures LoggedOut(s.sessions[s.serials[0]].messages + [DecodeFrame(frame).value])
  {
    var conn, log := s.table.connections[0], s.sessions[s.serials[0]];
    var msg := DecodeFrame(frame).value;
    LogoutDispatched(s, frame);
    assert LogOk(conn, s.sessions, s.serials, 0);
    ConnParses(conn, log);
    CommandIffOrder(conn, log);
    KeptSnoc(log.messages, msg);
    var kept := Session.Kept(0, log.messages + [msg]);
    assert kept[|kept| - 1].kind == LOGOUT;
  }

  /** One client, and what it sent and got into the command queue. */
  ghost predicate Talked(s: State, messages: seq<DecodedMessage>, pushed: seq<EngineCommand>) {
    && 0 in s.table.connections && s.serials == map[0 := 0] && |s.sessions| == 1
    && s.sessions[0].messages == messages && s.cmds.pushed == pushed && s.cmds.producerSees == 0
  }

  lemma Arrives(s: State, frame: seq<Byte>, messages: seq<DecodedMessage>, pushed: seq<EngineCommand>)
    returns (s': State)
    requires Idle(s) && Talked(s, messages, pushed) && |frame| == FRAME_SIZE
    ensures MovesOn(s, Receive(0, frame), s', false) && Talked(s', messages, pushed) && HasFrame(s', frame)
    ensures s'.table.connections[0].expectedSequence == s.table.connections[0].expectedSequence
  {
    FrameArrives(s, frame);
    s' := Apply(s, Receive(0, frame));
  }

  lemma LogsOut(s: State, frame: seq<Byte>) returns (l: Label, s': State)
    requires HasFrame(s, frame) && Talked(s, [], [])
    requires IsFrameOf(frame, LOGOUT, s.table.connections[0].expectedSequence)
    ensures MovesOn(s, l, s', false) && Idle(s') && Talked(s', [DecodeFrame(frame).value], [])
    ensures LoggedOut([DecodeFrame(frame).value])
  {
    LogoutParsed(s, frame);
    LogoutCounts(s, frame);
    assert [] + [DecodeFrame(frame).value] == [DecodeFrame(frame).value];
    l, s' := ParseRound(F.Silent, s.cmds), Apply(s, ParseRound(F.Silent, s.cmds));
  }

  lemma OrdersMore(s: State, frame: seq<Byte>, out: DecodedMessage) returns (l: Label, s': State)
    requires HasFrame(s, frame) && Talked(s, [out], [])
    requires IsFrameOf(frame, NEW_ORDER, s.table.connections[0].expectedSequence)
    ensures MovesOn(s, l, s', false)
    ensures Talked(s', [out, DecodeFrame(frame).value], [OrderIn(s, frame)])
  {
    OrderParsed(s, frame);
    l, s' := OrderRound(s, frame), Apply(s, OrderRound(s, frame));
    assert AfterPush(s.cmds, OrderIn(s, frame)).pushed == [OrderIn(s, frame)];
    assert [out] + [DecodeFrame(frame).value] == [out, DecodeFrame(frame).value];
  }

  /** The client's Logout was in sequence, and then an order of it became a command on the same connection. */
  ghost predicate OrderAfterLogout(s: State, out: DecodedMessage, order: DecodedMessage) {
    && LoggedOut([out]) && order.kind == NEW_ORDER
    && |s.sessions| == 1 && Talked(s, [out, order], [CommandOf(s.sessions[0].token, order)])
  }

  lemma SameToken(s: State)
    requires Inv(s) && 0 in s.table.connections && s.serials == map[0 := 0] && |s.sessions| == 1
    ensures s.table.connections[0].token == s.sessions[0].token
  {
  }

  /** A frame comes. */
  lemma AFrameComes(ss: seq<State>, ls: seq<Label>, s: State, frame: seq<Byte>, messages: seq<DecodedMessage>)
    returns (ss': seq<State>, ls': seq<Label>, s': State)
    requires Reaches(ss, ls, s, 0) && Idle(s) && Talked(s, messages, []) && |frame| == FRAME_SIZE
    ensures Reaches(ss', ls', s', 0) && Talked(s', messages, []) && HasFrame(s', frame)
    ensures s'.table.connections[0].expectedSequence == s.table.connections[0].expectedSequence
  {
    s' := Arrives(s, frame, messages, []);
    ss', ls' := Extend(ss, ls, s, 0, Receive(0, frame), s', false);
  }

  /** The Logout is parsed. */
  lemma TheLogoutGoes(ss: seq<State>, ls: seq<Label>, s: State, frame: seq<Byte>)
    returns (ss': seq<State>, ls': seq<Label>, s': State)
    requires Reaches(ss, ls, s, 0) && HasFrame(s, frame) && Talked(s, [], [])
    requires IsFrameOf(frame, LOGOUT, s.table.connections[0].expectedSequence)
    ensures Reaches(ss', ls', s', 0) && Idle(s') && Talked(s', [DecodeFrame(frame).value], [])
    ensures LoggedOut([DecodeFrame(frame).value])
  {
    var l;
    l, s' := LogsOut(s, frame);
    ss', ls' := Extend(ss, ls, s, 0, l, s', false);
  }

  /** The order after it is parsed. */
  lemma TheOrderGoes(ss: seq<State>, ls: seq<Label>, s: State, frame: seq<Byte>, out: DecodedMessage)
    returns (ss': seq<State>, ls': seq<Label>, s': State)
    requires Reaches(ss, ls, s, 0) && HasFrame(s, frame) && Talked(s, [out], []) && LoggedOut([out])
    requires IsFrameOf(frame, NEW_ORDER, s.table.connections[0].expectedSequence)
    ensures Reaches(ss', ls', s', 0) && OrderAfterLogout(s', out, DecodeFrame(frame).value)
  {
    var l;
    SameToken(s);
    l, s' := OrdersMore(s, frame, out);
    LogsGrow(s, l);
    ss', ls' := Extend(ss, ls, s, 0, l, s', false);
  }

  lemma LogoutRun() returns (ss: seq<State>, ls: seq<Label>, s: State, out: DecodedMessage, order: DecodedMessage)
    ensures Reaches(ss, ls, s, 0) && OrderAfterLogout(s, out, order)
  {
    ss, ls, s := FirstClient();
    var n := s.table.connections[0].expectedSequence;
    LogoutDecodes(n);
    out := DecodeFrame(LogoutFrame(n)).value;
    ss, ls, s := AFrameComes(ss, ls, s, LogoutFrame(n), []);
    ss, ls, s := TheLogoutGoes(ss, ls, s, LogoutFrame(n));
    n := s.table.connections[0].expectedSequence;
    OrderDecodes(n);
    order := DecodeFrame(OrderFrame(n)).value;
    ss, ls, s := AFrameComes(ss, ls, s, OrderFrame(n), [out]);
    ss, ls, s := TheOrderGoes(ss, ls, s, OrderFrame(n), out);
  }

  /** A run in which a client logs out, stays connected, and gets an order through after that. */
  lemma LogoutKeepsServing()
    ensures exists ss, ls, out, order :: Run(ss, ls) && OrderAfterLogout(ss[|ls|], out, order)
  {
    var ss, ls, s, out, order := LogoutRun();
    assert Run(ss, ls) && OrderAfterLogout(ss[|ls|], out, order);
  }
}
