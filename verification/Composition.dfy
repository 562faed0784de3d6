/**
 * The whole server down to the atomic steps: the two threads (Protocol) on two AtomicV3 rings of 4096
 * cells (WeakRing), whose calls take many steps under stale loads. Every run of this is a run of the
 * protocol machine, so what is proved there holds here; and neither ring ever has a data race.
 */
module Composition {
  import opened Subsequences
  import opened Gateway
  import F = WeakFifo
  import P = Protocol
  import R = WeakRing

  /** SpscRingBufferAtomicV3 with kQueueCapacity cells. */
  const RING := R.Config(R.CachedIndex, 4096)

  lemma RingLimit()
    ensures R.ValidConfig(RING) && R.Limit(RING) == P.LIMIT
  {
    P.QueueLimit();
  }

  /** `core` repeats what the rings hold in its own two queues; no step's condition looks at those. */
  datatype State = State(core: P.State, cmds: R.State<EngineCommand>, rsps: R.State<EngineResponse>)

  ghost predicate IsInit(s: State) {
    s.core == P.Init() && s.cmds == R.Init(s.cmds.initial) && s.rsps == R.Init(s.rsps.initial)
  }

  /**
   * Local steps touch no queue. A ring step at which its call returns is taken together with the
   * thread's own step; all other ring steps may come at any time, of calls for any value, which
   * includes all that the threads do. Reading the eventfd acquires what the last write published.
   */
  datatype Step =
    | Local(move: P.Label)
    | OnCommands(move: P.Label, cmdStep: R.Label<EngineCommand>)
    | OnResponses(move: P.Label, rspStep: R.Label<EngineResponse>)
    | WithinCommands(cmdStep: R.Label<EngineCommand>)
    | WithinResponses(rspStep: R.Label<EngineResponse>)
    | Wakeup

  /** The command queue event and the queue after it, of a label that has them. */
  predicate ShowsCommand(l: P.Label, e: F.Event<EngineCommand>, q: F.Fifo<EngineCommand>) {
    (l.Overflow? || l.Hangup? || l.ParseRound? || l.Send? || l.Quit? || l.PopCommand?) && l.ce == e && l.cq == q
  }

  predicate ShowsResponse(l: P.Label, e: F.Event<EngineResponse>, q: F.Fifo<EngineResponse>) {
    (l.PopResponse? || l.Answer?) && l.re == e && l.rq == q
  }

  predicate TouchesNoQueue(s: P.State, l: P.Label) {
    || l.Accept? || l.Receive? || l.WriteEventfd?
    || ShowsCommand(l, F.Silent, s.cmds) || ShowsResponse(l, F.Silent, s.rsps)
  }

  ghost predicate Enabled(s: State, step: Step)
    requires P.Basic(s.core) && R.ValidConfig(RING)
  {
    match step
    case Local(l) => TouchesNoQueue(s.core, l) && P.Control(s.core, l)
    case OnCommands(l, r) =>
      && R.Enabled(RING, s.cmds, r) && !R.EventOf(RING, s.cmds, r).Silent?
      && ShowsCommand(l, R.EventOf(RING, s.cmds, r), R.Abstract(R.Apply(RING, s.cmds, r)))
      && P.Control(s.core, l)
    case OnResponses(l, r) =>
      && R.Enabled(RING, s.rsps, r) && !R.EventOf(RING, s.rsps, r).Silent?
      && ShowsResponse(l, R.EventOf(RING, s.rsps, r), R.Abstract(R.Apply(RING, s.rsps, r)))
      && P.Control(s.core, l)
    case WithinCommands(r) => R.Enabled(RING, s.cmds, r) && R.EventOf(RING, s.cmds, r).Silent?
    case WithinResponses(r) => R.Enabled(RING, s.rsps, r) && R.EventOf(RING, s.rsps, r).Silent?
    case Wakeup =>
      R.Enabled(RING, s.rsps, R.CSync(s.core.posted)) && P.Control(s.core, P.ReadEventfd(R.Abstract(s.rsps)))
  }

  /** The rings after the step. */
  ghost function CommandRing(s: State, step: Step): R.State<EngineCommand>
    requires P.Basic(s.core) && R.ValidConfig(RING) && Enabled(s, step)
  {
    match step
    case OnCommands(_, r) => R.Apply(RING, s.cmds, r)
    case WithinCommands(r) => R.Apply(RING, s.cmds, r)
    case _ => s.cmds
  }

  ghost function ResponseRing(s: State, step: Step): R.State<EngineResponse>
    requires P.Basic(s.core) && R.ValidConfig(RING) && Enabled(s, step)
  {
    match step
    case OnResponses(_, r) => R.Apply(RING, s.rsps, r)
    case WithinResponses(r) => R.Apply(RING, s.rsps, r)
    case Wakeup => R.Apply(RING, s.rsps, R.CSync(s.core.posted))
    case _ => s.rsps
  }

  /** The step of the protocol machine that this step is. */
  ghost function LabelOf(s: State, step: Step): P.Label
    requires P.Basic(s.core) && R.ValidConfig(RING) && Enabled(s, step)
  {
    match step
    case Local(l) => l
    case OnCommands(l, _) => l
    case OnResponses(l, _) => l
    case WithinCommands(_) => P.Learn(R.Abstract(CommandRing(s, step)), R.Abstract(s.rsps))
    case WithinResponses(_) => P.Learn(R.Abstract(s.cmds), R.Abstract(ResponseRing(s, step)))
    case Wakeup => P.ReadEventfd(R.Abstract(ResponseRing(s, step)))
  }

  ghost predicate Follows(s: State, step: Step, s': State)
    requires R.ValidConfig(RING)
  {
    && P.Basic(s.core) && Enabled(s, step)
    && P.Control(s.core, LabelOf(s, step)) && s'.core == P.Apply(s.core, LabelOf(s, step))
    && s'.cmds == CommandRing(s, step) && s'.rsps == ResponseRing(s, step)
  }

  /** The protocol's queues are what the rings stand for. */
  ghost predicate Linked(s: State) {
    && R.Inv(RING, s.cmds) && R.Inv(RING, s.rsps)
    && s.core.cmds == R.Abstract(s.cmds) && s.core.rsps == R.Abstract(s.rsps)
  }

  // ------------------------------ one step ------------------------------

  /** A ring step is a step of the abstract queue, of the size the protocol machine uses. */
  lemma RingStep<T>(s: R.State<T>, r: R.Label<T>)
    requires R.Inv(RING, s) && R.Enabled(RING, s, r)
    ensures R.Inv(RING, R.Apply(RING, s, r))
    ensures F.Step(P.LIMIT, R.Abstract(s), R.EventOf(RING, s, r), R.Abstract(R.Apply(RING, s, r)))
  {
    RingLimit();
    R.StepInv(RING, s, r);
    R.StepRefines(RING, s, r);
  }

  lemma RingObserves<T>(s: R.State<T>)
    requires R.Inv(RING, s)
    ensures F.Observes(R.Abstract(s), R.Abstract(s))
  {
    R.AbstractValid(RING, s);
  }

  /** The queues after a step of the protocol machine that shows something of the command queue. */
  lemma CoreCommand(s: P.State, l: P.Label, e: F.Event<EngineCommand>, q: F.Fifo<EngineCommand>)
    requires P.Basic(s) && P.Control(s, l) && ShowsCommand(l, e, q)
    requires if e.Silent? then q == s.cmds else F.Step(P.LIMIT, s.cmds, e, q)
    ensures P.Queues(s, l) && P.Apply(s, l).cmds == q && P.Apply(s, l).rsps == s.rsps
  {
    match l {
      case Send(sendOk, _, _) => CoreSend(s, sendOk, e, q);
      case Overflow(_, _, _, _) =>
      case Hangup(_, _, _) =>
      case ParseRound(_, _) =>
      case Quit(_, _) =>
      case PopCommand(_, _) =>
    }
  }

  lemma CoreSend(s: P.State, sendOk: bool, e: F.Event<EngineCommand>, q: F.Fifo<EngineCommand>)
    requires P.Basic(s) && P.Control(s, P.Send(sendOk, e, q))
    requires if e.Silent? then q == s.cmds else F.Step(P.LIMIT, s.cmds, e, q)
    ensures P.Queues(s, P.Send(sendOk, e, q))
    ensures P.Apply(s, P.Send(sendOk, e, q)).cmds == q && P.Apply(s, P.Send(sendOk, e, q)).rsps == s.rsps
  {
  }

  lemma CoreResponse(s: P.State, l: P.Label, e: F.Event<EngineResponse>, q: F.Fifo<EngineResponse>)
    requires P.Basic(s) && P.Control(s, l) && ShowsResponse(l, e, q)
    requires if e.Silent? then q == s.rsps else F.Step(P.LIMIT, s.rsps, e, q)
    ensures P.Queues(s, l) && P.Apply(s, l).rsps == q && P.Apply(s, l).cmds == s.cmds
  {
    match l {
      case PopResponse(_, _) =>
      case Answer(_, _) =>
    }
  }

  lemma CoreLearn(s: P.State, cq: F.Fifo<EngineCommand>, rq: F.Fifo<EngineResponse>)
    requires P.Basic(s) && F.Observes(s.cmds, cq) && F.Observes(s.rsps, rq)
    ensures P.Control(s, P.Learn(cq, rq)) && P.Queues(s, P.Learn(cq, rq))
    ensures P.Apply(s, P.Learn(cq, rq)).cmds == cq && P.Apply(s, P.Learn(cq, rq)).rsps == rq
  {
  }

  lemma CoreLocal(s: P.State, l: P.Label)
    requires P.Basic(s) && P.Control(s, l) && TouchesNoQueue(s, l)
    ensures P.Queues(s, l) && P.Apply(s, l).cmds == s.cmds && P.Apply(s, l).rsps == s.rsps
  {
    match l {
      case Accept(_) =>
      case Receive(_, _) =>
      case WriteEventfd =>
      case _ =>
        if ShowsCommand(l, F.Silent, s.cmds) {
          CoreCommand(s, l, F.Silent, s.cmds);
        } else {
          CoreResponse(s, l, F.Silent, s.rsps);
        }
    }
  }

  lemma CoreWakeup(s: P.State, q: F.Fifo<EngineResponse>)
    requires P.Basic(s) && P.Control(s, P.ReadEventfd(q)) && F.Observes(s.rsps, q) && s.posted <= q.consumerSees
    ensures P.Queues(s, P.ReadEventfd(q))
    ensures P.Apply(s, P.ReadEventfd(q)).cmds == s.cmds && P.Apply(s, P.ReadEventfd(q)).rsps == q
  {
  }

  /** `s'` follows `s`, and is linked and a step of the protocol machine. */
  ghost predicate Simulates(s: State, step: Step, s': State)
    requires R.ValidConfig(RING) && P.Basic(s.core) && Enabled(s, step)
  {
    Linked(s') && P.Queues(s.core, LabelOf(s, step))
  }

  lemma LocalStep(s: State, l: P.Label, s': State)
    requires R.ValidConfig(RING) && Linked(s) && Follows(s, Local(l), s')
    ensures Simulates(s, Local(l), s')
  {
    CoreLocal(s.core, l);
  }

  lemma OnCommandsStep(s: State, l: P.Label, r: R.Label<EngineCommand>, s': State)
    requires R.ValidConfig(RING) && Linked(s) && Follows(s, OnCommands(l, r), s')
    ensures Simulates(s, OnCommands(l, r), s')
  {
    RingStep(s.cmds, r);
    CoreCommand(s.core, l, R.EventOf(RING, s.cmds, r), R.Abstract(s'.cmds));
  }

  lemma OnResponsesStep(s: State, l: P.Label, r: R.Label<EngineResponse>, s': State)
    requires R.ValidConfig(RING) && Linked(s) && Follows(s, OnResponses(l, r), s')
    ensures Simulates(s, OnResponses(l, r), s')
  {
    RingStep(s.rsps, r);
    CoreResponse(s.core, l, R.EventOf(RING, s.rsps, r), R.Abstract(s'.rsps));
  }

  lemma WithinCommandsStep(s: State, r: R.Label<EngineCommand>, s': State)
    requires R.ValidConfig(RING) && Linked(s) && Follows(s, WithinCommands(r), s')
    ensures Simulates(s, WithinCommands(r), s')
  {
    RingStep(s.cmds, r);
    RingObserves(s.rsps);
    CoreLearn(s.core, R.Abstract(s'.cmds), R.Abstract(s.rsps));
  }

  lemma WithinResponsesStep(s: State, r: R.Label<EngineResponse>, s': State)
    requires R.ValidConfig(RING) && Linked(s) && Follows(s, WithinResponses(r), s')
    ensures Simulates(s, WithinResponses(r), s')
  {
    RingStep(s.rsps, r);
    RingObserves(s.cmds);
    CoreLearn(s.core, R.Abstract(s.cmds), R.Abstract(s'.rsps));
  }

  lemma WakeupStep(s: State, s': State)
    requires R.ValidConfig(RING) && Linked(s) && Follows(s, Wakeup, s')
    ensures Simulates(s, Wakeup, s')
  {
    RingStep(s.rsps, R.CSync(s.core.posted));
    R.SyncLearns(RING, s.rsps, s.core.posted);
    CoreWakeup(s.core, R.Abstract(s'.rsps));
  }

  /** Each step of the rings and threads is a step of the protocol machine. */
  lemma StepSimulates(s: State, step: Step, s': State)
    requires R.ValidConfig(RING) && Linked(s) && Follows(s, step, s')
    ensures Linked(s') && P.Follows(s.core, LabelOf(s, step), s'.core)
  {
    match step {
      case Local(l) => LocalStep(s, l, s');
      case OnCommands(l, r) => OnCommandsStep(s, l, r, s');
      case OnResponses(l, r) => OnResponsesStep(s, l, r, s');
      case WithinCommands(r) => WithinCommandsStep(s, r, s');
      case WithinResponses(r) => WithinResponsesStep(s, r, s');
      case Wakeup => WakeupStep(s, s');
    }
  }

  // ------------------------------ whole runs ------------------------------

  ghost predicate Run(ss: seq<State>, steps: seq<Step>) {
    && R.ValidConfig(RING)
    && |ss| == |steps| + 1
    && IsInit(ss[0])
    && forall i :: 0 <= i < |steps| ==> Follows(ss[i], steps[i], ss[i + 1])
  }

  ghost function Cores(ss: seq<State>): (cores: seq<P.State>)
    ensures |cores| == |ss| && forall i :: 0 <= i < |ss| ==> cores[i] == ss[i].core
  {
    seq(|ss|, i requires 0 <= i < |ss| => ss[i].core)
  }

  /** What each step is in the protocol machine. */
  ghost function Labels(ss: seq<State>, steps: seq<Step>): (ls: seq<P.Label>)
    requires |steps| <= |ss|
    ensures |ls| == |steps| && forall i :: 0 <= i < |steps| ==> ls[i] == LabelAt(ss[i], steps[i])
  {
    seq(|steps|, i requires 0 <= i < |steps| => LabelAt(ss[i], steps[i]))
  }

  ghost function LabelAt(s: State, step: Step): P.Label {
    if P.Basic(s.core) && R.ValidConfig(RING) && Enabled(s, step) then LabelOf(s, step) else P.WriteEventfd
  }

  lemma InitLinked(s: State)
    requires R.ValidConfig(RING) && IsInit(s)
    ensures Linked(s)
  {
    R.InitInv(RING, s.cmds.initial);
    R.InitInv(RING, s.rsps.initial);
  }

  lemma FollowsSimulates(s: State, step: Step, s': State)
    requires R.ValidConfig(RING) && Linked(s) && Follows(s, step, s')
    ensures Linked(s') && P.Follows(s.core, LabelAt(s, step), s'.core)
  {
    StepSimulates(s, step, s');
  }

  lemma StaysLinked(ss: seq<State>, steps: seq<Step>, n: nat)
    requires Run(ss, steps) && n <= |steps|
    ensures Linked(ss[n])
  {
    InitLinked(ss[0]);
    forall i | 0 <= i < n
      ensures Linked(ss[i]) ==> Linked(ss[i + 1])
    {
      if Linked(ss[i]) {
        FollowsSimulates(ss[i], steps[i], ss[i + 1]);
      }
    }
    P.Along(Linked, ss, n);
  }

  /** Neither ring is about to have a race. */
  ghost predicate NoRace(s: State)
    requires R.ValidConfig(RING)
  {
    && !R.WriteRaces(RING, s.cmds) && !R.ReadRaces(RING, s.cmds)
    && !R.WriteRaces(RING, s.rsps) && !R.ReadRaces(RING, s.rsps)
  }

  lemma LinkedIsSafe(s: State)
    requires R.ValidConfig(RING) && Linked(s)
    ensures NoRace(s)
  {
    R.NoWriteRace(RING, s.cmds);
    R.NoReadRace(RING, s.cmds);
    R.NoWriteRace(RING, s.rsps);
    R.NoReadRace(RING, s.rsps);
  }

  /**
   * The simulation. Every run of the two threads on the two rings, under all stale loads, is a run of
   * the protocol machine, whose queues are at each moment what the rings stand for; and in no state
   * does either ring have a race.
   */
  lemma RunsSimulate(ss: seq<State>, steps: seq<Step>)
    requires Run(ss, steps)
    ensures P.Run(Cores(ss), Labels(ss, steps))
    ensures forall n :: 0 <= n < |ss| ==> Linked(ss[n]) && NoRace(ss[n])
  {
    forall n | 0 <= n < |ss|
      ensures Linked(ss[n]) && NoRace(ss[n])
    {
      StaysLinked(ss, steps, n);
      LinkedIsSafe(ss[n]);
    }
    var cores, ls := Cores(ss), Labels(ss, steps);
    forall i | 0 <= i < |ls|
      ensures P.Follows(cores[i], ls[i], cores[i + 1])
    {
      FollowsSimulates(ss[i], steps[i], ss[i + 1]);
    }
  }

  /** So the main theorem of the pipeline holds of the threads on the real rings. */
  lemma ResponsesReachTheirSession(ss: seq<State>, steps: seq<Step>, n: nat, k: nat)
    requires Run(ss, steps) && n < |ss|
    requires |ss[n].core.sessions| <= P.DISTINCT_TOKENS && k < |ss[n].core.sessions|
    ensures Sub(P.DeliveredTo(ss[n].core, k), Collect(Stub, P.CommandsFor(ss[n].core.sessions[k])))
  {
    RunsSimulate(ss, steps);
    P.RunInv(Cores(ss), Labels(ss, steps), n);
    P.ResponsesReachTheirSession(ss[n].core, k);
  }
}
