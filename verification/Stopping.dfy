/** How the matching thread ends: the Shutdown command is the last, or it is lost and the thread never ends. */
module Stopping {
  import opened Gateway
  import opened Protocol

  /**
   * Shutdown is pushed only when the gateway stops, and then nothing after it; the engine halts
   * exactly when it has handled it.
   */
  ghost predicate Stops(s: State) {
    && (forall i :: 0 <= i < |s.cmds.pushed| && s.cmds.pushed[i].kind.Shutdown? ==>
          i == |s.cmds.pushed| - 1 && s.gpc.Stopped?)
    && Halts(s)
  }

  /** Steps of the gateway: none once it has stopped. */
  lemma StoppedIsLast(s: State, l: Label)
    requires Basic(s) && Enabled(s, l) && s.gpc.Stopped?
    ensures l.PopCommand? || l.Answer? || l.WriteEventfd? || l.Learn?
    ensures Apply(s, l).gpc.Stopped? && Apply(s, l).cmds.pushed == s.cmds.pushed
  {
    EngineKeepsGateway(s, l);
    CommandsPushed(s, l);
  }

  lemma QuitPushes(s: State, l: Label)
    requires Basic(s) && Enabled(s, l) && CommandEvent(l).Pushed? && CommandEvent(l).value.kind.Shutdown?
    ensures l.Quit? && Apply(s, l).gpc.Stopped?
  {
    if l.ParseRound? {
      ParsePushes(s, l.ce, l.cq);
    }
  }

  /** An order is no Shutdown. */
  lemma ParsePushes(s: State, e: F.Event<EngineCommand>, q: F.Fifo<EngineCommand>)
    requires Basic(s) && Enabled(s, ParseRound(e, q)) && e.Pushed?
    ensures !e.value.kind.Shutdown?
  {
  }

  lemma PushedStops(s: State, l: Label)
    requires Basic(s) && Enabled(s, l) && Stops(s)
    ensures var s' := Apply(s, l);
      forall i :: 0 <= i < |s'.cmds.pushed| && s'.cmds.pushed[i].kind.Shutdown? ==>
        i == |s'.cmds.pushed| - 1 && s'.gpc.Stopped?
  {
    CommandsPushed(s, l);
    if s.gpc.Stopped? {
      StoppedIsLast(s, l);
    } else if CommandEvent(l).Pushed? && CommandEvent(l).value.kind.Shutdown? {
      QuitPushes(s, l);
    }
  }

  ghost predicate Halts(s: State) {
    && (s.epc.Halted? <==> s.handled != [] && s.handled[|s.handled| - 1].kind.Shutdown?)
    && (s.epc.Holding? ==> !s.epc.command.kind.Shutdown?)
  }

  lemma PopHalts(s: State, e: F.Event<EngineCommand>, q: F.Fifo<EngineCommand>)
    requires Basic(s) && Enabled(s, PopCommand(e, q)) && Halts(s)
    ensures Halts(Apply(s, PopCommand(e, q)))
  {
  }

  lemma AnswerHalts(s: State, e: F.Event<EngineResponse>, q: F.Fifo<EngineResponse>)
    requires Basic(s) && Enabled(s, Answer(e, q)) && Halts(s)
    ensures Halts(Apply(s, Answer(e, q)))
  {
  }

  lemma WriteHalts(s: State)
    requires Basic(s) && Enabled(s, WriteEventfd) && Halts(s)
    ensures Halts(Apply(s, WriteEventfd))
  {
  }

  /** What the engine handles last, and whether it goes on. */
  lemma HaltsAtShutdown(s: State, l: Label)
    requires Basic(s) && Enabled(s, l) && Halts(s)
    ensures Halts(Apply(s, l))
  {
    match l {
      case PopCommand(e, q) => PopHalts(s, e, q);
      case Answer(e, q) => AnswerHalts(s, e, q);
      case WriteEventfd => WriteHalts(s);
      case _ => EngineKept(s, l);
    }
  }

  lemma EngineKept(s: State, l: Label)
    requires Basic(s) && Enabled(s, l)
    ensures l.PopCommand? || l.Answer? || l.WriteEventfd?
            || (Apply(s, l).epc == s.epc && Apply(s, l).handled == s.handled)
  {
    match l {
      case Accept(_) =>
      case Receive(_, _) =>
      case Overflow(_, _, _, _) =>
      case Hangup(_, _, _) =>
      case ParseRound(_, _) =>
      case Send(sendOk, e, q) => SendKept(s, sendOk, e, q);
      case _ =>
    }
  }

  lemma SendKept(s: State, sendOk: bool, e: F.Event<EngineCommand>, q: F.Fifo<EngineCommand>)
    requires Basic(s) && Enabled(s, Send(sendOk, e, q))
    ensures Apply(s, Send(sendOk, e, q)).epc == s.epc && Apply(s, Send(sendOk, e, q)).handled == s.handled
  {
  }

  lemma FollowsStops(s: State, l: Label, s': State)
    requires Follows(s, l, s') && Stops(s)
    ensures Stops(s')
  {
    PushedStops(s, l);
    HaltsAtShutdown(s, l);
  }

  lemma RunStops(ss: seq<State>, ls: seq<Label>, n: nat)
    requires Run(ss, ls) && n <= |ls|
    ensures Stops(ss[n])
  {
    assert Stops(Init());
    forall i | 0 <= i < n
      ensures Stops(ss[i]) ==> Stops(ss[i + 1])
    {
      if Stops(ss[i]) {
        FollowsStops(ss[i], ls[i], ss[i + 1]);
      }
    }
    Along(Stops, ss, n);
  }

  /**
   * The matching thread ends exactly when it has handled a Shutdown; then it has handled every command
   * ever accepted, the Shutdown last, and the gateway pushes no more.
   */
  lemma NothingIsLeftBehind(ss: seq<State>, ls: seq<Label>, n: nat)
    requires Run(ss, ls) && n <= |ls|
    ensures var s := ss[n];
      && (s.epc.Halted? <==> exists i :: 0 <= i < |s.handled| && s.handled[i].kind.Shutdown?)
      && (s.epc.Halted? ==>
            s.gpc.Stopped? && s.handled == s.cmds.pushed && s.handled[|s.handled| - 1].kind.Shutdown?)
  {
    RunInv(ss, ls, n);
    RunStops(ss, ls, n);
    AllHandled(ss[n]);
  }

  lemma AllHandled(s: State)
    requires Conserved(s) && Stops(s)
    ensures s.epc.Halted? <==> exists i :: 0 <= i < |s.handled| && s.handled[i].kind.Shutdown?
    ensures s.epc.Halted? ==> s.gpc.Stopped? && s.handled == s.cmds.pushed
  {
    forall i | 0 <= i < |s.handled| && s.handled[i].kind.Shutdown?
      ensures i == |s.cmds.pushed| - 1 == |s.handled| - 1 && s.gpc.Stopped?
    {
      assert s.cmds.pushed[i] == s.handled[i];
    }
    if s.epc.Halted? {
      assert s.handled[|s.handled| - 1].kind.Shutdown?;
      assert s.cmds.pushed == s.handled + (InHand(s) + F.Queue(s.cmds));
    }
  }

  // ------------------------------ a Shutdown that finds no room ------------------------------

  /** The gateway has stopped, and its Shutdown is not among the commands. */
  ghost predicate ShutdownLost(s: State) {
    && s.gpc.Stopped? && forall i :: 0 <= i < |s.cmds.pushed| ==> !s.cmds.pushed[i].kind.Shutdown?
  }

  /** A refused push of Shutdown loses it. */
  lemma QuitRefused(s: State, e: F.Event<EngineCommand>, q: F.Fifo<EngineCommand>)
    requires Basic(s) && Stops(s) && Enabled(s, Quit(e, q))
    ensures ShutdownLost(Apply(s, Quit(e, q))) <==> e.PushFailed?
  {
    var s' := Apply(s, Quit(e, q));
    CommandsPushed(s, Quit(e, q));
    if e.Pushed? {
      assert s'.cmds.pushed[|s'.cmds.pushed| - 1].kind.Shutdown?;
    }
  }

  lemma FollowsLost(s: State, l: Label, s': State)
    requires Follows(s, l, s') && ShutdownLost(s)
    ensures ShutdownLost(s')
  {
    StoppedIsLast(s, l);
  }

  /** Then no continuation ends the matching thread, and the join of main waits for ever. */
  lemma NeverEnds(ss: seq<State>, ls: seq<Label>, n: nat, m: nat)
    requires Run(ss, ls) && n <= m <= |ls| && ShutdownLost(ss[n])
    ensures !ss[m].epc.Halted?
  {
    forall i | n <= i < m
      ensures ShutdownLost(ss[i]) ==> ShutdownLost(ss[i + 1])
    {
      if ShutdownLost(ss[i]) {
        FollowsLost(ss[i], ls[i], ss[i + 1]);
      }
    }
    LostAlong(ss, n, m);
    if ss[m].epc.Halted? {
      NothingIsLeftBehind(ss, ls, m);
    }
  }

  lemma {:induction false} LostAlong(ss: seq<State>, n: nat, m: nat)
    requires n <= m < |ss| && ShutdownLost(ss[n])
    requires forall i :: n <= i < m ==> (ShutdownLost(ss[i]) ==> ShutdownLost(ss[i + 1]))
    ensures ShutdownLost(ss[m])
  {
    if n < m {
      LostAlong(ss, n, m - 1);
      assert ShutdownLost(ss[m - 1]) ==> ShutdownLost(ss[m - 1 + 1]);
    }
  }
}
