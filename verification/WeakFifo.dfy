/**
 * The abstract queue that one producer and one consumer share: a bounded FIFO in which each side
 * may look at an outdated count of the other side's progress. It is what the lock-free rings
 * implement (WeakRing) and what the two-thread gateway is built on (Protocol).
 */
module WeakFifo {

  /** What one call, or one silent step inside a call, shows to its caller. */
  datatype Event<T> = Silent | Pushed(value: T) | PushFailed | Popped(value: T) | PopFailed

  /** `producerSees` of the pops and `consumerSees` of the pushes are known to the other side. */
  datatype Fifo<T> = Fifo(pushed: seq<T>, popped: nat, producerSees: nat, consumerSees: nat)

  function EmptyFifo<T>(): Fifo<T> {
    Fifo([], 0, 0, 0)
  }

  ghost predicate Valid<T>(limit: nat, f: Fifo<T>) {
    f.producerSees <= f.popped <= f.consumerSees <= |f.pushed| <= f.producerSees + limit
  }

  /** The elements that are in the queue. */
  function Queue<T>(f: Fifo<T>): seq<T>
    requires f.popped <= |f.pushed|
  {
    f.pushed[f.popped..]
  }

  /** Nothing moves, but either side may learn more of the other's progress. */
  ghost predicate Observes<T>(f: Fifo<T>, f': Fifo<T>) {
    && f'.pushed == f.pushed
    && f'.popped == f.popped
    && f.producerSees <= f'.producerSees <= f.popped
    && f.consumerSees <= f'.consumerSees <= |f.pushed|
  }

  ghost predicate Step<T>(limit: nat, f: Fifo<T>, e: Event<T>, f': Fifo<T>) {
    match e
    case Silent => Observes(f, f')
    case Pushed(v) => |f.pushed| < f.producerSees + limit && f' == f.(pushed := f.pushed + [v])
    case PushFailed => Observes(f, f') && |f'.pushed| == f'.producerSees + limit
    case Popped(v) =>
      f.popped < f.consumerSees <= |f.pushed| && v == f.pushed[f.popped] && f' == f.(popped := f.popped + 1)
    case PopFailed => Observes(f, f') && f'.popped == f'.consumerSees
  }

  lemma StepKeepsValid<T>(limit: nat, f: Fifo<T>, e: Event<T>, f': Fifo<T>)
    requires Valid(limit, f) && Step(limit, f, e, f')
    ensures Valid(limit, f')
  {
  }

  /** A step of the queue without outdated counts: refusals, too, tell the truth about the present. */
  ghost predicate ExactStep<T>(limit: nat, f: Fifo<T>, e: Event<T>, f': Fifo<T>) {
    && Valid(limit, f) && Valid(limit, f')
    && match e
       case Silent => Queue(f') == Queue(f)
       case Pushed(v) => |Queue(f)| < limit && Queue(f') == Queue(f) + [v]
       case PushFailed => |Queue(f)| == limit && Queue(f') == Queue(f)
       case Popped(v) => Queue(f) != [] && v == Queue(f)[0] && Queue(f') == Queue(f)[1..]
       case PopFailed => Queue(f) == [] && Queue(f') == Queue(f)
  }

  lemma ExactIfFailuresAre<T>(limit: nat, f: Fifo<T>, e: Event<T>, f': Fifo<T>)
    requires Valid(limit, f) && Step(limit, f, e, f')
    requires e.PushFailed? ==> |Queue(f)| == limit
    requires e.PopFailed? ==> Queue(f) == []
    ensures ExactStep(limit, f, e, f')
  {
  }

  function Inputs<T>(es: seq<Event<T>>): (r: seq<T>) {
    if es == [] then []
    else
      var init, last := es[..|es| - 1], es[|es| - 1];
      if last.Pushed? then Inputs(init) + [last.value] else Inputs(init)
  }

  function Outputs<T>(es: seq<Event<T>>): (r: seq<T>) {
    if es == [] then []
    else
      var init, last := es[..|es| - 1], es[|es| - 1];
      if last.Popped? then Outputs(init) + [last.value] else Outputs(init)
  }

  /** fs[0] is the empty queue and every es[i] leads from fs[i] to fs[i + 1]. */
  ghost predicate Run<T>(limit: nat, fs: seq<Fifo<T>>, es: seq<Event<T>>) {
    && |fs| == |es| + 1
    && fs[0] == EmptyFifo()
    && forall i :: 0 <= i < |es| ==> Step(limit, fs[i], es[i], fs[i + 1])
  }

  /** In every run the queue holds exactly the accepted values not yet delivered, in order. */
  lemma {:induction false} RunIsFifo<T>(limit: nat, fs: seq<Fifo<T>>, es: seq<Event<T>>)
    requires Run(limit, fs, es)
    ensures var f := fs[|es|];
      Valid(limit, f) && f.pushed == Inputs(es) && f.pushed[..f.popped] == Outputs(es)
  {
    if es != [] {
      var n := |es| - 1;
      assert Run(limit, fs[..n + 1], es[..n]) by {
        forall i | 0 <= i < n
          ensures Step(limit, fs[..n + 1][i], es[..n][i], fs[..n + 1][i + 1])
        {
          assert Step(limit, fs[i], es[i], fs[i + 1]);
        }
      }
      RunIsFifo(limit, fs[..n + 1], es[..n]);
      assert Step(limit, fs[n], es[n], fs[n + 1]);
      StepKeepsValid(limit, fs[n], es[n], fs[n + 1]);
      var f, f' := fs[n], fs[n + 1];
      if es[n].Popped? {
        assert f'.pushed[..f'.popped] == f.pushed[..f.popped] + [es[n].value];
      } else {
        assert f'.pushed[..f'.popped] == f.pushed[..f.popped];
      }
    }
  }
}
