/**
 * The lock-free rings of core/SPSC/spsc_ring_buffer.hpp, one atomic step at a time, under stale
 * reads: an acquire load may return any release-store of the other thread that is not older than
 * the newest one this thread already knows (sections 6.9.2.1 and 31.4 of ISO C++20), and then
 * everything the other thread did before that store happens before what follows the load.
 */
module WeakRing {
  import opened Bits
  import opened WeakFifo

  // ------------------------------ the three schemes ------------------------------

  /** Uncached: AtomicV1 and V2. CachedIndex: AtomicV3. CachedCounter: AtomicV4. */
  datatype Variant = Uncached | CachedIndex | CachedCounter

  datatype Config = Config(variant: Variant, capacity: nat)

  /** The static_asserts of the class templates; Capacity is a std::size_t. */
  predicate ValidConfig(c: Config) {
    2 <= c.capacity < WORD && IsPowerOfTwo(c.capacity)
  }

  /** How many elements the ring can hold. */
  function Limit(c: Config): nat
    requires ValidConfig(c)
  {
    if c.variant.CachedCounter? then c.capacity else c.capacity - 1
  }

  /** The value stored in head_ (tail_) after pushing (popping) from `own`. */
  function Successor(c: Config, own: nat): nat
    requires ValidConfig(c)
  {
    if c.variant.CachedCounter? then (own + 1) % WORD else Increment(own, c.capacity)
  }

  /** The cell used by the push or pop that starts at `own`. */
  function SlotOf(c: Config, own: nat): nat
    requires ValidConfig(c)
  {
    if c.variant.CachedCounter? then And(own, c.capacity - 1) else own
  }

  predicate LooksFull(c: Config, own: nat, tail: nat)
    requires ValidConfig(c)
  {
    if c.variant.CachedCounter? then (own - tail) % WORD == c.capacity else Successor(c, own) == tail
  }

  predicate LooksEmpty(own: nat, head: nat) {
    own == head
  }

  // ------------------------------ memory ------------------------------

  /**
   * What a thread knows: the newest store to head_ and to tail_, and how much of the producer's
   * cell writes and of the consumer's cell reads happens before its next action.
   */
  datatype View = View(head: nat, tail: nat, writes: nat, fetches: nat)

  function Max(a: nat, b: nat): nat {
    if a < b then b else a
  }

  function Join(v: View, w: View): View {
    View(Max(v.head, w.head), Max(v.tail, w.tail), Max(v.writes, w.writes), Max(v.fetches, w.fetches))
  }

  /** A release-store, with the view of the storing thread. */
  datatype Store = Store(value: nat, view: View)

  datatype CellWrite<T> = CellWrite(slot: nat, value: T)

  const NoView := View(0, 0, 0, 0)

  // ------------------------------ threads ------------------------------

  datatype ProducerPc<T> =
    | PIdle
    | PCompare(value: T, own: nat)
    | PReload(value: T, own: nat)
    | PWrite(value: T, own: nat)
    | PRelease(value: T, own: nat)

  datatype ConsumerPc<T> =
    | CIdle
    | CCompare(own: nat)
    | CReload(own: nat)
    | CRead(own: nat)
    | CRelease(own: nat, out: T)

  /**
   * `head` and `tail` are the modification orders of the two atomics; `writes` and `fetches` (the slots read) all cell
   * accesses so far. `pLocal` and `cLocal` are producer_head_ and consumer_tail_ of AtomicV4.
   * `pFrom` and `cFrom` (which store a cache holds), `pushed` and `popped` are history only: no
   * step looks at them.
   */
  datatype State<T> = State(
    head: seq<Store>, tail: seq<Store>, initial: T, writes: seq<CellWrite<T>>, fetches: seq<nat>,
    pc: ProducerPc<T>, pView: View, pCache: nat, pLocal: nat,
    cc: ConsumerPc<T>, cView: View, cCache: nat, cLocal: nat,
    pFrom: nat, cFrom: nat, pushed: seq<T>, popped: seq<T>)

  function Init<T>(initial: T): State<T> {
    State([Store(0, NoView)], [Store(0, NoView)], initial, [], [],
          PIdle, NoView, 0, 0, CIdle, NoView, 0, 0, 0, 0, [], [])
  }

  /**
   * One step of one thread. PBegin and CBegin load the thread's own index, `at` being the store
   * read; PLoadTail and CLoadHead are the acquire loads of the other index; CReadCell(w) reads the
   * cell and sees cell write `w` (-1: the initial contents); PSync and CSync acquire a store
   * through some other synchronisation between the two threads.
   */
  datatype Label<T> =
    | PBegin(value: T, at: nat)
    | PTest
    | PLoadTail(at: nat)
    | PWriteCell
    | PStoreHead
    | PSync(at: nat)
    | CBegin(at: nat)
    | CTest
    | CLoadHead(at: nat)
    | CReadCell(w: int)
    | CStoreTail
    | CSync(at: nat)

  /** Cell write `w` is to `slot` and no later known write to `slot` hides it. */
  ghost predicate Visible<T>(s: State<T>, slot: nat, w: int) {
    && -1 <= w < |s.writes|
    && (0 <= w ==> s.writes[w].slot == slot)
    && forall w' :: w < w' < |s.writes| && w' < s.cView.writes ==> s.writes[w'].slot != slot
  }

  ghost predicate Enabled<T>(c: Config, s: State<T>, l: Label<T>)
    requires ValidConfig(c)
  {
    match l
    case PBegin(_, at) => s.pc.PIdle? && s.pView.head <= at < |s.head|
    case PTest => s.pc.PCompare?
    case PLoadTail(at) => s.pc.PReload? && s.pView.tail <= at < |s.tail|
    case PWriteCell => s.pc.PWrite?
    case PStoreHead => s.pc.PRelease?
    case PSync(at) => at < |s.tail|
    case CBegin(at) => s.cc.CIdle? && s.cView.tail <= at < |s.tail|
    case CTest => s.cc.CCompare?
    case CLoadHead(at) => s.cc.CReload? && s.cView.head <= at < |s.head|
    case CReadCell(w) => s.cc.CRead? && Visible(s, SlotOf(c, s.cc.own), w)
    case CStoreTail => s.cc.CRelease?
    case CSync(at) => at < |s.head|
  }

  ghost function Apply<T>(c: Config, s: State<T>, l: Label<T>): State<T>
    requires ValidConfig(c) && Enabled(c, s, l)
  {
    match l
    case PBegin(v, at) =>
      var own := if c.variant.CachedCounter? then s.pLocal else s.head[at].value;
      s.(pc := PCompare(v, own), pView := s.pView.(head := at))
    case PTest =>
      if !c.variant.Uncached? && !LooksFull(c, s.pc.own, s.pCache)
      then s.(pc := PWrite(s.pc.value, s.pc.own))
      else s.(pc := PReload(s.pc.value, s.pc.own))
    case PLoadTail(at) =>
      var s' := s.(pCache := s.tail[at].value, pFrom := at, pView := Join(s.pView, s.tail[at].view));
      if LooksFull(c, s.pc.own, s'.pCache)
      then s'.(pc := PIdle)
      else s'.(pc := PWrite(s.pc.value, s.pc.own))
    case PWriteCell =>
      s.(writes := s.writes + [CellWrite(SlotOf(c, s.pc.own), s.pc.value)],
         pView := s.pView.(writes := |s.writes| + 1), pc := PRelease(s.pc.value, s.pc.own))
    case PStoreHead =>
      var next, view := Successor(c, s.pc.own), s.pView.(head := |s.head|);
      s.(head := s.head + [Store(next, view)], pView := view, pLocal := next, pc := PIdle,
         pushed := s.pushed + [s.pc.value])
    case PSync(at) => s.(pView := Join(s.pView, s.tail[at].view))
    case CBegin(at) =>
      var own := if c.variant.CachedCounter? then s.cLocal else s.tail[at].value;
      s.(cc := CCompare(own), cView := s.cView.(tail := at))
    case CTest =>
      if !c.variant.Uncached? && !LooksEmpty(s.cc.own, s.cCache)
      then s.(cc := CRead(s.cc.own))
      else s.(cc := CReload(s.cc.own))
    case CLoadHead(at) =>
      var s' := s.(cCache := s.head[at].value, cFrom := at, cView := Join(s.cView, s.head[at].view));
      if LooksEmpty(s.cc.own, s'.cCache)
      then s'.(cc := CIdle)
      else s'.(cc := CRead(s.cc.own))
    case CReadCell(w) =>
      s.(fetches := s.fetches + [SlotOf(c, s.cc.own)], cView := s.cView.(fetches := |s.fetches| + 1),
         cc := CRelease(s.cc.own, if w < 0 then s.initial else s.writes[w].value))
    case CStoreTail =>
      var next, view := Successor(c, s.cc.own), s.cView.(tail := |s.tail|);
      s.(tail := s.tail + [Store(next, view)], cView := view, cLocal := next, cc := CIdle,
         popped := s.popped + [s.cc.out])
    case CSync(at) => s.(cView := Join(s.cView, s.head[at].view))
  }

  /** What the callers of push and pop get to see at step `l`. */
  ghost function EventOf<T>(c: Config, s: State<T>, l: Label<T>): Event<T>
    requires ValidConfig(c) && Enabled(c, s, l)
  {
    match l
    case PLoadTail(at) => if LooksFull(c, s.pc.own, s.tail[at].value) then PushFailed else Silent
    case PStoreHead => Pushed(s.pc.value)
    case CLoadHead(at) => if LooksEmpty(s.cc.own, s.head[at].value) then PopFailed else Silent
    case CStoreTail => Popped(s.cc.out)
    case _ => Silent
  }

  // ------------------------------ data races ------------------------------

  /** The next cell write does not happen after some earlier read of that cell. */
  ghost predicate WriteRaces<T>(c: Config, s: State<T>)
    requires ValidConfig(c)
  {
    s.pc.PWrite? && exists r :: s.pView.fetches <= r < |s.fetches| && s.fetches[r] == SlotOf(c, s.pc.own)
  }

  /** The next cell read does not happen after some earlier write of that cell. */
  ghost predicate ReadRaces<T>(c: Config, s: State<T>)
    requires ValidConfig(c)
  {
    s.cc.CRead? && exists w :: s.cView.writes <= w < |s.writes| && s.writes[w].slot == SlotOf(c, s.cc.own)
  }

  // ------------------------------ arithmetic of the schemes ------------------------------

  /** What head_ or tail_ holds after `n` operations, for runs of any length. */
  function Encode(c: Config, n: nat): nat
    requires ValidConfig(c)
  {
    if c.variant.CachedCounter? then n % WORD else SlotAt(c.capacity, n)
  }

  lemma EncodeSteps(c: Config, n: nat)
    requires ValidConfig(c)
    ensures Successor(c, Encode(c, n)) == Encode(c, n + 1)
    ensures SlotOf(c, Encode(c, n)) == SlotAt(c.capacity, n)
  {
    if c.variant.CachedCounter? {
      AddWraps(n, 1, WORD);
      WrapKeepsSlot(n, c.capacity);
    } else {
      IncrementIsNext(SlotAt(c.capacity, n), c.capacity);
      SlotOfNext(c.capacity, n);
    }
  }

  /** However stale the cache, the full test answers for the occupancy it was taken at. */
  lemma FullTest(c: Config, head: nat, tail: nat)
    requires ValidConfig(c) && tail <= head <= tail + Limit(c)
    ensures LooksFull(c, Encode(c, head), Encode(c, tail)) <==> head - tail == Limit(c)
  {
    if c.variant.CachedCounter? {
      WrapDiff(head, tail, WORD);
    } else {
      EncodeSteps(c, head);
      if SlotAt(c.capacity, head + 1) == SlotAt(c.capacity, tail) {
        SlotGap(c.capacity, tail, head + 1);
      }
    }
  }

  lemma EmptyTest(c: Config, tail: nat, head: nat)
    requires ValidConfig(c) && tail <= head <= tail + Limit(c)
    ensures LooksEmpty(Encode(c, tail), Encode(c, head)) <==> tail == head
  {
    if Encode(c, tail) == Encode(c, head) && tail != head {
      if c.variant.CachedCounter? {
        ModGap(tail, head, WORD);
      } else {
        SlotGap(c.capacity, tail, head);
      }
    }
  }

  // ------------------------------ the invariant ------------------------------

  ghost predicate ViewOk<T>(s: State<T>, v: View) {
    && v.head <= v.writes <= |s.writes| && v.head < |s.head|
    && v.tail <= v.fetches <= |s.fetches| && v.tail < |s.tail|
  }

  ghost predicate HeadOk<T>(c: Config, s: State<T>)
    requires ValidConfig(c)
  {
    1 <= |s.head| && forall k :: 0 <= k < |s.head| ==>
      s.head[k].value == Encode(c, k) && s.head[k].view.head == k && ViewOk(s, s.head[k].view)
  }

  ghost predicate TailOk<T>(c: Config, s: State<T>)
    requires ValidConfig(c)
  {
    1 <= |s.tail| && forall k :: 0 <= k < |s.tail| ==>
      s.tail[k].value == Encode(c, k) && s.tail[k].view.tail == k && ViewOk(s, s.tail[k].view)
  }

  ghost predicate CellsOk<T>(c: Config, s: State<T>)
    requires ValidConfig(c)
  {
    && |s.pushed| <= |s.writes|
    && (forall n :: 0 <= n < |s.pushed| ==> s.writes[n] == CellWrite(SlotAt(c.capacity, n), s.pushed[n]))
    && (forall n :: 0 <= n < |s.fetches| ==> s.fetches[n] == SlotAt(c.capacity, n))
  }

  ghost predicate MemoryOk<T>(c: Config, s: State<T>)
    requires ValidConfig(c)
  {
    && HeadOk(c, s) && TailOk(c, s) && CellsOk(c, s)
    && |s.pushed| == |s.head| - 1 && |s.popped| == |s.tail| - 1
  }

  ghost predicate ProducerOk<T>(c: Config, s: State<T>)
    requires ValidConfig(c)
  {
    var h := |s.pushed|;
    && ViewOk(s, s.pView) && s.pView.head == h && s.pView.writes == |s.writes|
    && s.pCache == Encode(c, s.pFrom) && s.pFrom <= s.pView.tail
    && s.pLocal == Encode(c, h)
    && h <= s.pFrom + Limit(c)
    && (!s.pc.PIdle? ==> s.pc.own == Encode(c, h))
    && (s.pc.PWrite? || s.pc.PRelease? ==> h < s.pFrom + Limit(c))
    && |s.writes| == (if s.pc.PRelease? then h + 1 else h)
    && (s.pc.PRelease? ==> s.writes[h] == CellWrite(SlotAt(c.capacity, h), s.pc.value))
  }

  ghost predicate ConsumerOk<T>(c: Config, s: State<T>)
    requires ValidConfig(c)
  {
    var t := |s.popped|;
    && ViewOk(s, s.cView) && s.cView.tail == t && s.cView.fetches == |s.fetches|
    && s.cCache == Encode(c, s.cFrom)
    && s.cLocal == Encode(c, t)
    && t <= s.cFrom <= s.cView.head <= |s.pushed|
    && s.popped == s.pushed[..t]
    && (!s.cc.CIdle? ==> s.cc.own == Encode(c, t))
    && (s.cc.CRead? || s.cc.CRelease? ==> t < s.cFrom)
    && |s.fetches| == (if s.cc.CRelease? then t + 1 else t)
    && (s.cc.CRelease? ==> s.cc.out == s.pushed[t])
  }

  /** cached tail <= known tail <= tail <= cached head <= known head <= head <= cached tail + limit. */
  ghost predicate Inv<T>(c: Config, s: State<T>) {
    ValidConfig(c) && MemoryOk(c, s) && ProducerOk(c, s) && ConsumerOk(c, s)
  }

  lemma InitInv<T>(c: Config, initial: T)
    requires ValidConfig(c)
    ensures Inv(c, Init(initial))
  {
  }

  // ------------------------------ safety of the cell accesses ------------------------------

  /** No cell write meets a read it is not ordered after. */
  lemma NoWriteRace<T>(c: Config, s: State<T>)
    requires Inv(c, s)
    ensures !WriteRaces(c, s)
  {
    if s.pc.PWrite? {
      var h := |s.pushed|;
      EncodeSteps(c, h);
      forall r | s.pView.fetches <= r < |s.fetches|
        ensures s.fetches[r] != SlotOf(c, s.pc.own)
      {
        assert r < h;
        if SlotAt(c.capacity, r) == SlotAt(c.capacity, h) {
          SlotGap(c.capacity, r, h);
        }
      }
    }
  }

  /** Any two cell writes in flight around a read are to other cells than the one being read. */
  lemma OnlyWriteOfSlot<T>(c: Config, s: State<T>, w: nat)
    requires Inv(c, s) && s.cc.CRead? && w < |s.writes| && |s.popped| < w
    ensures s.writes[w].slot != SlotAt(c.capacity, |s.popped|)
  {
    assert s.writes[w].slot == SlotAt(c.capacity, w);
    if SlotAt(c.capacity, w) == SlotAt(c.capacity, |s.popped|) {
      SlotGap(c.capacity, |s.popped|, w);
    }
  }

  /** No cell read meets a write it is not ordered after. */
  lemma NoReadRace<T>(c: Config, s: State<T>)
    requires Inv(c, s)
    ensures !ReadRaces(c, s)
  {
    if s.cc.CRead? {
      EncodeSteps(c, |s.popped|);
      forall w | s.cView.writes <= w < |s.writes|
        ensures s.writes[w].slot != SlotOf(c, s.cc.own)
      {
        OnlyWriteOfSlot(c, s, w);
      }
    }
  }

  /**
   * The cell read has no choice: of all cell writes it can see only the one that carries the next
   * value in order, and that write happens before the read.
   */
  lemma ReadIsForced<T>(c: Config, s: State<T>, w: int)
    requires Inv(c, s) && s.cc.CRead?
    ensures |s.popped| < s.cView.writes <= |s.writes|
    ensures Visible(s, SlotOf(c, s.cc.own), w) <==> w == |s.popped|
    ensures s.writes[|s.popped|].value == s.pushed[|s.popped|]
  {
    var t := |s.popped|;
    EncodeSteps(c, t);
    assert s.writes[t] == CellWrite(SlotAt(c.capacity, t), s.pushed[t]);
    forall w' | t < w' < |s.writes|
      ensures s.writes[w'].slot != SlotAt(c.capacity, t)
    {
      OnlyWriteOfSlot(c, s, w');
    }
  }

  /** When a cell is overwritten, the read of the value it held happens before. */
  lemma OverwriteAfterRead<T>(c: Config, s: State<T>)
    requires Inv(c, s) && s.pc.PWrite?
    ensures |s.pushed| < s.pView.fetches + c.capacity
    ensures c.capacity <= |s.pushed| ==>
              s.fetches[|s.pushed| - c.capacity] == SlotOf(c, s.pc.own)
              && s.writes[|s.pushed| - c.capacity].slot == SlotOf(c, s.pc.own)
  {
    var h := |s.pushed|;
    EncodeSteps(c, h);
  }

  // ------------------------------ every step keeps the invariant ------------------------------

  /** A view keeps its meaning when memory only grows. */
  lemma MemoryKept<T>(c: Config, s: State<T>, s': State<T>)
    requires ValidConfig(c) && MemoryOk(c, s)
    requires s'.head == s.head && s'.tail == s.tail && s'.pushed == s.pushed && s'.popped == s.popped
    requires s.writes <= s'.writes && s.fetches <= s'.fetches
    requires forall n :: |s.fetches| <= n < |s'.fetches| ==> s'.fetches[n] == SlotAt(c.capacity, n)
    ensures MemoryOk(c, s')
    ensures forall v :: ViewOk(s, v) ==> ViewOk(s', v)
  {
  }

  lemma PBeginInv<T>(c: Config, s: State<T>, l: Label<T>)
    requires Inv(c, s) && Enabled(c, s, l) && l.PBegin?
    ensures Inv(c, Apply(c, s, l))
  {
  }

  lemma PTestInv<T>(c: Config, s: State<T>)
    requires Inv(c, s) && Enabled(c, s, PTest)
    ensures Inv(c, Apply(c, s, PTest))
  {
    FullTest(c, |s.pushed|, s.pFrom);
    MemoryKept(c, s, Apply(c, s, PTest));
  }

  lemma PLoadTailInv<T>(c: Config, s: State<T>, at: nat)
    requires Inv(c, s) && Enabled(c, s, PLoadTail(at))
    ensures Inv(c, Apply(c, s, PLoadTail(at)))
  {
    FullTest(c, |s.pushed|, at);
    assert ViewOk(s, s.tail[at].view) && s.tail[at].value == Encode(c, at);
    MemoryKept(c, s, Apply(c, s, PLoadTail(at)));
  }

  lemma PWriteCellInv<T>(c: Config, s: State<T>)
    requires Inv(c, s) && Enabled(c, s, PWriteCell)
    ensures Inv(c, Apply(c, s, PWriteCell))
  {
    EncodeSteps(c, |s.pushed|);
    MemoryKept(c, s, Apply(c, s, PWriteCell));
  }

  lemma PSyncInv<T>(c: Config, s: State<T>, at: nat)
    requires Inv(c, s) && Enabled(c, s, PSync(at))
    ensures Inv(c, Apply(c, s, PSync(at)))
  {
    assert ViewOk(s, s.tail[at].view);
    MemoryKept(c, s, Apply(c, s, PSync(at)));
  }

  /** One more release-store of the producer. */
  lemma HeadGrows<T>(c: Config, s: State<T>, s': State<T>, store: Store)
    requires ValidConfig(c) && HeadOk(c, s) && TailOk(c, s)
    requires s'.head == s.head + [store] && s'.tail == s.tail && s'.writes == s.writes && s'.fetches == s.fetches
    requires store.value == Encode(c, |s.head|) && store.view.head == |s.head| && ViewOk(s', store.view)
    ensures HeadOk(c, s') && TailOk(c, s')
    ensures forall v :: ViewOk(s, v) ==> ViewOk(s', v)
  {
  }

  lemma PStoreHeadCells<T>(c: Config, s: State<T>)
    requires Inv(c, s) && Enabled(c, s, PStoreHead)
    ensures CellsOk(c, Apply(c, s, PStoreHead))
  {
  }

  lemma PStoreHeadMemory<T>(c: Config, s: State<T>)
    requires Inv(c, s) && Enabled(c, s, PStoreHead)
    ensures MemoryOk(c, Apply(c, s, PStoreHead))
    ensures forall v :: ViewOk(s, v) ==> ViewOk(Apply(c, s, PStoreHead), v)
  {
    var s' := Apply(c, s, PStoreHead);
    EncodeSteps(c, |s.pushed|);
    PStoreHeadCells(c, s);
    HeadGrows(c, s, s', s'.head[|s.head|]);
  }

  lemma PStoreHeadInv<T>(c: Config, s: State<T>)
    requires Inv(c, s) && Enabled(c, s, PStoreHead)
    ensures Inv(c, Apply(c, s, PStoreHead))
  {
    var s' := Apply(c, s, PStoreHead);
    EncodeSteps(c, |s.pushed|);
    assert s'.pushed[..|s.popped|] == s.pushed[..|s.popped|];
    PStoreHeadMemory(c, s);
  }

  lemma CBeginInv<T>(c: Config, s: State<T>, at: nat)
    requires Inv(c, s) && Enabled(c, s, CBegin(at))
    ensures Inv(c, Apply(c, s, CBegin(at)))
  {
    MemoryKept(c, s, Apply(c, s, CBegin(at)));
  }

  lemma CTestInv<T>(c: Config, s: State<T>)
    requires Inv(c, s) && Enabled(c, s, CTest)
    ensures Inv(c, Apply(c, s, CTest))
  {
    EmptyTest(c, |s.popped|, s.cFrom);
    MemoryKept(c, s, Apply(c, s, CTest));
  }

  lemma CLoadHeadInv<T>(c: Config, s: State<T>, at: nat)
    requires Inv(c, s) && Enabled(c, s, CLoadHead(at))
    ensures Inv(c, Apply(c, s, CLoadHead(at)))
  {
    EmptyTest(c, |s.popped|, at);
    assert ViewOk(s, s.head[at].view) && s.head[at].value == Encode(c, at);
    MemoryKept(c, s, Apply(c, s, CLoadHead(at)));
  }

  lemma CReadCellConsumer<T>(c: Config, s: State<T>, w: int)
    requires Inv(c, s) && Enabled(c, s, CReadCell(w)) && w == |s.popped|
    requires s.writes[w].value == s.pushed[w]
    ensures ConsumerOk(c, Apply(c, s, CReadCell(w)))
  {
  }

  lemma CReadCellInv<T>(c: Config, s: State<T>, w: int)
    requires Inv(c, s) && Enabled(c, s, CReadCell(w))
    ensures Inv(c, Apply(c, s, CReadCell(w)))
  {
    var s' := Apply(c, s, CReadCell(w));
    EncodeSteps(c, |s.popped|);
    ReadIsForced(c, s, w);
    MemoryKept(c, s, s');
    CReadCellConsumer(c, s, w);
    assert ProducerOk(c, s');
  }

  lemma CSyncInv<T>(c: Config, s: State<T>, at: nat)
    requires Inv(c, s) && Enabled(c, s, CSync(at))
    ensures Inv(c, Apply(c, s, CSync(at)))
  {
    assert ViewOk(s, s.head[at].view);
    MemoryKept(c, s, Apply(c, s, CSync(at)));
  }

  lemma TailGrows<T>(c: Config, s: State<T>, s': State<T>, store: Store)
    requires ValidConfig(c) && HeadOk(c, s) && TailOk(c, s)
    requires s'.tail == s.tail + [store] && s'.head == s.head && s'.writes == s.writes && s'.fetches == s.fetches
    requires store.value == Encode(c, |s.tail|) && store.view.tail == |s.tail| && ViewOk(s', store.view)
    ensures HeadOk(c, s') && TailOk(c, s')
    ensures forall v :: ViewOk(s, v) ==> ViewOk(s', v)
  {
  }

  lemma CStoreTailMemory<T>(c: Config, s: State<T>)
    requires Inv(c, s) && Enabled(c, s, CStoreTail)
    ensures MemoryOk(c, Apply(c, s, CStoreTail))
    ensures forall v :: ViewOk(s, v) ==> ViewOk(Apply(c, s, CStoreTail), v)
  {
    var s' := Apply(c, s, CStoreTail);
    EncodeSteps(c, |s.popped|);
    TailGrows(c, s, s', s'.tail[|s.tail|]);
  }

  lemma CStoreTailInv<T>(c: Config, s: State<T>)
    requires Inv(c, s) && Enabled(c, s, CStoreTail)
    ensures Inv(c, Apply(c, s, CStoreTail))
  {
    var s' := Apply(c, s, CStoreTail);
    EncodeSteps(c, |s.popped|);
    CStoreTailMemory(c, s);
    CStoreTailConsumer(c, s);
    assert ProducerOk(c, s');
  }

  lemma CStoreTailConsumer<T>(c: Config, s: State<T>)
    requires Inv(c, s) && Enabled(c, s, CStoreTail)
    ensures ConsumerOk(c, Apply(c, s, CStoreTail))
  {
    EncodeSteps(c, |s.popped|);
    PrefixSnoc(s.pushed, |s.popped|);
  }

  lemma PrefixSnoc<T>(s: seq<T>, n: nat)
    requires n < |s|
    ensures s[..n] + [s[n]] == s[..n + 1]
  {
  }

  /** Every step of either thread, whatever stale values its loads return, keeps the invariant. */
  lemma StepInv<T>(c: Config, s: State<T>, l: Label<T>)
    requires Inv(c, s) && Enabled(c, s, l)
    ensures Inv(c, Apply(c, s, l))
  {
    match l {
      case PBegin(_, _) => PBeginInv(c, s, l);
      case PTest => PTestInv(c, s);
      case PLoadTail(at) => PLoadTailInv(c, s, at);
      case PWriteCell => PWriteCellInv(c, s);
      case PStoreHead => PStoreHeadInv(c, s);
      case PSync(at) => PSyncInv(c, s, at);
      case CBegin(at) => CBeginInv(c, s, at);
      case CTest => CTestInv(c, s);
      case CLoadHead(at) => CLoadHeadInv(c, s, at);
      case CReadCell(w) => CReadCellInv(c, s, w);
      case CStoreTail => CStoreTailInv(c, s);
      case CSync(at) => CSyncInv(c, s, at);
    }
  }

  // ------------------------------ refinement ------------------------------

  /** The abstract queue a ring state stands for. */
  ghost function Abstract<T>(s: State<T>): Fifo<T> {
    Fifo(s.pushed, |s.popped|, s.pView.tail, s.cView.head)
  }

  lemma AbstractValid<T>(c: Config, s: State<T>)
    requires Inv(c, s)
    ensures Valid(Limit(c), Abstract(s))
  {
  }

  lemma ProducerStepRefines<T>(c: Config, s: State<T>, l: Label<T>)
    requires Inv(c, s) && Enabled(c, s, l)
    requires l.PBegin? || l.PTest? || l.PLoadTail? || l.PWriteCell? || l.PStoreHead? || l.PSync?
    ensures Step(Limit(c), Abstract(s), EventOf(c, s, l), Abstract(Apply(c, s, l)))
  {
    match l {
      case PLoadTail(at) =>
        FullTest(c, |s.pushed|, at);
        assert ViewOk(s, s.tail[at].view);
      case PSync(at) =>
        assert ViewOk(s, s.tail[at].view);
      case _ =>
    }
  }

  lemma ConsumerStepRefines<T>(c: Config, s: State<T>, l: Label<T>)
    requires Inv(c, s) && Enabled(c, s, l)
    requires l.CBegin? || l.CTest? || l.CLoadHead? || l.CReadCell? || l.CStoreTail? || l.CSync?
    ensures Step(Limit(c), Abstract(s), EventOf(c, s, l), Abstract(Apply(c, s, l)))
  {
    match l {
      case CLoadHead(at) =>
        EmptyTest(c, |s.popped|, at);
        assert ViewOk(s, s.head[at].view);
      case CSync(at) =>
        assert ViewOk(s, s.head[at].view);
      case _ =>
    }
  }

  /** Each atomic step is one step of the bounded FIFO: the ring refines it. */
  lemma StepRefines<T>(c: Config, s: State<T>, l: Label<T>)
    requires Inv(c, s) && Enabled(c, s, l)
    ensures Step(Limit(c), Abstract(s), EventOf(c, s, l), Abstract(Apply(c, s, l)))
  {
    if l.PBegin? || l.PTest? || l.PLoadTail? || l.PWriteCell? || l.PStoreHead? || l.PSync? {
      ProducerStepRefines(c, s, l);
    } else {
      ConsumerStepRefines(c, s, l);
    }
  }

  /**
   * A failed push found the queue full at the tail store it read, a failed pop found it empty at
   * the head store it read; if the load returned the newest store, it is full (empty) right now.
   */
  lemma FailuresAreExact<T>(c: Config, s: State<T>, l: Label<T>)
    requires Inv(c, s) && Enabled(c, s, l)
    ensures l.PLoadTail? ==> (EventOf(c, s, l) == PushFailed <==> |s.pushed| - l.at == Limit(c))
    ensures l == PLoadTail(|s.tail| - 1) ==>
              (EventOf(c, s, l) == PushFailed <==> |Queue(Abstract(s))| == Limit(c))
    ensures l.CLoadHead? ==> (EventOf(c, s, l) == PopFailed <==> l.at == |s.popped|)
    ensures l == CLoadHead(|s.head| - 1) ==>
              (EventOf(c, s, l) == PopFailed <==> Queue(Abstract(s)) == [])
  {
    match l {
      case PLoadTail(at) => FullTest(c, |s.pushed|, at);
      case CLoadHead(at) => EmptyTest(c, |s.popped|, at);
      case _ =>
    }
  }

  /** A stale cache that lets a call through is right: there is room (there is an element). */
  lemma CacheHitsAreSound<T>(c: Config, s: State<T>)
    requires Inv(c, s)
    ensures Enabled(c, s, PTest) && Apply(c, s, PTest).pc.PWrite? ==> |Queue(Abstract(s))| < Limit(c)
    ensures Enabled(c, s, CTest) && Apply(c, s, CTest).cc.CRead? ==> Queue(Abstract(s)) != []
  {
    FullTest(c, |s.pushed|, s.pFrom);
    EmptyTest(c, |s.popped|, s.cFrom);
  }

  /** Acquiring a store through other synchronisation teaches at least that store. */
  lemma SyncLearns<T>(c: Config, s: State<T>, at: nat)
    requires Inv(c, s)
    ensures Enabled(c, s, CSync(at)) ==>
              Observes(Abstract(s), Abstract(Apply(c, s, CSync(at))))
              && at <= Abstract(Apply(c, s, CSync(at))).consumerSees
    ensures Enabled(c, s, PSync(at)) ==>
              Observes(Abstract(s), Abstract(Apply(c, s, PSync(at))))
              && at <= Abstract(Apply(c, s, PSync(at))).producerSees
  {
    if at < |s.head| {
      assert ViewOk(s, s.head[at].view) && s.head[at].view.head == at;
    }
    if at < |s.tail| {
      assert ViewOk(s, s.tail[at].view) && s.tail[at].view.tail == at;
    }
  }

  // ------------------------------ calls complete ------------------------------

  /** The steps of a push, and how far each leads. */
  predicate PushLabel<T>(l: Label<T>) {
    l.PBegin? || l.PTest? || l.PLoadTail? || l.PWriteCell? || l.PStoreHead?
  }

  function PushStage<T>(pc: ProducerPc<T>): nat {
    match pc
    case PIdle => 0
    case PCompare(_, _) => 1
    case PReload(_, _) => 2
    case PWrite(_, _) => 3
    case PRelease(_, _) => 4
  }

  /** In `s` the push of `v` that began in `s0` is under way, and no other thread has moved. */
  ghost predicate Pushing<T>(s0: State<T>, s: State<T>, v: T) {
    && !s.pc.PIdle? && s.pc.value == v
    && s.pushed == s0.pushed && s.popped == s0.popped && s0.pView.tail <= s.pView.tail
  }

  /** `e` ends a push of `v` that began in `s0`; `l` is its last step. */
  ghost predicate PushOutcome<T>(c: Config, s0: State<T>, v: T, l: Label<T>, e: Event<T>)
    requires ValidConfig(c) && |s0.popped| <= |s0.pushed|
  {
    if l.PLoadTail?
    then e == PushFailed && s0.pView.tail <= l.at <= |s0.popped| && |s0.pushed| == l.at + Limit(c)
    else e == Pushed(v) && |Queue(Abstract(s0))| < Limit(c)
  }

  ghost predicate PushStepOk<T>(c: Config, s0: State<T>, s: State<T>, l: Label<T>, v: T)
    requires ValidConfig(c) && |s0.popped| <= |s0.pushed| && Enabled(c, s, l)
  {
    var s', e := Apply(c, s, l), EventOf(c, s, l);
    if s'.pc.PIdle? then PushOutcome(c, s0, v, l, e)
    else Pushing(s0, s', v) && e.Silent? && PushStage(s.pc) < PushStage(s'.pc)
  }

  lemma PushBegins<T>(c: Config, s: State<T>, l: Label<T>)
    requires Inv(c, s) && Enabled(c, s, l) && l.PBegin?
    ensures PushStepOk(c, s, s, l, l.value)
  {
  }

  lemma PushLoads<T>(c: Config, s0: State<T>, s: State<T>, l: Label<T>, v: T)
    requires Inv(c, s) && Enabled(c, s, l) && l.PLoadTail? && Pushing(s0, s, v)
    ensures |s0.popped| <= |s0.pushed| && PushStepOk(c, s0, s, l, v)
  {
    FailuresAreExact(c, s, l);
  }

  lemma PushMoves<T>(c: Config, s0: State<T>, s: State<T>, l: Label<T>, v: T)
    requires Inv(c, s) && Enabled(c, s, l) && (l.PTest? || l.PWriteCell?) && Pushing(s0, s, v)
    ensures |s0.popped| <= |s0.pushed| && PushStepOk(c, s0, s, l, v)
  {
  }

  lemma PushEnds<T>(c: Config, s0: State<T>, s: State<T>, l: Label<T>, v: T)
    requires Inv(c, s) && Enabled(c, s, l) && l.PStoreHead? && Pushing(s0, s, v)
    ensures |s0.popped| <= |s0.pushed| && PushStepOk(c, s0, s, l, v)
  {
  }

  lemma PushStep<T>(c: Config, s0: State<T>, s: State<T>, l: Label<T>, v: T)
    requires |s0.popped| <= |s0.pushed| && Inv(c, s) && Enabled(c, s, l) && PushLabel(l)
    requires if l.PBegin? then s == s0 && l.value == v else Pushing(s0, s, v)
    ensures PushStepOk(c, s0, s, l, v)
  {
    match l {
      case PBegin(_, _) => PushBegins(c, s, l);
      case PLoadTail(_) => PushLoads(c, s0, s, l, v);
      case PStoreHead => PushEnds(c, s0, s, l, v);
      case _ => PushMoves(c, s0, s, l, v);
    }
  }

  /** Steps of the producer alone: it begins a push of `v` and has not returned before the last step. */
  ghost predicate PushCall<T>(c: Config, ss: seq<State<T>>, ls: seq<Label<T>>, v: T) {
    && 1 <= |ls| && |ss| == |ls| + 1
    && Inv(c, ss[0]) && ls[0].PBegin? && ls[0].value == v
    && (forall i :: 0 <= i < |ls| ==>
          PushLabel(ls[i]) && Enabled(c, ss[i], ls[i]) && ss[i + 1] == Apply(c, ss[i], ls[i]))
    && (forall i :: 0 < i < |ls| ==> !ss[i].pc.PIdle?)
  }

  lemma {:induction false} PushUnderway<T>(c: Config, ss: seq<State<T>>, ls: seq<Label<T>>, v: T, i: nat)
    requires PushCall(c, ss, ls, v) && i <= |ls| && (i < |ls| || !ss[i].pc.PIdle?)
    ensures Inv(c, ss[i]) && i <= PushStage(ss[i].pc)
    ensures 0 < i ==> Pushing(ss[0], ss[i], v) && EventOf(c, ss[i - 1], ls[i - 1]).Silent?
  {
    if i != 0 {
      PushUnderway(c, ss, ls, v, i - 1);
      StepInv(c, ss[i - 1], ls[i - 1]);
      PushStep(c, ss[0], ss[i - 1], ls[i - 1], v);
    }
  }

  /** The n-th step of a push, with n - 1 steps before it. */
  lemma PushNth<T>(c: Config, s0: State<T>, s: State<T>, l: Label<T>, v: T, n: nat)
    requires Inv(c, s0) && Enabled(c, s, l) && PushStepOk(c, s0, s, l, v)
    requires 1 <= n <= PushStage(s.pc) + 1
    ensures n <= 5
    ensures var s', e := Apply(c, s, l), EventOf(c, s, l);
      if s'.pc.PIdle? then
        PushOutcome(c, s0, v, l, e)
        && ((l.PLoadTail? ==> l.at == |s0.popped|) ==> (e == Pushed(v) <==> |Queue(Abstract(s0))| < Limit(c)))
      else e.Silent? && n <= 4
  {
  }

  /**
   * Every push that is not interrupted, whatever outdated tails its loads return: it is over within
   * five steps, shows nothing before the last, and then has succeeded, with room in the queue, or was
   * refused, because the queue was full at the tail store it read. If that was the newest store, it
   * succeeds exactly if there is room.
   */
  lemma PushCompletes<T>(c: Config, ss: seq<State<T>>, ls: seq<Label<T>>, v: T)
    requires PushCall(c, ss, ls, v)
    ensures |ls| <= 5
    ensures forall i :: 0 <= i < |ls| - 1 ==> EventOf(c, ss[i], ls[i]).Silent?
    ensures var n := |ls|; var l, e := ls[n - 1], EventOf(c, ss[n - 1], ls[n - 1]);
      if ss[n].pc.PIdle? then
        PushOutcome(c, ss[0], v, l, e)
        && ((l.PLoadTail? ==> l.at == |ss[0].popped|) ==> (e == Pushed(v) <==> |Queue(Abstract(ss[0]))| < Limit(c)))
      else e.Silent? && n <= 4
  {
    var n := |ls|;
    PushUnderway(c, ss, ls, v, n - 1);
    PushStep(c, ss[0], ss[n - 1], ls[n - 1], v);
    PushNth(c, ss[0], ss[n - 1], ls[n - 1], v, n);
    forall i | 0 <= i < n - 1
      ensures EventOf(c, ss[i], ls[i]).Silent?
    {
      PushUnderway(c, ss, ls, v, i + 1);
    }
  }

  /** The steps of a pop. */
  predicate PopLabel<T>(l: Label<T>) {
    l.CBegin? || l.CTest? || l.CLoadHead? || l.CReadCell? || l.CStoreTail?
  }

  function PopStage<T>(cc: ConsumerPc<T>): nat {
    match cc
    case CIdle => 0
    case CCompare(_) => 1
    case CReload(_) => 2
    case CRead(_) => 3
    case CRelease(_, _) => 4
  }

  ghost predicate Popping<T>(s0: State<T>, s: State<T>) {
    !s.cc.CIdle? && s.pushed == s0.pushed && s.popped == s0.popped && s0.cView.head <= s.cView.head
  }

  ghost predicate PopOutcome<T>(c: Config, s0: State<T>, l: Label<T>, e: Event<T>)
    requires ValidConfig(c) && |s0.popped| <= |s0.pushed|
  {
    if l.CLoadHead?
    then e == PopFailed && s0.cView.head <= l.at <= |s0.pushed| && l.at == |s0.popped|
    else Queue(Abstract(s0)) != [] && e == Popped(Queue(Abstract(s0))[0])
  }

  ghost predicate PopStepOk<T>(c: Config, s0: State<T>, s: State<T>, l: Label<T>)
    requires ValidConfig(c) && |s0.popped| <= |s0.pushed| && Enabled(c, s, l)
  {
    var s', e := Apply(c, s, l), EventOf(c, s, l);
    if s'.cc.CIdle? then PopOutcome(c, s0, l, e)
    else Popping(s0, s') && e.Silent? && PopStage(s.cc) < PopStage(s'.cc)
  }

  lemma PopBegins<T>(c: Config, s: State<T>, l: Label<T>)
    requires Inv(c, s) && Enabled(c, s, l) && l.CBegin?
    ensures PopStepOk(c, s, s, l)
  {
  }

  lemma PopLoads<T>(c: Config, s0: State<T>, s: State<T>, l: Label<T>)
    requires Inv(c, s) && Enabled(c, s, l) && l.CLoadHead? && Popping(s0, s)
    ensures |s0.popped| <= |s0.pushed| && PopStepOk(c, s0, s, l)
  {
    FailuresAreExact(c, s, l);
  }

  lemma PopMoves<T>(c: Config, s0: State<T>, s: State<T>, l: Label<T>)
    requires Inv(c, s) && Enabled(c, s, l) && (l.CTest? || l.CReadCell?) && Popping(s0, s)
    ensures |s0.popped| <= |s0.pushed| && PopStepOk(c, s0, s, l)
  {
  }

  lemma PopEnds<T>(c: Config, s0: State<T>, s: State<T>, l: Label<T>)
    requires Inv(c, s) && Enabled(c, s, l) && l.CStoreTail? && Popping(s0, s)
    ensures |s0.popped| <= |s0.pushed| && PopStepOk(c, s0, s, l)
  {
  }

  lemma PopStep<T>(c: Config, s0: State<T>, s: State<T>, l: Label<T>)
    requires |s0.popped| <= |s0.pushed| && Inv(c, s) && Enabled(c, s, l) && PopLabel(l)
    requires if l.CBegin? then s == s0 else Popping(s0, s)
    ensures PopStepOk(c, s0, s, l)
  {
    match l {
      case CBegin(_) => PopBegins(c, s, l);
      case CLoadHead(_) => PopLoads(c, s0, s, l);
      case CStoreTail => PopEnds(c, s0, s, l);
      case _ => PopMoves(c, s0, s, l);
    }
  }

  ghost predicate PopCall<T>(c: Config, ss: seq<State<T>>, ls: seq<Label<T>>) {
    && 1 <= |ls| && |ss| == |ls| + 1
    && Inv(c, ss[0]) && ls[0].CBegin?
    && (forall i :: 0 <= i < |ls| ==>
          PopLabel(ls[i]) && Enabled(c, ss[i], ls[i]) && ss[i + 1] == Apply(c, ss[i], ls[i]))
    && (forall i :: 0 < i < |ls| ==> !ss[i].cc.CIdle?)
  }

  lemma {:induction false} PopUnderway<T>(c: Config, ss: seq<State<T>>, ls: seq<Label<T>>, i: nat)
    requires PopCall(c, ss, ls) && i <= |ls| && (i < |ls| || !ss[i].cc.CIdle?)
    ensures Inv(c, ss[i]) && i <= PopStage(ss[i].cc)
    ensures 0 < i ==> Popping(ss[0], ss[i]) && EventOf(c, ss[i - 1], ls[i - 1]).Silent?
  {
    if i != 0 {
      PopUnderway(c, ss, ls, i - 1);
      StepInv(c, ss[i - 1], ls[i - 1]);
      PopStep(c, ss[0], ss[i - 1], ls[i - 1]);
    }
  }

  lemma PopNth<T>(c: Config, s0: State<T>, s: State<T>, l: Label<T>, n: nat)
    requires Inv(c, s0) && Enabled(c, s, l) && PopStepOk(c, s0, s, l)
    requires 1 <= n <= PopStage(s.cc) + 1
    ensures n <= 5
    ensures var s', e := Apply(c, s, l), EventOf(c, s, l);
      if s'.cc.CIdle? then
        PopOutcome(c, s0, l, e)
        && ((l.CLoadHead? ==> l.at == |s0.pushed|) ==> (e == PopFailed <==> Queue(Abstract(s0)) == []))
      else e.Silent? && n <= 4
  {
  }

  /**
   * The same for every pop: over within five steps, with the oldest element, or false because the
   * queue was empty at the head store it read; on the newest store, false exactly if it is empty.
   */
  lemma PopCompletes<T>(c: Config, ss: seq<State<T>>, ls: seq<Label<T>>)
    requires PopCall(c, ss, ls)
    ensures |ls| <= 5
    ensures forall i :: 0 <= i < |ls| - 1 ==> EventOf(c, ss[i], ls[i]).Silent?
    ensures var n := |ls|; var l, e := ls[n - 1], EventOf(c, ss[n - 1], ls[n - 1]);
      if ss[n].cc.CIdle? then
        PopOutcome(c, ss[0], l, e)
        && ((l.CLoadHead? ==> l.at == |ss[0].pushed|) ==> (e == PopFailed <==> Queue(Abstract(ss[0])) == []))
      else e.Silent? && n <= 4
  {
    var n := |ls|;
    PopUnderway(c, ss, ls, n - 1);
    PopStep(c, ss[0], ss[n - 1], ls[n - 1]);
    PopNth(c, ss[0], ss[n - 1], ls[n - 1], n);
    forall i | 0 <= i < n - 1
      ensures EventOf(c, ss[i], ls[i]).Silent?
    {
      PopUnderway(c, ss, ls, i + 1);
    }
  }

  /** No thread is ever stuck: in every state each has a next step of its call, or can begin one. */
  lemma NeverStuck<T>(c: Config, s: State<T>, v: T)
    requires Inv(c, s)
    ensures exists l: Label<T> :: PushLabel(l) && Enabled(c, s, l)
    ensures exists l: Label<T> :: PopLabel(l) && Enabled(c, s, l)
  {
    var p: Label<T> := match s.pc
      case PIdle => PBegin(v, s.pView.head)
      case PCompare(_, _) => PTest
      case PReload(_, _) => PLoadTail(|s.tail| - 1)
      case PWrite(_, _) => PWriteCell
      case PRelease(_, _) => PStoreHead;
    assert PushLabel(p) && Enabled(c, s, p);
    if s.cc.CRead? {
      ReadIsForced(c, s, |s.popped|);
    }
    var q: Label<T> := match s.cc
      case CIdle => CBegin(s.cView.tail)
      case CCompare(_) => CTest
      case CReload(_) => CLoadHead(|s.head| - 1)
      case CRead(_) => CReadCell(|s.popped|)
      case CRelease(_, _) => CStoreTail;
    assert PopLabel(q) && Enabled(c, s, q);
  }

  // ------------------------------ whole runs ------------------------------

  ghost predicate Run<T>(c: Config, ss: seq<State<T>>, ls: seq<Label<T>>) {
    && ValidConfig(c)
    && |ss| == |ls| + 1
    && ss[0] == Init(ss[0].initial)
    && forall i :: 0 <= i < |ls| ==> Enabled(c, ss[i], ls[i]) && ss[i + 1] == Apply(c, ss[i], ls[i])
  }

  ghost function Trace<T>(c: Config, ss: seq<State<T>>, ls: seq<Label<T>>): seq<Event<T>>
    requires Run(c, ss, ls)
  {
    seq(|ls|, i requires 0 <= i < |ls| => EventOf(c, ss[i], ls[i]))
  }

  lemma {:induction false} RunInv<T>(c: Config, ss: seq<State<T>>, ls: seq<Label<T>>, n: nat)
    requires Run(c, ss, ls) && n <= |ls|
    ensures Inv(c, ss[n])
  {
    if n == 0 {
      InitInv(c, ss[0].initial);
    } else {
      RunInv(c, ss, ls, n - 1);
      StepInv(c, ss[n - 1], ls[n - 1]);
    }
  }

  /**
   * Main theorem. In every run of one producer and one consumer: no two conflicting cell accesses
   * race; what push and pop return is a run of the bounded FIFO; the popped values are a prefix of
   * the pushed ones, in order, and never fall behind by more than the limit.
   */
  lemma RunsAreSafe<T>(c: Config, ss: seq<State<T>>, ls: seq<Label<T>>)
    requires Run(c, ss, ls)
    ensures forall n :: 0 <= n < |ss| ==> !WriteRaces(c, ss[n]) && !ReadRaces(c, ss[n])
    ensures WeakFifo.Run(Limit(c), seq(|ss|, i requires 0 <= i < |ss| => Abstract(ss[i])), Trace(c, ss, ls))
    ensures Outputs(Trace(c, ss, ls)) <= Inputs(Trace(c, ss, ls))
    ensures |Inputs(Trace(c, ss, ls))| - |Outputs(Trace(c, ss, ls))| <= Limit(c)
  {
    forall n | 0 <= n < |ss|
      ensures !WriteRaces(c, ss[n]) && !ReadRaces(c, ss[n])
    {
      RunInv(c, ss, ls, n);
      NoWriteRace(c, ss[n]);
      NoReadRace(c, ss[n]);
    }
    var fs := seq(|ss|, i requires 0 <= i < |ss| => Abstract(ss[i]));
    forall i | 0 <= i < |ls|
      ensures Step(Limit(c), fs[i], Trace(c, ss, ls)[i], fs[i + 1])
    {
      RunInv(c, ss, ls, i);
      StepRefines(c, ss[i], ls[i]);
    }
    RunIsFifo(Limit(c), fs, Trace(c, ss, ls));
  }

  /** Every acquire load returns the newest store, as under sequential consistency. */
  ghost predicate Coherent<T>(ss: seq<State<T>>, ls: seq<Label<T>>) {
    && |ls| <= |ss|
    && forall i :: 0 <= i < |ls| ==>
         (ls[i].PLoadTail? ==> ls[i].at == |ss[i].tail| - 1) && (ls[i].CLoadHead? ==> ls[i].at == |ss[i].head| - 1)
  }

  /**
   * With newest loads (AtomicV1, or any variant on such a run) the ring is the exact bounded FIFO:
   * each step accepts only below the limit, refuses only at it, and reports empty only when empty.
   */
  lemma CoherentRunsAreExact<T>(c: Config, ss: seq<State<T>>, ls: seq<Label<T>>, i: nat)
    requires Run(c, ss, ls) && Coherent(ss, ls) && i < |ls|
    ensures ExactStep(Limit(c), Abstract(ss[i]), Trace(c, ss, ls)[i], Abstract(ss[i + 1]))
  {
    RunInv(c, ss, ls, i);
    CoherentStep(c, ss[i], ls[i]);
  }

  lemma CoherentStep<T>(c: Config, s: State<T>, l: Label<T>)
    requires Inv(c, s) && Enabled(c, s, l)
    requires l.PLoadTail? ==> l.at == |s.tail| - 1
    requires l.CLoadHead? ==> l.at == |s.head| - 1
    ensures ExactStep(Limit(c), Abstract(s), EventOf(c, s, l), Abstract(Apply(c, s, l)))
  {
    AbstractValid(c, s);
    StepRefines(c, s, l);
    FailuresAreExact(c, s, l);
    ExactIfFailuresAre(Limit(c), Abstract(s), EventOf(c, s, l), Abstract(Apply(c, s, l)));
  }
}
