/** The functional meaning of a bounded queue, for scripts of calls from one thread at a time. */
module BoundedFifo {

  datatype Call<T> = Push(value: T) | Pop

  /** What push (a bool) and pop (a bool and its out-parameter) return. */
  datatype Reply<T> = Accepted | Full | Got(value: T) | Empty

  function After<T>(limit: nat, q: seq<T>, call: Call<T>): (q': seq<T>) {
    match call
    case Push(v) => if |q| < limit then q + [v] else q
    case Pop => if q == [] then q else q[1..]
  }

  function ReplyTo<T>(limit: nat, q: seq<T>, call: Call<T>): Reply<T> {
    match call
    case Push(_) => if |q| < limit then Accepted else Full
    case Pop => if q == [] then Empty else Got(q[0])
  }

  function Contents<T>(limit: nat, calls: seq<Call<T>>): seq<T> {
    if calls == [] then []
    else After(limit, Contents(limit, calls[..|calls| - 1]), calls[|calls| - 1])
  }

  function Replies<T>(limit: nat, calls: seq<Call<T>>): seq<Reply<T>> {
    if calls == [] then []
    else
      var init := calls[..|calls| - 1];
      Replies(limit, init) + [ReplyTo(limit, Contents(limit, init), calls[|calls| - 1])]
  }
}

/**
 * The rings of core/SPSC/spsc_ring_buffer.hpp as objects that one thread at a time calls. Threads
 * that interleave inside the calls are the subject of WeakRing.
 */
module SpscRing {
  import opened Bits
  import opened BoundedFifo
  import opened WeakRing

  /** The cells from counter `first` on hold `q`. */
  ghost predicate Holds<T>(cells: seq<T>, first: nat, q: seq<T>) {
    && 1 <= |cells| && |q| <= |cells|
    && forall n :: first <= n < first + |q| ==> cells[SlotAt(|cells|, n)] == q[n - first]
  }

  /** Writing behind the last element touches none of the others: their counters are too close. */
  lemma WriteHolds<T>(cells: seq<T>, first: nat, q: seq<T>, value: T)
    requires Holds(cells, first, q) && |q| < |cells|
    ensures Holds(cells[SlotAt(|cells|, first + |q|) := value], first, q + [value])
  {
    var end := first + |q|;
    forall n | first <= n < end
      ensures SlotAt(|cells|, n) != SlotAt(|cells|, end)
    {
      if SlotAt(|cells|, n) == SlotAt(|cells|, end) {
        SlotGap(|cells|, n, end);
      }
    }
  }

  lemma TakeHolds<T>(cells: seq<T>, first: nat, q: seq<T>)
    requires Holds(cells, first, q) && q != []
    ensures cells[SlotAt(|cells|, first)] == q[0]
    ensures Holds(cells, first + 1, q[1..])
  {
  }

  /** Indices or counters, wrapped, and cells stand for `contents` after `pops` pops. */
  ghost predicate RingOk<T>(c: Config, cells: seq<T>, head: nat, tail: nat, pops: nat, contents: seq<T>) {
    && ValidConfig(c) && |cells| == c.capacity && |contents| <= Limit(c)
    && head == Encode(c, pops + |contents|) && tail == Encode(c, pops)
    && Holds(cells, pops, contents)
  }

  /** The two caches hold earlier values, from which at most the limit was pushed since. */
  ghost predicate CachesOk(c: Config, pCache: nat, cCache: nat, pops: nat, pushes: nat,
                           cachedPops: nat, cachedPushes: nat)
    requires ValidConfig(c)
  {
    && pCache == Encode(c, cachedPops) && cCache == Encode(c, cachedPushes)
    && cachedPops <= pops <= cachedPushes <= pushes <= cachedPops + Limit(c)
  }

  lemma PushOk<T>(c: Config, cells: seq<T>, head: nat, tail: nat, pops: nat, contents: seq<T>, value: T)
    requires RingOk(c, cells, head, tail, pops, contents) && |contents| < Limit(c)
    ensures SlotOf(c, head) < |cells|
    ensures RingOk(c, cells[SlotOf(c, head) := value], Successor(c, head), tail, pops, contents + [value])
  {
    EncodeSteps(c, pops + |contents|);
    WriteHolds(cells, pops, contents, value);
  }

  lemma PopOk<T>(c: Config, cells: seq<T>, head: nat, tail: nat, pops: nat, contents: seq<T>)
    requires RingOk(c, cells, head, tail, pops, contents) && contents != []
    ensures SlotOf(c, tail) < |cells| && cells[SlotOf(c, tail)] == contents[0]
    ensures RingOk(c, cells, head, Successor(c, tail), pops + 1, contents[1..])
  {
    EncodeSteps(c, pops);
    TakeHolds(cells, pops, contents);
  }

  /** SpscRingBufferMutex, AtomicV1 and AtomicV2: the same index arithmetic, no caches. */
  class SpscRingBufferUncached<T(0)> {
    const capacity: nat
    const buffer: array<T>
    var head: nat
    var tail: nat
    ghost var pops: nat
    ghost var contents: seq<T>

    ghost const c := Config(Uncached, capacity)

    ghost predicate Valid()
      reads this, buffer
    {
      RingOk(c, buffer[..], head, tail, pops, contents)
    }

    constructor (capacity: nat)
      requires 2 <= capacity < WORD && IsPowerOfTwo(capacity)
      ensures Valid() && fresh(buffer) && this.capacity == capacity && contents == []
    {
      this.capacity := capacity;
      buffer := new T[capacity];
      head, tail := 0, 0;
      pops, contents := 0, [];
    }

    method Push(value: T) returns (ok: bool)
      requires Valid()
      modifies this, buffer
      ensures Valid()
      ensures ok <==> |old(contents)| < capacity - 1
      ensures contents == After(capacity - 1, old(contents), BoundedFifo.Push(value))
    {
      var next := Increment(head, capacity);
      FullTest(c, pops + |contents|, pops);
      if next == tail {
        return false;
      }
      PushOk(c, buffer[..], head, tail, pops, contents, value);
      buffer[head] := value;
      head := next;
      contents := contents + [value];
      return true;
    }

    method Pop(before: T) returns (ok: bool, out: T)
      requires Valid()
      modifies this
      ensures Valid()
      ensures ok <==> old(contents) != []
      ensures out == if ok then old(contents)[0] else before
      ensures contents == After(capacity - 1, old(contents), BoundedFifo.Pop)
    {
      EmptyTest(c, pops, pops + |contents|);
      if tail == head {
        return false, before;
      }
      PopOk(c, buffer[..], head, tail, pops, contents);
      out := buffer[tail];
      tail := Increment(tail, capacity);
      pops, contents := pops + 1, contents[1..];
      return true, out;
    }
  }

  /** SpscRingBufferAtomicV3: indices modulo the capacity, each side caching the other's index. */
  class SpscRingBufferAtomicV3<T(0)> {
    const capacity: nat
    const buffer: array<T>
    var head: nat
    var tail: nat
    var producerTailCache: nat
    var consumerHeadCache: nat
    ghost var pops: nat
    ghost var contents: seq<T>
    ghost var cachedPops: nat
    ghost var cachedPushes: nat

    ghost const c := Config(CachedIndex, capacity)

    ghost predicate Valid()
      reads this, buffer
    {
      && RingOk(c, buffer[..], head, tail, pops, contents)
      && CachesOk(c, producerTailCache, consumerHeadCache, pops, pops + |contents|, cachedPops, cachedPushes)
    }

    constructor (capacity: nat)
      requires 2 <= capacity < WORD && IsPowerOfTwo(capacity)
      ensures Valid() && fresh(buffer) && this.capacity == capacity && contents == []
    {
      this.capacity := capacity;
      buffer := new T[capacity];
      head, tail, producerTailCache, consumerHeadCache := 0, 0, 0, 0;
      pops, contents, cachedPops, cachedPushes := 0, [], 0, 0;
    }

    method Push(value: T) returns (ok: bool)
      requires Valid()
      modifies this, buffer
      ensures Valid()
      ensures ok <==> |old(contents)| < capacity - 1
      ensures contents == After(capacity - 1, old(contents), BoundedFifo.Push(value))
    {
      var next := Increment(head, capacity);
      FullTest(c, pops + |contents|, cachedPops);
      if next == producerTailCache {
        producerTailCache, cachedPops := tail, pops;
        FullTest(c, pops + |contents|, pops);
        if next == producerTailCache {
          return false;
        }
      }
      PushOk(c, buffer[..], head, tail, pops, contents, value);
      buffer[head] := value;
      head := next;
      contents := contents + [value];
      return true;
    }

    /** Constructs the element from `args`; otherwise the same calls as Push. */
    method Emplace<A>(construct: A -> T, args: A) returns (ok: bool)
      requires Valid()
      modifies this, buffer
      ensures Valid()
      ensures ok <==> |old(contents)| < capacity - 1
      ensures contents == After(capacity - 1, old(contents), BoundedFifo.Push(construct(args)))
    {
      var next := Increment(head, capacity);
      FullTest(c, pops + |contents|, cachedPops);
      if next == producerTailCache {
        producerTailCache, cachedPops := tail, pops;
        FullTest(c, pops + |contents|, pops);
        if next == producerTailCache {
          return false;
        }
      }
      PushOk(c, buffer[..], head, tail, pops, contents, construct(args));
      buffer[head] := construct(args);
      head := next;
      contents := contents + [construct(args)];
      return true;
    }

    /** The empty test on the cached head, with the reload if that looks empty. */
    method HasElement() returns (there: bool)
      requires Valid()
      modifies this`consumerHeadCache, this`cachedPushes
      ensures Valid()
      ensures there <==> contents != []
      ensures there ==> pops < cachedPushes
    {
      EmptyTest(c, pops, cachedPushes);
      if tail == consumerHeadCache {
        consumerHeadCache, cachedPushes := head, pops + |contents|;
        EmptyTest(c, pops, cachedPushes);
        if tail == consumerHeadCache {
          return false;
        }
      }
      return true;
    }

    method Pop(before: T) returns (ok: bool, out: T)
      requires Valid()
      modifies this
      ensures Valid()
      ensures ok <==> old(contents) != []
      ensures out == if ok then old(contents)[0] else before
      ensures contents == After(capacity - 1, old(contents), BoundedFifo.Pop)
    {
      ok := HasElement();
      if !ok {
        return false, before;
      }
      PopOk(c, buffer[..], head, tail, pops, contents);
      out := buffer[tail];
      tail := Increment(tail, capacity);
      pops, contents := pops + 1, contents[1..];
      return true, out;
    }
  }

  /** The full test of the counter scheme, on counters that may have wrapped at 2^64. */
  lemma CounterFullTest(c: Config, own: nat, cached: nat, head: nat, tail: nat)
    requires ValidConfig(c) && c.variant.CachedCounter? && tail <= head <= tail + c.capacity
    requires own == Encode(c, head) && cached == Encode(c, tail)
    ensures (own - cached) % WORD == c.capacity <==> head - tail == c.capacity
  {
    FullTest(c, head, tail);
  }

  /** PushOk and PopOk in the terms of the counter scheme. */
  lemma CounterPushOk<T>(c: Config, cells: seq<T>, head: nat, tail: nat, pops: nat, contents: seq<T>, value: T)
    requires RingOk(c, cells, head, tail, pops, contents) && c.variant.CachedCounter? && |contents| < c.capacity
    ensures And(head, c.capacity - 1) < |cells|
    ensures RingOk(c, cells[And(head, c.capacity - 1) := value], (head + 1) % WORD, tail, pops, contents + [value])
  {
    PushOk(c, cells, head, tail, pops, contents, value);
  }

  lemma CounterPopOk<T>(c: Config, cells: seq<T>, head: nat, tail: nat, pops: nat, contents: seq<T>)
    requires RingOk(c, cells, head, tail, pops, contents) && c.variant.CachedCounter? && contents != []
    ensures And(tail, c.capacity - 1) < |cells| && cells[And(tail, c.capacity - 1)] == contents[0]
    ensures RingOk(c, cells, head, (tail + 1) % WORD, pops + 1, contents[1..])
  {
    PopOk(c, cells, head, tail, pops, contents);
  }

  /** SpscRingBufferAtomicV4: free-running 64-bit counters, each side caching the other's counter. */
  class SpscRingBufferAtomicV4<T(0)> {
    const capacity: nat
    const buffer: array<T>
    var head: nat
    var tail: nat
    var producerHead: nat
    var producerTail: nat
    var consumerHead: nat
    var consumerTail: nat
    ghost var pops: nat
    ghost var contents: seq<T>
    ghost var cachedPops: nat
    ghost var cachedPushes: nat

    ghost const c := Config(CachedCounter, capacity)

    ghost predicate Valid()
      reads this, buffer
    {
      && RingOk(c, buffer[..], head, tail, pops, contents) && head == producerHead && tail == consumerTail
      && CachesOk(c, producerTail, consumerHead, pops, pops + |contents|, cachedPops, cachedPushes)
    }

    constructor (capacity: nat)
      requires 2 <= capacity < WORD && IsPowerOfTwo(capacity)
      ensures Valid() && fresh(buffer) && this.capacity == capacity && contents == []
    {
      this.capacity := capacity;
      buffer := new T[capacity];
      head, tail, producerHead, producerTail, consumerHead, consumerTail := 0, 0, 0, 0, 0, 0;
      pops, contents, cachedPops, cachedPushes := 0, [], 0, 0;
    }

    /** The full test on the cached tail, with the reload if that looks full. */
    method HasRoom() returns (room: bool)
      requires Valid()
      modifies this`producerTail, this`cachedPops
      ensures Valid()
      ensures room <==> |contents| < capacity
      ensures room ==> pops + |contents| < cachedPops + capacity
    {
      CounterFullTest(c, producerHead, producerTail, pops + |contents|, cachedPops);
      if (producerHead - producerTail) % WORD == capacity {
        producerTail, cachedPops := tail, pops;
        CounterFullTest(c, producerHead, producerTail, pops + |contents|, cachedPops);
        if (producerHead - producerTail) % WORD == capacity {
          return false;
        }
      }
      return true;
    }

    method Push(value: T) returns (ok: bool)
      requires Valid()
      modifies this, buffer
      ensures Valid()
      ensures ok <==> |old(contents)| < capacity
      ensures contents == After(capacity, old(contents), BoundedFifo.Push(value))
    {
      ok := HasRoom();
      if !ok {
        return;
      }
      CounterPushOk(c, buffer[..], head, tail, pops, contents, value);
      buffer[And(producerHead, capacity - 1)] := value;
      producerHead := (producerHead + 1) % WORD;
      head := producerHead;
      contents := contents + [value];
    }

    method Pop(before: T) returns (ok: bool, out: T)
      requires Valid()
      modifies this
      ensures Valid()
      ensures ok <==> old(contents) != []
      ensures out == if ok then old(contents)[0] else before
      ensures contents == After(capacity, old(contents), BoundedFifo.Pop)
    {
      EmptyTest(c, pops, cachedPushes);
      if consumerHead == consumerTail {
        consumerHead, cachedPushes := head, pops + |contents|;
        EmptyTest(c, pops, cachedPushes);
        if consumerHead == consumerTail {
          return false, before;
        }
      }
      CounterPopOk(c, buffer[..], head, tail, pops, contents);
      out := buffer[And(consumerTail, capacity - 1)];
      consumerTail := (consumerTail + 1) % WORD;
      tail := consumerTail;
      pops, contents := pops + 1, contents[1..];
      return true, out;
    }
  }

  method CallUncached<T(0)>(ring: SpscRingBufferUncached<T>, call: Call<T>, before: T) returns (r: Reply<T>)
    requires ring.Valid()
    modifies ring, ring.buffer
    ensures ring.Valid()
    ensures r == ReplyTo(ring.capacity - 1, old(ring.contents), call)
    ensures ring.contents == After(ring.capacity - 1, old(ring.contents), call)
  {
    match call {
      case Push(value) =>
        var ok := ring.Push(value);
        r := if ok then Accepted else Full;
      case Pop =>
        var ok, out := ring.Pop(before);
        r := if ok then Got(out) else Empty;
    }
  }

  method CallV3<T(0)>(ring: SpscRingBufferAtomicV3<T>, call: Call<T>, before: T) returns (r: Reply<T>)
    requires ring.Valid()
    modifies ring, ring.buffer
    ensures ring.Valid()
    ensures r == ReplyTo(ring.capacity - 1, old(ring.contents), call)
    ensures ring.contents == After(ring.capacity - 1, old(ring.contents), call)
  {
    match call {
      case Push(value) =>
        var ok := ring.Push(value);
        r := if ok then Accepted else Full;
      case Pop =>
        var ok, out := ring.Pop(before);
        r := if ok then Got(out) else Empty;
    }
  }

  method CallV4<T(0)>(ring: SpscRingBufferAtomicV4<T>, call: Call<T>, before: T) returns (r: Reply<T>)
    requires ring.Valid()
    modifies ring, ring.buffer
    ensures ring.Valid()
    ensures r == ReplyTo(ring.capacity, old(ring.contents), call)
    ensures ring.contents == After(ring.capacity, old(ring.contents), call)
  {
    match call {
      case Push(value) =>
        var ok := ring.Push(value);
        r := if ok then Accepted else Full;
      case Pop =>
        var ok, out := ring.Pop(before);
        r := if ok then Got(out) else Empty;
    }
  }

  /** What a ring holds and has replied after the first `i` calls. */
  ghost predicate Followed<T>(limit: nat, calls: seq<Call<T>>, i: nat, contents: seq<T>, replies: seq<Reply<T>>)
    requires i <= |calls|
  {
    contents == Contents(limit, calls[..i]) && replies == Replies(limit, calls[..i])
  }

  /** One more call of a script. */
  lemma OneMore<T>(limit: nat, calls: seq<Call<T>>, i: nat, contents: seq<T>, replies: seq<Reply<T>>)
    requires i < |calls| && Followed(limit, calls, i, contents, replies)
    ensures Followed(limit, calls, i + 1, After(limit, contents, calls[i]),
                     replies + [ReplyTo(limit, contents, calls[i])])
  {
    assert calls[..i + 1][..i] == calls[..i];
  }

  // Whole scripts, each from a new ring.

  method RunUncached<T(0)>(capacity: nat, calls: seq<Call<T>>, before: T) returns (replies: seq<Reply<T>>)
    requires 2 <= capacity < WORD && IsPowerOfTwo(capacity)
    ensures replies == Replies(capacity - 1, calls)
  {
    var ring := new SpscRingBufferUncached<T>(capacity);
    replies := [];
    for i := 0 to |calls|
      invariant ring.Valid() && ring.capacity == capacity && fresh(ring) && fresh(ring.buffer)
      invariant Followed(capacity - 1, calls, i, ring.contents, replies)
    {
      OneMore(capacity - 1, calls, i, ring.contents, replies);
      var r := CallUncached(ring, calls[i], before);
      replies := replies + [r];
    }
    assert calls[..|calls|] == calls;
  }

  method RunV3<T(0)>(capacity: nat, calls: seq<Call<T>>, before: T) returns (replies: seq<Reply<T>>)
    requires 2 <= capacity < WORD && IsPowerOfTwo(capacity)
    ensures replies == Replies(capacity - 1, calls)
  {
    var ring := new SpscRingBufferAtomicV3<T>(capacity);
    replies := [];
    for i := 0 to |calls|
      invariant ring.Valid() && ring.capacity == capacity && fresh(ring) && fresh(ring.buffer)
      invariant Followed(capacity - 1, calls, i, ring.contents, replies)
    {
      OneMore(capacity - 1, calls, i, ring.contents, replies);
      var r := CallV3(ring, calls[i], before);
      replies := replies + [r];
    }
    assert calls[..|calls|] == calls;
  }

  method RunV4<T(0)>(capacity: nat, calls: seq<Call<T>>, before: T) returns (replies: seq<Reply<T>>)
    requires 2 <= capacity < WORD && IsPowerOfTwo(capacity)
    ensures replies == Replies(capacity, calls)
  {
    var ring := new SpscRingBufferAtomicV4<T>(capacity);
    replies := [];
    for i := 0 to |calls|
      invariant ring.Valid() && ring.capacity == capacity && fresh(ring) && fresh(ring.buffer)
      invariant Followed(capacity, calls, i, ring.contents, replies)
    {
      OneMore(capacity, calls, i, ring.contents, replies);
      var r := CallV4(ring, calls[i], before);
      replies := replies + [r];
    }
    assert calls[..|calls|] == calls;
  }

  /**
   * Observational equivalence: any script of calls gets the same replies from every index-based
   * ring, those of a queue of capacity - 1; AtomicV4 is a queue of the full capacity.
   */
  method Observe<T(0)>(capacity: nat, calls: seq<Call<T>>, before: T)
    returns (uncached: seq<Reply<T>>, v3: seq<Reply<T>>, v4: seq<Reply<T>>)
    requires 2 <= capacity < WORD && IsPowerOfTwo(capacity)
    ensures uncached == v3 == Replies(capacity - 1, calls)
    ensures v4 == Replies(capacity, calls)
  {
    uncached := RunUncached(capacity, calls, before);
    v3 := RunV3(capacity, calls, before);
    v4 := RunV4(capacity, calls, before);
  }
}
