/**
 * A byte stream cut into 64-byte frames, for any way of decoding one frame: the meaning of the
 * stream, an unbounded stream with a read cursor, and the calls that move along it.
 */
module Framing {
  import opened LittleEndian
  import opened Codec

  datatype Option<T> = None | Some(value: T)

  /** None for a bad frame. */
  type Decoder<M> = seq<Byte> -> Option<M>

  datatype Status = MessageReady | NeedMoreData | ProtocolError

  function StatusOf<M>(decode: Decoder<M>, unread: seq<Byte>): Status {
    if |unread| < FRAME_SIZE then Status.NeedMoreData
    else if decode(unread[..FRAME_SIZE]).None? then ProtocolError
    else MessageReady
  }

  /** The messages of a stream: its frames, decoded, up to the first bad or incomplete one. */
  function Split<M>(decode: Decoder<M>, stream: seq<Byte>): (ms: seq<M>)
    ensures FRAME_SIZE * |ms| <= |stream|
  {
    if StatusOf(decode, stream) != MessageReady then []
    else [decode(stream[..FRAME_SIZE]).value] + Split(decode, stream[FRAME_SIZE..])
  }

  /** Every frame of the stream is complete and good. */
  predicate Clean<M>(decode: Decoder<M>, stream: seq<Byte>) {
    FRAME_SIZE * |Split(decode, stream)| == |stream|
  }

  /** Clean frames can be cut off in front. */
  lemma {:induction false} SplitConcat<M>(decode: Decoder<M>, a: seq<Byte>, b: seq<Byte>)
    requires Clean(decode, a)
    ensures Split(decode, a + b) == Split(decode, a) + Split(decode, b)
  {
    if a == [] {
      assert a + b == b;
    } else {
      assert (a + b)[..FRAME_SIZE] == a[..FRAME_SIZE];
      assert (a + b)[FRAME_SIZE..] == a[FRAME_SIZE..] + b;
      SplitConcat(decode, a[FRAME_SIZE..], b);
      assert [decode(a[..FRAME_SIZE]).value] + (Split(decode, a[FRAME_SIZE..]) + Split(decode, b))
          == Split(decode, a) + Split(decode, b);
    }
  }

  lemma SplitFrame<M>(decode: Decoder<M>, frame: seq<Byte>)
    requires |frame| == FRAME_SIZE && decode(frame).Some?
    ensures Clean(decode, frame) && Split(decode, frame) == [decode(frame).value]
  {
    assert frame[..FRAME_SIZE] == frame;
    assert frame[FRAME_SIZE..] == [];
  }

  // ------------------------------ a stream with a read cursor ------------------------------

  /** All bytes ever accepted, and how many of them were consumed. */
  datatype Stream = Stream(bytes: seq<Byte>, consumed: nat)

  predicate ValidStream(s: Stream) {
    s.consumed <= |s.bytes| && s.consumed % FRAME_SIZE == 0
  }

  function Unread(s: Stream): seq<Byte>
    requires s.consumed <= |s.bytes|
  {
    s.bytes[s.consumed..]
  }

  predicate Fits(capacity: nat, s: Stream, bytes: seq<Byte>)
    requires ValidStream(s)
  {
    |Unread(s)| + |bytes| <= capacity
  }

  function AfterAppend(capacity: nat, s: Stream, bytes: seq<Byte>): (s': Stream)
    requires ValidStream(s)
    ensures ValidStream(s')
  {
    if Fits(capacity, s, bytes) then s.(bytes := s.bytes + bytes) else s
  }

  function AfterTryParse<M>(decode: Decoder<M>, s: Stream): (s': Stream)
    requires ValidStream(s)
    ensures ValidStream(s')
  {
    if StatusOf(decode, Unread(s)) == MessageReady then s.(consumed := s.consumed + FRAME_SIZE) else s
  }

  // ------------------------------ whole runs ------------------------------

  datatype Call = Append(bytes: seq<Byte>) | TryParse

  datatype Progress<M> = Progress(stream: Stream, messages: seq<M>)

  function AfterCall<M>(decode: Decoder<M>, capacity: nat, p: Progress<M>, call: Call): (p': Progress<M>)
    requires ValidStream(p.stream)
    ensures ValidStream(p'.stream)
  {
    match call
    case Append(bytes) => p.(stream := AfterAppend(capacity, p.stream, bytes))
    case TryParse =>
      if StatusOf(decode, Unread(p.stream)) == MessageReady
      then Progress(AfterTryParse(decode, p.stream), p.messages + [decode(Unread(p.stream)[..FRAME_SIZE]).value])
      else p
  }

  /** Where a parser of this capacity stands after the calls, and the messages it returned. */
  function After<M>(decode: Decoder<M>, capacity: nat, calls: seq<Call>): (p: Progress<M>)
    ensures ValidStream(p.stream)
  {
    if calls == [] then Progress(Stream([], 0), [])
    else AfterCall(decode, capacity, After(decode, capacity, calls[..|calls| - 1]), calls[|calls| - 1])
  }

  /** The messages are those of the consumed frames. */
  ghost predicate Faithful<M>(decode: Decoder<M>, p: Progress<M>) {
    && ValidStream(p.stream)
    && Clean(decode, p.stream.bytes[..p.stream.consumed])
    && p.messages == Split(decode, p.stream.bytes[..p.stream.consumed])
  }

  lemma CallKeepsFaithful<M>(decode: Decoder<M>, capacity: nat, p: Progress<M>, call: Call)
    requires Faithful(decode, p)
    ensures Faithful(decode, AfterCall(decode, capacity, p, call))
  {
    var s, s' := p.stream, AfterCall(decode, capacity, p, call).stream;
    if call.Append? {
      assert s'.bytes[..s'.consumed] == s.bytes[..s.consumed];
    } else if StatusOf(decode, Unread(s)) == MessageReady {
      var frame := Unread(s)[..FRAME_SIZE];
      SplitFrame(decode, frame);
      assert s'.bytes[..s'.consumed] == s.bytes[..s.consumed] + frame;
      SplitConcat(decode, s.bytes[..s.consumed], frame);
    }
  }

  /** Messages and unread bytes make up the whole stream. */
  lemma FaithfulSplits<M>(decode: Decoder<M>, p: Progress<M>)
    requires Faithful(decode, p)
    ensures Split(decode, p.stream.bytes) == p.messages + Split(decode, Unread(p.stream))
    ensures FRAME_SIZE * |p.messages| == p.stream.consumed
  {
    var s := p.stream;
    SplitConcat(decode, s.bytes[..s.consumed], Unread(s));
    assert s.bytes == s.bytes[..s.consumed] + Unread(s);
  }

  lemma {:induction false} AlwaysFaithful<M>(decode: Decoder<M>, capacity: nat, calls: seq<Call>)
    ensures Faithful(decode, After(decode, capacity, calls))
  {
    if calls == [] {
      assert Split(decode, []) == [];
    } else {
      var init := calls[..|calls| - 1];
      AlwaysFaithful(decode, capacity, init);
      CallKeepsFaithful(decode, capacity, After(decode, capacity, init), calls[|calls| - 1]);
    }
  }

  /**
   * However the stream was cut into chunks and whenever parsing was tried: the messages returned
   * are the first of the whole stream's, and all of them once fewer than 64 bytes are unread.
   */
  lemma ChunkingIsIrrelevant<M>(decode: Decoder<M>, capacity: nat, calls: seq<Call>)
    ensures var p := After(decode, capacity, calls);
      && Split(decode, p.stream.bytes) == p.messages + Split(decode, Unread(p.stream))
      && FRAME_SIZE * |p.messages| == p.stream.consumed
      && (StatusOf(decode, Unread(p.stream)) != MessageReady ==> p.messages == Split(decode, p.stream.bytes))
  {
    AlwaysFaithful(decode, capacity, calls);
    FaithfulSplits(decode, After(decode, capacity, calls));
  }

  lemma ErrorStays<M>(decode: Decoder<M>, capacity: nat, p: Progress<M>, call: Call)
    requires ValidStream(p.stream) && StatusOf(decode, Unread(p.stream)) == ProtocolError
    ensures var p' := AfterCall(decode, capacity, p, call);
      StatusOf(decode, Unread(p'.stream)) == ProtocolError && p'.messages == p.messages
  {
    var s' := AfterCall(decode, capacity, p, call).stream;
    assert Unread(s')[..FRAME_SIZE] == Unread(p.stream)[..FRAME_SIZE];
  }

  /** A bad frame is never consumed or overwritten: no later call gets past it. */
  lemma {:induction false} ErrorIsPermanent<M>(decode: Decoder<M>, capacity: nat, calls: seq<Call>, more: seq<Call>)
    requires StatusOf(decode, Unread(After(decode, capacity, calls).stream)) == ProtocolError
    ensures StatusOf(decode, Unread(After(decode, capacity, calls + more).stream)) == ProtocolError
    ensures After(decode, capacity, calls + more).messages == After(decode, capacity, calls).messages
  {
    if more == [] {
      assert calls + more == calls;
    } else {
      var n := |more| - 1;
      ErrorIsPermanent(decode, capacity, calls, more[..n]);
      assert (calls + more)[..|calls + more| - 1] == calls + more[..n];
      ErrorStays(decode, capacity, After(decode, capacity, calls + more[..n]), more[n]);
    }
  }
}

/** One frame: what try_parse makes of 64 bytes, and what the request encoders make 64 bytes of. */
module Frames {
  import opened LittleEndian
  import opened Codec
  import opened Framing

  type NewOrderFields = m: Message | m.NewOrder? witness NewOrder(0, 1, 0, 0)
  type CancelOrderFields = m: Message | m.CancelOrder? witness CancelOrder(0)
  type ModifyOrderFields = m: Message | m.ModifyOrder? witness ModifyOrder(0, 0, 0)

  datatype DecodedMessage = DecodedMessage(
    header: MessageHeader, kind: U16,
    newOrder: NewOrderFields, cancelOrder: CancelOrderFields, modifyOrder: ModifyOrderFields)

  /** `DecodedMessage msg;` */
  const FRESH := DecodedMessage(DEFAULT_HEADER, 0, NewOrder(0, 1, 0, 0), CancelOrder(0), ModifyOrder(0, 0, 0))

  /** Fails decode_header or validate_header. */
  predicate BadFrame(frame: seq<Byte>)
    requires FRAME_SIZE <= |frame|
  {
    var (status, h) := DecodeHeader(frame[..HEADER_SIZE], DEFAULT_HEADER);
    status != Ok || ValidateHeader(h) != Ok
  }

  /** The out-parameter `before`, filled from a good frame: only the fields of its type change. */
  function Filled(frame: seq<Byte>, before: DecodedMessage): DecodedMessage
    requires FRAME_SIZE <= |frame|
  {
    var h := LoadHeader(frame[..HEADER_SIZE]);
    var out := before.(header := h, kind := h.messageType);
    if h.messageType == NEW_ORDER then out.(newOrder := Decode(NEW_ORDER, frame).message)
    else if h.messageType == CANCEL_ORDER then out.(cancelOrder := Decode(CANCEL_ORDER, frame).message)
    else if h.messageType == MODIFY_ORDER then out.(modifyOrder := Decode(MODIFY_ORDER, frame).message)
    else out
  }

  function DecodeFrame(frame: seq<Byte>): Option<DecodedMessage> {
    if |frame| < FRAME_SIZE || BadFrame(frame) then None else Some(Filled(frame, FRESH))
  }

  // ------------------------------ order requests on the wire ------------------------------

  /** A request as its sender sees it, and what its output buffer held before. */
  datatype Request = Request(header: MessageHeader, message: Message, buffer: seq<Byte>)

  predicate ValidRequest(r: Request) {
    && r.header.magic == MAGIC && r.header.version == VERSION
    && (r.message.NewOrder? || r.message.CancelOrder? || r.message.ModifyOrder?)
    && |r.buffer| == FRAME_SIZE
  }

  /** The encoders' output for the request. */
  function FrameOf(r: Request): (frame: seq<Byte>)
    requires ValidRequest(r)
    ensures |frame| == FRAME_SIZE
  {
    Encoded(r.header, r.message, r.buffer)
  }

  predicate ValidRequests(rs: seq<Request>) {
    forall i :: 0 <= i < |rs| ==> ValidRequest(rs[i])
  }

  function Wire(rs: seq<Request>): (bs: seq<Byte>)
    requires ValidRequests(rs)
    ensures |bs| == FRAME_SIZE * |rs|
  {
    if rs == [] then [] else FrameOf(rs[0]) + Wire(rs[1..])
  }

  /** What the receiver of a request should get to see. */
  function Received(r: Request): DecodedMessage {
    var out := FRESH.(header := Stamped(r.header, r.message), kind := TypeOf(r.message));
    match r.message
    case NewOrder(_, _, _, _) => out.(newOrder := r.message)
    case CancelOrder(_) => out.(cancelOrder := r.message)
    case ModifyOrder(_, _, _) => out.(modifyOrder := r.message)
    case _ => out
  }

  lemma GoodHeader(frame: seq<Byte>)
    requires FRAME_SIZE <= |frame|
    ensures var h := LoadHeader(frame[..HEADER_SIZE]);
      !BadFrame(frame) <==> h.magic == MAGIC && h.version == VERSION && ValidateHeader(h) == Ok
  {
  }

  lemma FilledIsReceived(frame: seq<Byte>, r: Request)
    requires FRAME_SIZE <= |frame| && ValidRequest(r)
    requires LoadHeader(frame[..HEADER_SIZE]) == Stamped(r.header, r.message)
    requires Decode(TypeOf(r.message), frame) == Got(r.message)
    ensures Filled(frame, FRESH) == Received(r)
  {
  }

  lemma EncodedIsGood(r: Request)
    requires ValidRequest(r)
    ensures DecodeFrame(FrameOf(r)) == Some(Received(r))
  {
    var frame := FrameOf(r);
    RoundTrip(r.header, r.message, r.buffer);
    HeaderOfPrefix(frame);
    GoodHeader(frame);
    FilledIsReceived(frame, r);
  }

  lemma HeaderOfPrefix(frame: seq<Byte>)
    requires HEADER_SIZE <= |frame|
    ensures LoadHeader(frame[..HEADER_SIZE]) == LoadHeader(frame)
  {
    var top := frame[..HEADER_SIZE];
    SameLoad(top, frame, 0, 4);
    SameLoad(top, frame, 4, 2);
    SameLoad(top, frame, 6, 2);
    SameLoad(top, frame, 8, 2);
    SameLoad(top, frame, 10, 2);
    SameLoad(top, frame, 12, 8);
    SameLoad(top, frame, 20, 8);
    SameLoad(top, frame, 28, 4);
  }

  lemma SameLoad(a: seq<Byte>, b: seq<Byte>, offset: nat, n: nat)
    requires a <= b && offset + n <= |a|
    ensures Load(a, offset, n) == Load(b, offset, n)
  {
  }

  function AllReceived(rs: seq<Request>): seq<DecodedMessage> {
    if rs == [] then [] else [Received(rs[0])] + AllReceived(rs[1..])
  }

  /** Parsing what the encoders printed gives every request back, in order. */
  lemma {:induction false} WireRoundTrip(rs: seq<Request>)
    requires ValidRequests(rs)
    ensures Clean(DecodeFrame, Wire(rs))
    ensures Split(DecodeFrame, Wire(rs)) == AllReceived(rs)
  {
    if rs != [] {
      var frame := FrameOf(rs[0]);
      WireRoundTrip(rs[1..]);
      EncodedIsGood(rs[0]);
      SplitFrame(DecodeFrame, frame);
      SplitConcat(DecodeFrame, frame, Wire(rs[1..]));
    }
  }

  /**
   * End to end: if what the parser accepted so far is the beginning of a list of encoded requests,
   * the messages returned are the first of these requests, one for each 64 bytes consumed; no error
   * is reported, and once the parser wants more data every complete request has been returned.
   */
  lemma EndToEnd(capacity: nat, calls: seq<Call>, rs: seq<Request>)
    requires ValidRequests(rs)
    requires After(DecodeFrame, capacity, calls).stream.bytes <= Wire(rs)
    ensures var p := After(DecodeFrame, capacity, calls);
      && FRAME_SIZE * |p.messages| == p.stream.consumed
      && p.messages <= AllReceived(rs)
      && StatusOf(DecodeFrame, Unread(p.stream)) != ProtocolError
      && (StatusOf(DecodeFrame, Unread(p.stream)) == Status.NeedMoreData ==>
            |p.messages| == |p.stream.bytes| / FRAME_SIZE)
  {
    var p := After(DecodeFrame, capacity, calls);
    var s := p.stream;
    AlwaysFaithful(DecodeFrame, capacity, calls);
    ChunkingIsIrrelevant(DecodeFrame, capacity, calls);
    WireRoundTrip(rs);
    PrefixOfClean(DecodeFrame, s, Wire(rs));
  }

  /** Along a clean stream, every complete frame is a good one. */
  lemma PrefixOfClean<M>(decode: Decoder<M>, s: Stream, whole: seq<Byte>)
    requires ValidStream(s) && s.bytes <= whole && Clean(decode, whole)
    requires Clean(decode, s.bytes[..s.consumed])
    ensures Split(decode, s.bytes[..s.consumed]) <= Split(decode, whole)
    ensures StatusOf(decode, Unread(s)) != ProtocolError
  {
    var a, b := s.bytes[..s.consumed], whole[s.consumed..];
    assert whole == a + b;
    SplitConcat(decode, a, b);
    if FRAME_SIZE <= |Unread(s)| {
      assert b[..FRAME_SIZE] == Unread(s)[..FRAME_SIZE];
    }
  }
}

/** FrameParser of frame_parser.hpp: a byte ring in front of the frame decoder. */
module FrameParser {
  import opened Bits
  import opened LittleEndian
  import opened Codec
  import opened Framing
  import opened Frames
  import Wire

  // ------------------------------ the ring ------------------------------

  /** The static_asserts of the class template. */
  predicate ValidCapacity(capacity: nat) {
    capacity < WORD && capacity % FRAME_SIZE == 0 && IsPowerOfTwo(capacity)
  }

  /** Cell of a counter `i` places further on: straight on, or once around the end. */
  lemma {:induction false} SlotAfter(capacity: nat, n: nat, i: nat)
    requires 1 <= capacity && i <= capacity
    ensures SlotAt(capacity, n + i)
         == if SlotAt(capacity, n) + i < capacity then SlotAt(capacity, n) + i else SlotAt(capacity, n) + i - capacity
  {
    if i != 0 {
      SlotAfter(capacity, n, i - 1);
      SlotOfNext(capacity, n + i - 1);
    }
  }

  /** Cells from counter `first` up to `end` hold what the stream has there. */
  ghost predicate Holds(cells: seq<Byte>, stream: seq<Byte>, first: nat, end: nat) {
    && 1 <= |cells| && end <= |stream|
    && forall n :: first <= n < end ==> cells[SlotAt(|cells|, n)] == stream[n]
  }

  /** `cells'` is `cells` with `bytes` copied in from the cell of counter `at` on, around the end. */
  ghost predicate CopiedAround(cells: seq<Byte>, at: nat, bytes: seq<Byte>, cells': seq<Byte>)
    requires at <= |cells| == |cells'| && |bytes| <= |cells|
  {
    forall s :: 0 <= s < |cells| ==>
      var i := if at <= s then s - at else s - at + |cells|;
      cells'[s] == if i < |bytes| then bytes[i] else cells[s]
  }

  lemma CopyExtends(cells: seq<Byte>, stream: seq<Byte>, first: nat, bytes: seq<Byte>, cells': seq<Byte>)
    requires Holds(cells, stream, first, |stream|) && first <= |stream|
    requires |stream| + |bytes| <= first + |cells| && |cells'| == |cells|
    requires CopiedAround(cells, SlotAt(|cells|, |stream|), bytes, cells')
    ensures Holds(cells', stream + bytes, first, |stream + bytes|)
  {
    var w, cap := |stream|, |cells|;
    forall n | first <= n < w + |bytes|
      ensures cells'[SlotAt(cap, n)] == (stream + bytes)[n]
    {
      if w <= n {
        SlotAfter(cap, w, n - w);
      } else {
        OldStays(cells, stream, first, bytes, cells', n);
      }
    }
  }

  lemma OldStays(cells: seq<Byte>, stream: seq<Byte>, first: nat, bytes: seq<Byte>, cells': seq<Byte>, n: nat)
    requires first <= n < |stream| && 1 <= |cells|
    requires |stream| + |bytes| <= first + |cells| && |cells'| == |cells|
    requires CopiedAround(cells, SlotAt(|cells|, |stream|), bytes, cells')
    ensures cells'[SlotAt(|cells|, n)] == cells[SlotAt(|cells|, n)]
  {
    var w, cap := |stream|, |cells|;
    var s, at := SlotAt(cap, n), SlotAt(cap, w);
    var i := if at <= s then s - at else s - at + cap;
    SlotAfter(cap, w, i);
    if i < |bytes| {
      SlotGap(cap, n, w + i);
    }
  }

  /** Frames start at multiples of 64 and so never wrap. */
  lemma FrameIsContiguous(capacity: nat, n: nat)
    requires ValidCapacity(capacity) && n % FRAME_SIZE == 0
    ensures SlotAt(capacity, n) + FRAME_SIZE <= capacity
    ensures forall m :: n <= m < n + FRAME_SIZE ==> SlotAt(capacity, m) == SlotAt(capacity, n) + (m - n)
  {
    var frames := capacity / FRAME_SIZE;
    assert capacity == FRAME_SIZE * frames;
    var slot := SlotAt(capacity, n);
    SlotIsMod(capacity, n);
    ModOfMod(n, FRAME_SIZE, frames);
    ModGap(slot, capacity, FRAME_SIZE);
    forall m | n <= m < n + FRAME_SIZE
      ensures SlotAt(capacity, m) == slot + (m - n)
    {
      SlotAfter(capacity, n, m - n);
    }
  }

  /** What is equal place by place is equal as a piece. */
  lemma SameSpan(cells: seq<Byte>, start: nat, stream: seq<Byte>, first: nat)
    requires start + FRAME_SIZE <= |cells| && first + FRAME_SIZE <= |stream|
    requires forall m :: first <= m < first + FRAME_SIZE ==> cells[start + (m - first)] == stream[m]
    ensures cells[start..start + FRAME_SIZE] == stream[first..][..FRAME_SIZE]
  {
    forall i | 0 <= i < FRAME_SIZE
      ensures cells[start..start + FRAME_SIZE][i] == stream[first..][..FRAME_SIZE][i]
    {
      assert stream[first + i] == cells[start + i];
    }
  }

  lemma CellOf(cells: seq<Byte>, stream: seq<Byte>, first: nat, end: nat, m: nat, at: nat)
    requires Holds(cells, stream, first, end) && first <= m < end && SlotAt(|cells|, m) == at
    ensures at < |cells| && cells[at] == stream[m]
  {
  }

  /** The cells of the next frame, in place, are its stream bytes. */
  lemma SpanIsStream(cells: seq<Byte>, s: Stream, start: nat)
    requires ValidStream(s) && FRAME_SIZE <= |Unread(s)|
    requires Holds(cells, s.bytes, s.consumed, |s.bytes|) && start + FRAME_SIZE <= |cells|
    requires forall m :: s.consumed <= m < s.consumed + FRAME_SIZE ==> SlotAt(|cells|, m) == start + (m - s.consumed)
    ensures cells[start..start + FRAME_SIZE] == Unread(s)[..FRAME_SIZE]
  {
    forall m | s.consumed <= m < s.consumed + FRAME_SIZE
      ensures cells[start + (m - s.consumed)] == s.bytes[m]
    {
      CellOf(cells, s.bytes, s.consumed, |s.bytes|, m, start + (m - s.consumed));
    }
    SameSpan(cells, start, s.bytes, s.consumed);
  }

  /** The masked write position is the cell behind the last byte. */
  lemma WriteIndex(capacity: nat, cells: seq<Byte>, readPos: nat, writePos: nat, s: Stream)
    requires RingOk(capacity, cells, readPos, writePos, s)
    ensures And(writePos, capacity - 1) == SlotAt(capacity, |s.bytes|) < capacity
  {
    WrapKeepsSlot(|s.bytes|, capacity);
  }

  lemma CopiedStraight(cells: seq<Byte>, at: nat, bytes: seq<Byte>)
    requires at + |bytes| <= |cells|
    ensures CopiedAround(cells, at, bytes, Splice(cells, at, bytes))
  {
  }

  lemma CopiedInTwo(cells: seq<Byte>, at: nat, bytes: seq<Byte>)
    requires at <= |cells| < at + |bytes| && |bytes| <= |cells|
    ensures var h := |cells| - at;
      CopiedAround(cells, at, bytes, Splice(Splice(cells, at, bytes[..h]), 0, bytes[h..]))
  {
  }

  /** The counters are the stream positions, wrapped; the ring holds the unread bytes. */
  ghost predicate RingOk(capacity: nat, cells: seq<Byte>, readPos: nat, writePos: nat, s: Stream) {
    && ValidCapacity(capacity) && |cells| == capacity
    && ValidStream(s) && |Unread(s)| <= capacity
    && Positions(readPos, writePos, s)
    && Holds(cells, s.bytes, s.consumed, |s.bytes|)
  }

  ghost predicate Positions(readPos: nat, writePos: nat, s: Stream) {
    readPos == s.consumed % WORD && writePos == |s.bytes| % WORD
  }

  lemma MoveWrite(readPos: nat, writePos: nat, s: Stream, bytes: seq<Byte>)
    requires Positions(readPos, writePos, s)
    ensures Positions(readPos, (writePos + |bytes|) % WORD, s.(bytes := s.bytes + bytes))
  {
  }

  lemma MoveRead(readPos: nat, writePos: nat, s: Stream)
    requires Positions(readPos, writePos, s)
    ensures Positions((readPos + FRAME_SIZE) % WORD, writePos, s.(consumed := s.consumed + FRAME_SIZE))
  {
  }

  lemma StreamConsumed(capacity: nat, s: Stream)
    requires ValidStream(s) && FRAME_SIZE <= |Unread(s)| <= capacity
    ensures var s' := s.(consumed := s.consumed + FRAME_SIZE);
      ValidStream(s') && |Unread(s')| <= capacity
  {
  }

  lemma AppendOk(capacity: nat, cells: seq<Byte>, readPos: nat, writePos: nat, s: Stream, bytes: seq<Byte>,
                 cells': seq<Byte>)
    requires RingOk(capacity, cells, readPos, writePos, s) && Fits(capacity, s, bytes) && |cells'| == capacity
    requires CopiedAround(cells, SlotAt(capacity, |s.bytes|), bytes, cells')
    ensures RingOk(capacity, cells', readPos, (writePos + |bytes|) % WORD, s.(bytes := s.bytes + bytes))
  {
    CopyExtends(cells, s.bytes, s.consumed, bytes, cells');
    MoveWrite(readPos, writePos, s, bytes);
  }

  lemma ConsumeOk(capacity: nat, cells: seq<Byte>, readPos: nat, writePos: nat, s: Stream)
    requires RingOk(capacity, cells, readPos, writePos, s) && FRAME_SIZE <= |Unread(s)|
    ensures RingOk(capacity, cells, (readPos + FRAME_SIZE) % WORD, writePos, s.(consumed := s.consumed + FRAME_SIZE))
  {
    MoveRead(readPos, writePos, s);
    StreamConsumed(capacity, s);
    HoldsLess(cells, s.bytes, s.consumed, s.consumed + FRAME_SIZE);
  }

  lemma HoldsLess(cells: seq<Byte>, stream: seq<Byte>, first: nat, first': nat)
    requires Holds(cells, stream, first, |stream|) && first <= first' <= |stream|
    ensures Holds(cells, stream, first', |stream|)
  {
  }

  /** The part of try_parse that looks at the 64 bytes. */
  method ParseFrame(span: seq<Byte>, before: DecodedMessage) returns (status: Status, out: DecodedMessage)
    requires |span| == FRAME_SIZE
    ensures status == if LoadU32(span, 0) == 0x6c6c7467 && LoadU16(span, 4) == 1
                         && 1 <= LoadU16(span, 6) <= 5 && LoadU16(span, 8) == 32
                      then MessageReady else ProtocolError
    ensures status == if DecodeFrame(span).None? then ProtocolError else MessageReady
    ensures out == if status == MessageReady then Filled(span, before) else before
  {
    Wire.GoodFrameIff(span);
    var (headerStatus, header) := DecodeHeader(span[..HEADER_SIZE], DEFAULT_HEADER);
    if headerStatus != Ok {
      return ProtocolError, before;
    }
    if ValidateHeader(header) != Ok {
      return ProtocolError, before;
    }
    out := before.(header := header, kind := header.messageType);
    if header.messageType == NEW_ORDER {
      out := out.(newOrder := Decode(NEW_ORDER, span).message);
    } else if header.messageType == CANCEL_ORDER {
      out := out.(cancelOrder := Decode(CANCEL_ORDER, span).message);
    } else if header.messageType == MODIFY_ORDER {
      out := out.(modifyOrder := Decode(MODIFY_ORDER, span).message);
    }
    return MessageReady, out;
  }

  class FrameParser {
    const capacity: nat
    const buffer: array<Byte>
    var readPos: U64
    var writePos: U64
    ghost var stream: Stream

    ghost predicate Valid()
      reads this, buffer
    {
      RingOk(capacity, buffer[..], readPos, writePos, stream)
    }

    constructor (capacity: nat)
      requires ValidCapacity(capacity)
      ensures Valid() && fresh(buffer) && this.capacity == capacity && stream == Stream([], 0)
    {
      this.capacity := capacity;
      buffer := new Byte[capacity](_ => 0);
      readPos, writePos := 0, 0;
      stream := Stream([], 0);
    }

    /** The wrapped difference of the counters is the number of unread bytes. */
    function Size(): (n: nat)
      reads this, buffer
      requires Valid()
      ensures n == |Unread(stream)| <= capacity
    {
      WrapDiff(|stream.bytes|, stream.consumed, WORD);
      (writePos - readPos) % WORD
    }

    function FreeSlots(): nat
      reads this, buffer
      requires Valid()
    {
      capacity - Size()
    }

    function Full(): (full: bool)
      reads this, buffer
      requires Valid()
      ensures full <==> |Unread(stream)| == capacity
    {
      Size() == capacity
    }

    function BufferIdx(index: U64): nat
      requires 1 <= capacity
    {
      And(index, capacity - 1)
    }

    /** The next 64 stream bytes, in place. */
    function ReadableSpan(): (span: seq<Byte>)
      reads this, buffer
      requires Valid()
      ensures |span| == FRAME_SIZE
      ensures FRAME_SIZE <= |Unread(stream)| ==> span == Unread(stream)[..FRAME_SIZE]
    {
      WrapKeepsSlot(stream.consumed, capacity);
      FrameIsContiguous(capacity, stream.consumed);
      var start := BufferIdx(readPos);
      assert FRAME_SIZE <= |Unread(stream)| ==> buffer[start..start + FRAME_SIZE] == Unread(stream)[..FRAME_SIZE] by {
        if FRAME_SIZE <= |Unread(stream)| {
          SpanIsStream(buffer[..], stream, start);
        }
      }
      buffer[start..start + FRAME_SIZE]
    }

    method MemCpy(offset: nat, bytes: seq<Byte>)
      requires offset + |bytes| <= buffer.Length
      modifies buffer
      ensures buffer[..] == Splice(old(buffer[..]), offset, bytes)
    {
      forall i | 0 <= i < |bytes| {
        buffer[offset + i] := bytes[i];
      }
    }

    /** Copies behind the last byte: in one piece, or in two around the end of the array. */
    method CopyIn(bytes: seq<Byte>)
      requires Valid() && |bytes| <= capacity
      modifies buffer
      ensures CopiedAround(old(buffer[..]), SlotAt(capacity, |stream.bytes|), bytes, buffer[..])
    {
      ghost var cells := buffer[..];
      WriteIndex(capacity, cells, readPos, writePos, stream);
      var at := BufferIdx(writePos);
      if at + |bytes| <= capacity {
        MemCpy(at, bytes);
        assert buffer[..] == Splice(cells, at, bytes);
        CopiedStraight(cells, at, bytes);
      } else {
        var bytesHead := capacity - at;
        MemCpy(at, bytes[..bytesHead]);
        MemCpy(0, bytes[bytesHead..]);
        assert buffer[..] == Splice(Splice(cells, at, bytes[..bytesHead]), 0, bytes[bytesHead..]);
        CopiedInTwo(cells, at, bytes);
      }
    }

    method Append(bytes: seq<Byte>) returns (ok: bool)
      requires Valid()
      modifies this, buffer
      ensures Valid()
      ensures ok <==> |Unread(old(stream))| + |bytes| <= capacity
      ensures stream == if ok then old(stream).(bytes := old(stream).bytes + bytes) else old(stream)
    {
      if bytes == [] {
        assert stream.bytes + bytes == stream.bytes;
        return true;
      }
      if FreeSlots() < |bytes| {
        return false;
      }
      ghost var cells := buffer[..];
      CopyIn(bytes);
      AppendOk(capacity, cells, readPos, writePos, stream, bytes, buffer[..]);
      writePos := (writePos + |bytes|) % WORD;
      stream := stream.(bytes := stream.bytes + bytes);
      return true;
    }

    /** Consumes one frame. */
    method MoveReadPos()
      requires Valid() && FRAME_SIZE <= |Unread(stream)|
      modifies this`readPos, this`stream
      ensures Valid()
      ensures stream == old(stream).(consumed := old(stream).consumed + FRAME_SIZE)
    {
      ConsumeOk(capacity, buffer[..], readPos, writePos, stream);
      readPos := (readPos + FRAME_SIZE) % WORD;
      stream := stream.(consumed := stream.consumed + FRAME_SIZE);
    }

    method TryParse(before: DecodedMessage) returns (status: Status, out: DecodedMessage)
      requires Valid()
      modifies this
      ensures Valid()
      ensures status == Status.NeedMoreData <==> |Unread(old(stream))| < 64
      ensures 64 <= |Unread(old(stream))| ==>
                var frame := Unread(old(stream))[..64];
                (status == MessageReady <==> LoadU32(frame, 0) == 0x6c6c7467 && LoadU16(frame, 4) == 1
                                             && 1 <= LoadU16(frame, 6) <= 5 && LoadU16(frame, 8) == 32)
      ensures status == StatusOf(DecodeFrame, Unread(old(stream)))
      ensures out == if status == MessageReady then Filled(Unread(old(stream))[..FRAME_SIZE], before) else before
      ensures stream == if status == MessageReady then old(stream).(consumed := old(stream).consumed + 64)
                        else old(stream)
    {
      var available := Size();
      if available < FRAME_SIZE {
        return Status.NeedMoreData, before;
      }
      var span := ReadableSpan();
      assert span == Unread(stream)[..FRAME_SIZE];
      status, out := ParseFrame(span, before);
      if status == MessageReady {
        MoveReadPos();
      }
    }
  }

  /** The unread bytes of a parser of this capacity after the calls. */
  function UnreadAfter(capacity: nat, calls: seq<Call>): seq<Byte> {
    Unread(After(DecodeFrame, capacity, calls).stream)
  }

  predicate StatusFits(unread: seq<Byte>, status: Status) {
    && (status == Status.NeedMoreData <==> |unread| < 64)
    && (64 <= |unread| ==>
          var frame := unread[..64];
          (status == MessageReady <==> LoadU32(frame, 0) == 0x6c6c7467 && LoadU16(frame, 4) == 1
                                       && 1 <= LoadU16(frame, 6) <= 5 && LoadU16(frame, 8) == 32))
  }

  /** The i-th call got the status it should, if it was a try_parse. */
  ghost predicate Reported(capacity: nat, calls: seq<Call>, i: nat, status: Option<Status>)
    requires i < |calls|
  {
    if calls[i].TryParse? then status.Some? && StatusFits(UnreadAfter(capacity, calls[..i]), status.value)
    else status == None
  }

  ghost predicate ReportedTo(capacity: nat, calls: seq<Call>, n: nat, statuses: seq<Option<Status>>) {
    n == |statuses| <= |calls| && forall k :: 0 <= k < n ==> Reported(capacity, calls, k, statuses[k])
  }

  lemma OneMoreReported(capacity: nat, calls: seq<Call>, n: nat, statuses: seq<Option<Status>>, status: Option<Status>)
    requires n < |calls| && ReportedTo(capacity, calls, n, statuses) && Reported(capacity, calls, n, status)
    ensures ReportedTo(capacity, calls, n + 1, statuses + [status])
  {
    forall k | 0 <= k < n + 1
      ensures Reported(capacity, calls, k, (statuses + [status])[k])
    {
      if k < n {
        assert Reported(capacity, calls, k, statuses[k]);
      }
    }
  }

  lemma AfterOneMore(capacity: nat, calls: seq<Call>, i: nat)
    requires i < |calls|
    ensures After(DecodeFrame, capacity, calls[..i + 1])
         == AfterCall(DecodeFrame, capacity, After(DecodeFrame, capacity, calls[..i]), calls[i])
  {
    assert calls[..i + 1][..i] == calls[..i];
  }

  /**
   * The parser object in any sequence of calls: it returns the messages that Framing.After says, and
   * at each try_parse the status that the unread bytes call for.
   */
  method Serve(capacity: nat, calls: seq<Call>) returns (messages: seq<DecodedMessage>, statuses: seq<Option<Status>>)
    requires ValidCapacity(capacity)
    ensures messages == After(DecodeFrame, capacity, calls).messages
    ensures |statuses| == |calls|
    ensures forall i :: 0 <= i < |calls| ==>
              if calls[i].Append? then statuses[i] == None
              else
                var unread := UnreadAfter(capacity, calls[..i]);
                && statuses[i].Some?
                && (statuses[i].value == Status.NeedMoreData <==> |unread| < 64)
                && (64 <= |unread| ==>
                      var frame := unread[..64];
                      (statuses[i].value == MessageReady <==>
                         LoadU32(frame, 0) == 0x6c6c7467 && LoadU16(frame, 4) == 1
                         && 1 <= LoadU16(frame, 6) <= 5 && LoadU16(frame, 8) == 32))
  {
    var parser := new FrameParser(capacity);
    messages, statuses := [], [];
    for i := 0 to |calls|
      invariant parser.Valid() && fresh(parser) && fresh(parser.buffer) && parser.capacity == capacity
      invariant Progress(parser.stream, messages) == After(DecodeFrame, capacity, calls[..i])
      invariant ReportedTo(capacity, calls, i, statuses)
    {
      AfterOneMore(capacity, calls, i);
      match calls[i] {
        case Append(bytes) =>
          var _ := parser.Append(bytes);
          OneMoreReported(capacity, calls, i, statuses, None);
          statuses := statuses + [None];
        case TryParse =>
          var status, out := parser.TryParse(FRESH);
          OneMoreReported(capacity, calls, i, statuses, Some(status));
          if status == MessageReady {
            messages := messages + [out];
          }
          statuses := statuses + [Some(status)];
      }
    }
    assert calls[..|calls|] == calls;
    assert forall i :: 0 <= i < |calls| ==> Reported(capacity, calls, i, statuses[i]);
  }
}
