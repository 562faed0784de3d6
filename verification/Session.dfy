/** OrderEntrySession of session.hpp: sequence check, order-id bookkeeping and replies. */
module Session {
  import opened Bits
  import opened LittleEndian
  import opened Codec
  import opened Frames
  import Wire

  // RejectReason
  const BAD_SEQUENCE: U64 := 1
  const DUPLICATE_CLIENT_ORDER_ID: U64 := 2
  const UNKNOWN_CLIENT_ORDER_ID: U64 := 3
  const INVALID_PRICE: U64 := 4
  const INVALID_QUANTITY: U64 := 5
  const UNSUPPORTED_MESSAGE_TYPE: U64 := 6

  datatype State = State(sessionId: U64, expected: U64, nextHandle: U64, orders: map<U64, U64>)

  function Init(sessionId: U64): State {
    State(sessionId, 1, 1, map[])
  }

  function Next(x: U64): U64 {
    (x + 1) % WORD
  }

  function Reject(clientOrderId: U64, reason: U64): Message {
    Rejected(clientOrderId, reason, 0, 0)
  }

  function ClientOrderId(msg: DecodedMessage): U64 {
    if msg.kind == NEW_ORDER then msg.newOrder.clientOrderId
    else if msg.kind == CANCEL_ORDER then msg.cancelOrder.clientOrderId
    else if msg.kind == MODIFY_ORDER then msg.modifyOrder.clientOrderId
    else 0
  }

  /** Of a known type and carrying the expected sequence number. */
  predicate InSequence(s: State, msg: DecodedMessage) {
    IsKnownRequestType(msg.kind) && msg.header.sequenceNumber == s.expected
  }

  /** The reply to a message whose sequence number was accepted. */
  function Answer(s: State, msg: DecodedMessage): Message {
    var id := ClientOrderId(msg);
    if msg.kind == NEW_ORDER then
      if msg.newOrder.price == 0 then Reject(id, INVALID_PRICE)
      else if msg.newOrder.quantity == 0 then Reject(id, INVALID_QUANTITY)
      else if id in s.orders then Reject(id, DUPLICATE_CLIENT_ORDER_ID)
      else Accepted(id, s.nextHandle, 0, 0)
    else if msg.kind == CANCEL_ORDER then
      if id !in s.orders then Reject(id, UNKNOWN_CLIENT_ORDER_ID)
      else Cancelled(id, s.orders[id], 0, 0)
    else if msg.kind == MODIFY_ORDER then
      if id !in s.orders then Reject(id, UNKNOWN_CLIENT_ORDER_ID)
      else if msg.modifyOrder.newPrice == 0 then Reject(id, INVALID_PRICE)
      else if msg.modifyOrder.newQuantity == 0 then Reject(id, INVALID_QUANTITY)
      else Modified(id, s.orders[id], 0, 0)
    else Accepted(0, 0, 0, 0)
  }

  function ReplyTo(s: State, msg: DecodedMessage): Message {
    if !IsKnownRequestType(msg.kind) then Reject(0, UNSUPPORTED_MESSAGE_TYPE)
    else if !InSequence(s, msg) then Reject(ClientOrderId(msg), BAD_SEQUENCE)
    else Answer(s, msg)
  }

  function After(s: State, msg: DecodedMessage): State {
    if !InSequence(s, msg) then s
    else
      var s' := s.(expected := Next(s.expected));
      var reply := Answer(s, msg);
      if msg.kind == NEW_ORDER && reply.Accepted? then
        s'.(nextHandle := Next(s.nextHandle), orders := s.orders[reply.clientOrderId := reply.orderHandle])
      else if reply.Cancelled? then s'.(orders := s.orders - {reply.clientOrderId})
      else s'
  }

  function ResponseHeader(sessionId: U64, request: MessageHeader): MessageHeader {
    request.(sessionId := if sessionId == 0 then request.sessionId else sessionId)
  }

  class OrderEntrySession {
    const sessionId: U64
    var expectedSequenceNumber: U64
    var nextOrderHandle: U64
    var orders: map<U64, U64>

    function Value(): State
      reads this
    {
      State(sessionId, expectedSequenceNumber, nextOrderHandle, orders)
    }

    constructor (sessionId: U64)
      ensures Value() == Init(sessionId) && this.sessionId == sessionId
    {
      this.sessionId := sessionId;
      expectedSequenceNumber, nextOrderHandle, orders := 1, 1, map[];
    }

    function ActiveOrderCount(): nat
      reads this
    {
      |orders|
    }

    /** encode_reject, encode_accept, encode_cancel and encode_modify. */
    method EncodeReply(request: MessageHeader, reply: Message, responseOut: array<Byte>)
      requires FRAME_SIZE <= responseOut.Length
      modifies responseOut
      ensures responseOut[..] == Encoded(ResponseHeader(sessionId, request), reply, old(responseOut[..]))
    {
      var header := request.(sessionId := if sessionId == 0 then request.sessionId else sessionId);
      var _ := Encode(header, reply, responseOut);
    }

    method CheckSequenceOrReject(msg: DecodedMessage, clientOrderId: U64, responseOut: array<Byte>)
      returns (ok: bool)
      requires FRAME_SIZE <= responseOut.Length
      modifies this`expectedSequenceNumber, responseOut
      ensures ok <==> msg.header.sequenceNumber == old(expectedSequenceNumber)
      ensures expectedSequenceNumber == if ok then Next(old(expectedSequenceNumber)) else old(expectedSequenceNumber)
      ensures responseOut[..]
           == if ok then old(responseOut[..])
              else Encoded(ResponseHeader(sessionId, msg.header), Reject(clientOrderId, BAD_SEQUENCE),
                           old(responseOut[..]))
    {
      if msg.header.sequenceNumber != expectedSequenceNumber {
        EncodeReply(msg.header, Reject(clientOrderId, BAD_SEQUENCE), responseOut);
        return false;
      }
      expectedSequenceNumber := Next(expectedSequenceNumber);
      return true;
    }

    method HandleNewOrder(msg: DecodedMessage, responseOut: array<Byte>)
      requires FRAME_SIZE <= responseOut.Length && msg.kind == NEW_ORDER
      modifies this, responseOut
      ensures Value() == After(old(Value()), msg)
      ensures responseOut[..]
           == Encoded(ResponseHeader(sessionId, msg.header), ReplyTo(old(Value()), msg), old(responseOut[..]))
    {
      var h, id := msg.header, msg.newOrder.clientOrderId;
      ghost var reply := ReplyTo(Value(), msg);
      var ok := CheckSequenceOrReject(msg, id, responseOut);
      if !ok { return; }
      if msg.newOrder.price == 0 {
        assert reply == Reject(id, INVALID_PRICE);
        EncodeReply(h, Reject(id, INVALID_PRICE), responseOut);
        return;
      }
      if msg.newOrder.quantity == 0 {
        assert reply == Reject(id, INVALID_QUANTITY);
        EncodeReply(h, Reject(id, INVALID_QUANTITY), responseOut);
        return;
      }
      if id in orders {
        assert reply == Reject(id, DUPLICATE_CLIENT_ORDER_ID);
        EncodeReply(h, Reject(id, DUPLICATE_CLIENT_ORDER_ID), responseOut);
        return;
      }
      var handle := nextOrderHandle;
      nextOrderHandle := Next(nextOrderHandle);
      orders := orders[id := handle];
      assert reply == Accepted(id, handle, 0, 0);
      EncodeReply(h, Accepted(id, handle, 0, 0), responseOut);
    }

    method HandleCancel(msg: DecodedMessage, responseOut: array<Byte>)
      requires FRAME_SIZE <= responseOut.Length && msg.kind == CANCEL_ORDER
      modifies this, responseOut
      ensures Value() == After(old(Value()), msg)
      ensures responseOut[..]
           == Encoded(ResponseHeader(sessionId, msg.header), ReplyTo(old(Value()), msg), old(responseOut[..]))
    {
      var h, id := msg.header, msg.cancelOrder.clientOrderId;
      ghost var reply := ReplyTo(Value(), msg);
      var ok := CheckSequenceOrReject(msg, id, responseOut);
      if !ok { return; }
      if id !in orders {
        assert reply == Reject(id, UNKNOWN_CLIENT_ORDER_ID);
        EncodeReply(h, Reject(id, UNKNOWN_CLIENT_ORDER_ID), responseOut);
        return;
      }
      var handle := orders[id];
      orders := orders - {id};
      assert reply == Cancelled(id, handle, 0, 0);
      EncodeReply(h, Cancelled(id, handle, 0, 0), responseOut);
    }

    method HandleModify(msg: DecodedMessage, responseOut: array<Byte>)
      requires FRAME_SIZE <= responseOut.Length && msg.kind == MODIFY_ORDER
      modifies this, responseOut
      ensures Value() == After(old(Value()), msg)
      ensures responseOut[..]
           == Encoded(ResponseHeader(sessionId, msg.header), ReplyTo(old(Value()), msg), old(responseOut[..]))
    {
      var h, id := msg.header, msg.modifyOrder.clientOrderId;
      ghost var reply := ReplyTo(Value(), msg);
      var ok := CheckSequenceOrReject(msg, id, responseOut);
      if !ok { return; }
      if id !in orders {
        assert reply == Reject(id, UNKNOWN_CLIENT_ORDER_ID);
        EncodeReply(h, Reject(id, UNKNOWN_CLIENT_ORDER_ID), responseOut);
        return;
      }
      if msg.modifyOrder.newPrice == 0 {
        assert reply == Reject(id, INVALID_PRICE);
        EncodeReply(h, Reject(id, INVALID_PRICE), responseOut);
        return;
      }
      if msg.modifyOrder.newQuantity == 0 {
        assert reply == Reject(id, INVALID_QUANTITY);
        EncodeReply(h, Reject(id, INVALID_QUANTITY), responseOut);
        return;
      }
      assert reply == Modified(id, orders[id], 0, 0);
      EncodeReply(h, Modified(id, orders[id], 0, 0), responseOut);
    }

    /** The switch of handle_message; the three order cases are the methods above. */
    method HandleMessage(msg: DecodedMessage, responseOut: array<Byte>) returns (open: bool)
      requires FRAME_SIZE <= responseOut.Length
      modifies this, responseOut
      ensures Value() == After(old(Value()), msg)
      ensures responseOut[..]
           == Encoded(ResponseHeader(sessionId, msg.header), ReplyTo(old(Value()), msg), old(responseOut[..]))
      ensures !open <==> msg.kind == 5 && msg.header.sequenceNumber == old(expectedSequenceNumber)
    {
      if msg.kind == NEW_ORDER {
        HandleNewOrder(msg, responseOut);
        return true;
      } else if msg.kind == CANCEL_ORDER {
        HandleCancel(msg, responseOut);
        return true;
      } else if msg.kind == MODIFY_ORDER {
        HandleModify(msg, responseOut);
        return true;
      } else if msg.kind == HEARTBEAT || msg.kind == LOGOUT {
        var ok := CheckSequenceOrReject(msg, 0, responseOut);
        if !ok { return true; }
        EncodeReply(msg.header, Accepted(0, 0, 0, 0), responseOut);
        return msg.kind == HEARTBEAT;
      } else {
        EncodeReply(msg.header, Reject(0, UNSUPPORTED_MESSAGE_TYPE), responseOut);
        return true;
      }
    }
  }

  // ------------------------------ whole runs ------------------------------

  /** The session after the messages. */
  function Run(id: U64, msgs: seq<DecodedMessage>): State {
    if msgs == [] then Init(id) else After(Run(id, msgs[..|msgs| - 1]), msgs[|msgs| - 1])
  }

  datatype Exchange = Exchange(msg: DecodedMessage, reply: Message)

  /** The messages with the replies they got. */
  function Transcript(id: U64, msgs: seq<DecodedMessage>): (t: seq<Exchange>)
    ensures |t| == |msgs|
  {
    if msgs == [] then []
    else
      var init, last := msgs[..|msgs| - 1], msgs[|msgs| - 1];
      Transcript(id, init) + [Exchange(last, ReplyTo(Run(id, init), last))]
  }

  /** A NewOrder was accepted. */
  predicate Opens(e: Exchange, clientOrderId: U64) {
    e.msg.kind == NEW_ORDER && e.reply.Accepted? && e.reply.clientOrderId == clientOrderId
  }

  predicate Closes(e: Exchange, clientOrderId: U64) {
    e.reply.Cancelled? && e.reply.clientOrderId == clientOrderId
  }

  function Opened(t: seq<Exchange>): nat {
    if t == [] then 0
    else Opened(t[..|t| - 1]) + if Opens(t[|t| - 1], t[|t| - 1].reply.clientOrderId) then 1 else 0
  }

  function Closed(t: seq<Exchange>): nat {
    if t == [] then 0
    else Closed(t[..|t| - 1]) + if t[|t| - 1].reply.Cancelled? then 1 else 0
  }

  /** Exchange `i` opened the order with this handle and nothing since has touched its id's status. */
  ghost predicate LatestOpening(t: seq<Exchange>, i: nat, clientOrderId: U64, handle: U64) {
    && i < |t| && Opens(t[i], clientOrderId) && t[i].reply.orderHandle == handle
    && forall j :: i < j < |t| ==> !Opens(t[j], clientOrderId) && !Closes(t[j], clientOrderId)
  }

  /** By the replies so far, the order is live with this handle. */
  ghost predicate IsOpen(t: seq<Exchange>, clientOrderId: U64, handle: U64) {
    exists i: nat :: LatestOpening(t, i, clientOrderId, handle)
  }

  lemma LatestOpeningSnoc(t: seq<Exchange>, e: Exchange, i: nat, c: U64, h: U64)
    ensures LatestOpening(t + [e], i, c, h)
       <==> if i == |t| then Opens(e, c) && e.reply.orderHandle == h
            else LatestOpening(t, i, c, h) && !Opens(e, c) && !Closes(e, c)
  {
    var t' := t + [e];
    if i < |t| {
      assert forall j :: i < j < |t| ==> t'[j] == t[j];
      assert t'[|t|] == e && t'[i] == t[i];
    }
  }

  lemma IsOpenSnoc(t: seq<Exchange>, e: Exchange, c: U64, h: U64)
    ensures IsOpen(t + [e], c, h)
       <==> if Opens(e, c) then e.reply.orderHandle == h else !Closes(e, c) && IsOpen(t, c, h)
  {
    if i: nat :| LatestOpening(t + [e], i, c, h) {
      LatestOpeningSnoc(t, e, i, c, h);
    }
    LatestOpeningSnoc(t, e, |t|, c, h);
    if i: nat :| LatestOpening(t, i, c, h) {
      LatestOpeningSnoc(t, e, i, c, h);
    }
  }

  /** The order table is exactly what the replies so far say. */
  lemma {:induction false} OrdersAreTheOpenOnes(id: U64, msgs: seq<DecodedMessage>, c: U64, h: U64)
    ensures (c in Run(id, msgs).orders && Run(id, msgs).orders[c] == h) <==> IsOpen(Transcript(id, msgs), c, h)
  {
    if msgs != [] {
      var init, last := msgs[..|msgs| - 1], msgs[|msgs| - 1];
      OrdersAreTheOpenOnes(id, init, c, h);
      StepOrders(Run(id, init), last, c);
      IsOpenSnoc(Transcript(id, init), Exchange(last, ReplyTo(Run(id, init), last)), c, h);
    }
  }

  /** What one message does to one entry of the order table. */
  lemma StepOrders(s: State, msg: DecodedMessage, c: U64)
    ensures var e := Exchange(msg, ReplyTo(s, msg)); var s' := After(s, msg);
      if Opens(e, c) then c in s'.orders && s'.orders[c] == e.reply.orderHandle
      else if Closes(e, c) then c !in s'.orders
      else (c in s'.orders <==> c in s.orders) && (c in s.orders ==> s'.orders[c] == s.orders[c])
  {
  }

  /** A Cancelled or Modified reply carries the handle of the latest opening of its id. */
  lemma RepliesCarryTheOpenHandle(id: U64, msgs: seq<DecodedMessage>, n: nat)
    requires n < |msgs|
    requires var r := ReplyTo(Run(id, msgs[..n]), msgs[n]); r.Cancelled? || r.Modified?
    ensures var r := ReplyTo(Run(id, msgs[..n]), msgs[n]);
      r.clientOrderId == ClientOrderId(msgs[n])
      && IsOpen(Transcript(id, msgs[..n]), r.clientOrderId, r.orderHandle)
  {
    var s := Run(id, msgs[..n]);
    var r := ReplyTo(s, msgs[n]);
    assert r.clientOrderId in s.orders && s.orders[r.clientOrderId] == r.orderHandle;
    OrdersAreTheOpenOnes(id, msgs[..n], r.clientOrderId, r.orderHandle);
  }

  /** Did exchange `i` open an order? */
  predicate OpensAt(t: seq<Exchange>, i: nat) {
    i < |t| && Opens(t[i], t[i].reply.clientOrderId)
  }

  /** The n-th accepted NewOrder carries handle n. */
  ghost predicate Numbered(t: seq<Exchange>) {
    forall i: nat :: OpensAt(t, i) ==> t[i].reply.orderHandle == Opened(t[..i]) + 1
  }

  lemma NumberedSnoc(t: seq<Exchange>, e: Exchange)
    requires Numbered(t)
    requires Opens(e, e.reply.clientOrderId) ==> e.reply.orderHandle == Opened(t) + 1
    ensures Numbered(t + [e])
    ensures Opened(t + [e]) == Opened(t) + if Opens(e, e.reply.clientOrderId) then 1 else 0
  {
    var t' := t + [e];
    assert t'[..|t|] == t;
    forall i: nat | OpensAt(t', i)
      ensures t'[i].reply.orderHandle == Opened(t'[..i]) + 1
    {
      if i < |t| {
        assert t'[i] == t[i] && t'[..i] == t[..i] && OpensAt(t, i);
      }
    }
  }

  /** An accepted NewOrder takes the next handle; nothing else does. */
  lemma StepHandle(s: State, msg: DecodedMessage)
    ensures var e, s' := Exchange(msg, ReplyTo(s, msg)), After(s, msg);
      if Opens(e, e.reply.clientOrderId) then e.reply.orderHandle == s.nextHandle && s'.nextHandle == Next(s.nextHandle)
      else s'.nextHandle == s.nextHandle
  {
  }

  ghost predicate HandleOk(nextHandle: U64, t: seq<Exchange>) {
    nextHandle == Opened(t) + 1 && Numbered(t)
  }

  lemma HandleOkSnoc(next: U64, next': U64, t: seq<Exchange>, e: Exchange)
    requires HandleOk(next, t) && Opened(t + [e]) < WORD - 1
    requires if Opens(e, e.reply.clientOrderId) then e.reply.orderHandle == next && next' == Next(next)
             else next' == next
    ensures HandleOk(next', t + [e])
  {
    NumberedSnoc(t, e);
  }

  lemma OpenedOfInit(t: seq<Exchange>, e: Exchange)
    ensures Opened(t) <= Opened(t + [e])
  {
  }

  /** No handle is zero and none is ever given again: they count the accepted orders. */
  lemma {:induction false} HandlesAreNumbered(id: U64, msgs: seq<DecodedMessage>)
    requires Opened(Transcript(id, msgs)) < WORD - 1
    ensures HandleOk(Run(id, msgs).nextHandle, Transcript(id, msgs))
  {
    if msgs != [] {
      var init, last := msgs[..|msgs| - 1], msgs[|msgs| - 1];
      var s := Run(id, init);
      var e := Exchange(last, ReplyTo(s, last));
      OpenedOfInit(Transcript(id, init), e);
      HandlesAreNumbered(id, init);
      StepHandle(s, last);
      HandleOkSnoc(s.nextHandle, After(s, last).nextHandle, Transcript(id, init), e);
    }
  }

  lemma {:induction false} OpenedGrows(t: seq<Exchange>, i: nat, j: nat)
    requires i < j <= |t| && Opens(t[i], t[i].reply.clientOrderId)
    ensures Opened(t[..i]) < Opened(t[..j])
  {
    assert t[..j][..j - 1] == t[..j - 1];
    if i < j - 1 {
      OpenedGrows(t, i, j - 1);
    }
  }

  /** Accepted NewOrders get ever larger handles: none is issued twice. */
  lemma HandlesAreNeverReissued(id: U64, msgs: seq<DecodedMessage>, i: nat, j: nat)
    requires Opened(Transcript(id, msgs)) < WORD - 1
    requires i < j && OpensAt(Transcript(id, msgs), i) && OpensAt(Transcript(id, msgs), j)
    ensures var t := Transcript(id, msgs);
      1 <= t[i].reply.orderHandle < t[j].reply.orderHandle < Run(id, msgs).nextHandle
  {
    var t := Transcript(id, msgs);
    HandlesAreNumbered(id, msgs);
    OpenedGrows(t, i, j);
    OpenedGrows(t, j, |t|);
    assert t[..|t|] == t;
  }

  /** Live orders have different handles, at least 1 and below the next one to be given. */
  lemma LiveHandlesAreDistinct(id: U64, msgs: seq<DecodedMessage>, c: U64, d: U64)
    requires Opened(Transcript(id, msgs)) < WORD - 1
    requires c in Run(id, msgs).orders && d in Run(id, msgs).orders
    ensures var s := Run(id, msgs);
      1 <= s.orders[c] < s.nextHandle && (c != d ==> s.orders[c] != s.orders[d])
  {
    var t, s := Transcript(id, msgs), Run(id, msgs);
    OrdersAreTheOpenOnes(id, msgs, c, s.orders[c]);
    OrdersAreTheOpenOnes(id, msgs, d, s.orders[d]);
    var i: nat :| LatestOpening(t, i, c, s.orders[c]);
    var j: nat :| LatestOpening(t, j, d, s.orders[d]);
    HandlesAreNumbered(id, msgs);
    assert OpensAt(t, i) && OpensAt(t, j);
    OpenedGrows(t, i, |t|);
    assert t[..|t|] == t;
    if i < j {
      HandlesAreNeverReissued(id, msgs, i, j);
    } else if j < i {
      HandlesAreNeverReissued(id, msgs, j, i);
    }
  }

  /** Active orders are those accepted minus those cancelled. */
  lemma {:induction false} ActiveCount(id: U64, msgs: seq<DecodedMessage>)
    ensures |Run(id, msgs).orders| == Opened(Transcript(id, msgs)) - Closed(Transcript(id, msgs))
  {
    if msgs != [] {
      var init, last := msgs[..|msgs| - 1], msgs[|msgs| - 1];
      var s, t, t' := Run(id, init), Transcript(id, init), Transcript(id, msgs);
      ActiveCount(id, init);
      assert t'[..|t'| - 1] == t;
      var reply := ReplyTo(s, last);
      if Opens(t'[|t|], reply.clientOrderId) {
        CountAdd(s.orders, reply.clientOrderId, reply.orderHandle);
      } else if reply.Cancelled? {
        CountRemove(s.orders, reply.clientOrderId);
      }
    }
  }

  lemma CountAdd(m: map<U64, U64>, k: U64, v: U64)
    requires k !in m
    ensures |m[k := v]| == |m| + 1
  {
  }

  lemma CountRemove(m: map<U64, U64>, k: U64)
    requires k in m
    ensures |m - {k}| == |m| - 1
  {
  }

  // ------------------------------ the sequence filter ------------------------------

  /** The messages that were in sequence when they came. */
  function Kept(id: U64, msgs: seq<DecodedMessage>): seq<DecodedMessage> {
    if msgs == [] then []
    else
      var init, last := msgs[..|msgs| - 1], msgs[|msgs| - 1];
      if InSequence(Run(id, init), last) then Kept(id, init) + [last] else Kept(id, init)
  }

  /** Their exchanges. */
  function KeptExchanges(id: U64, msgs: seq<DecodedMessage>): seq<Exchange> {
    if msgs == [] then []
    else
      var init, last := msgs[..|msgs| - 1], msgs[|msgs| - 1];
      if InSequence(Run(id, init), last)
      then KeptExchanges(id, init) + [Exchange(last, ReplyTo(Run(id, init), last))]
      else KeptExchanges(id, init)
  }

  lemma RunSnoc(id: U64, msgs: seq<DecodedMessage>, m: DecodedMessage)
    ensures Run(id, msgs + [m]) == After(Run(id, msgs), m)
    ensures Transcript(id, msgs + [m]) == Transcript(id, msgs) + [Exchange(m, ReplyTo(Run(id, msgs), m))]
  {
  }

  lemma AfterExpected(s: State, msg: DecodedMessage)
    ensures After(s, msg).expected == if InSequence(s, msg) then Next(s.expected) else s.expected
  {
  }

  /**
   * Leaving out every message that is out of sequence changes neither the final state nor any reply
   * to the others.
   */
  lemma {:induction false} FilterIsTransparent(id: U64, msgs: seq<DecodedMessage>)
    ensures Run(id, Kept(id, msgs)) == Run(id, msgs)
    ensures Transcript(id, Kept(id, msgs)) == KeptExchanges(id, msgs)
  {
    if msgs != [] {
      var init, last := msgs[..|msgs| - 1], msgs[|msgs| - 1];
      FilterIsTransparent(id, init);
      RunSnoc(id, Kept(id, init), last);
    }
  }

  /** The messages kept carry the sequence numbers 1, 2, 3, ... (modulo 2^64). */
  lemma {:induction false} KeptAreNumbered(id: U64, msgs: seq<DecodedMessage>)
    ensures forall i :: 0 <= i < |Kept(id, msgs)| ==>
              Kept(id, msgs)[i].header.sequenceNumber == (i + 1) % WORD
    ensures Run(id, msgs).expected == (|Kept(id, msgs)| + 1) % WORD
  {
    if msgs != [] {
      var init, last := msgs[..|msgs| - 1], msgs[|msgs| - 1];
      KeptAreNumbered(id, init);
      AfterExpected(Run(id, init), last);
      AddWraps(|Kept(id, init)| + 1, 1, WORD);
    }
  }

  /** A message out of sequence (or of unknown type) only gets a rejection. */
  lemma OutOfSequenceOnlyRejected(s: State, msg: DecodedMessage)
    ensures !InSequence(s, msg) <==> After(s, msg) == s
    ensures !InSequence(s, msg) ==> ReplyTo(s, msg).Rejected?
  {
  }

  /** By the replies so far, is an order with this id open? */
  ghost predicate AnyOpen(t: seq<Exchange>, c: U64) {
    exists h: U64 :: IsOpen(t, c, h)
  }

  lemma AnyOpenIffListed(id: U64, msgs: seq<DecodedMessage>, c: U64)
    ensures AnyOpen(Transcript(id, msgs), c) <==> c in Run(id, msgs).orders
  {
    var t, s := Transcript(id, msgs), Run(id, msgs);
    if h: U64 :| IsOpen(t, c, h) {
      OrdersAreTheOpenOnes(id, msgs, c, h);
    }
    if c in s.orders {
      OrdersAreTheOpenOnes(id, msgs, c, s.orders[c]);
      assert IsOpen(t, c, s.orders[c]);
    }
  }

  /** The next handle counts the orders accepted so far. */
  lemma {:induction false} NextHandle(id: U64, msgs: seq<DecodedMessage>)
    ensures Run(id, msgs).nextHandle == (Opened(Transcript(id, msgs)) + 1) % WORD
  {
    if msgs != [] {
      var init, last := msgs[..|msgs| - 1], msgs[|msgs| - 1];
      NextHandle(id, init);
      StepHandle(Run(id, init), last);
      assert Transcript(id, msgs)[..|init|] == Transcript(id, init);
      AddWraps(Opened(Transcript(id, init)) + 1, 1, WORD);
    }
  }

  /**
   * The whole reply to a message, told from the history alone: how many messages were in sequence
   * before it, which orders the replies so far leave open and with which handle, and how many were
   * accepted. Of several reasons to reject, the first of those listed is given.
   */
  lemma OutcomeByHistory(id: U64, msgs: seq<DecodedMessage>, m: DecodedMessage)
    ensures var r, t := ReplyTo(Run(id, msgs), m), Transcript(id, msgs);
      var due := m.header.sequenceNumber == (|Kept(id, msgs)| + 1) % WORD;
      && (m.kind == 1 ==>
            var c := m.newOrder.clientOrderId;
            r == if !due then Rejected(c, 1, 0, 0)
                 else if m.newOrder.price == 0 then Rejected(c, 4, 0, 0)
                 else if m.newOrder.quantity == 0 then Rejected(c, 5, 0, 0)
                 else if AnyOpen(t, c) then Rejected(c, 2, 0, 0)
                 else Accepted(c, (Opened(t) + 1) % WORD, 0, 0))
      && (m.kind == 2 ==>
            var c := m.cancelOrder.clientOrderId;
            if !due then r == Rejected(c, 1, 0, 0)
            else if !AnyOpen(t, c) then r == Rejected(c, 3, 0, 0)
            else r.Cancelled? && r == Cancelled(c, r.orderHandle, 0, 0) && IsOpen(t, c, r.orderHandle))
      && (m.kind == 3 ==>
            var c := m.modifyOrder.clientOrderId;
            if !due then r == Rejected(c, 1, 0, 0)
            else if !AnyOpen(t, c) then r == Rejected(c, 3, 0, 0)
            else if m.modifyOrder.newPrice == 0 then r == Rejected(c, 4, 0, 0)
            else if m.modifyOrder.newQuantity == 0 then r == Rejected(c, 5, 0, 0)
            else r.Modified? && r == Modified(c, r.orderHandle, 0, 0) && IsOpen(t, c, r.orderHandle))
      && (m.kind == 4 || m.kind == 5 ==> r == if due then Accepted(0, 0, 0, 0) else Rejected(0, 1, 0, 0))
      && (!(1 <= m.kind <= 5) ==> r == Rejected(0, 6, 0, 0))
  {
    var s, c := Run(id, msgs), ClientOrderId(m);
    KeptAreNumbered(id, msgs);
    NextHandle(id, msgs);
    AnyOpenIffListed(id, msgs, c);
    if c in s.orders {
      OrdersAreTheOpenOnes(id, msgs, c, s.orders[c]);
    }
  }

  lemma {:induction false} TranscriptAt(id: U64, msgs: seq<DecodedMessage>, i: nat)
    requires i < |msgs|
    ensures Transcript(id, msgs)[i] == Exchange(msgs[i], ReplyTo(Run(id, msgs[..i]), msgs[i]))
  {
    if i < |msgs| - 1 {
      var init := msgs[..|msgs| - 1];
      TranscriptAt(id, init, i);
      assert init[..i] == msgs[..i];
    }
  }

  /** What the client gets back for its i-th message. */
  ghost predicate Answered(id: U64, msgs: seq<DecodedMessage>, i: nat, frame: seq<Byte>, open: bool)
    requires i < |msgs|
  {
    && Wire.Says(frame, msgs[i].header, if id == 0 then msgs[i].header.sessionId else id, Transcript(id, msgs)[i].reply)
    && (!open <==> msgs[i].kind == 5 && msgs[i].header.sequenceNumber == (|Kept(id, msgs[..i])| + 1) % WORD)
  }

  /** A frame encoded as a reply carries the reply under the request's header. */
  lemma ReplySays(id: U64, h: MessageHeader, reply: Message, before: seq<Byte>)
    requires |before| == FRAME_SIZE
    ensures Wire.Says(Encoded(ResponseHeader(id, h), reply, before), h, if id == 0 then h.sessionId else id, reply)
  {
    Wire.EncodedSays(ResponseHeader(id, h), reply, before);
    Wire.SaysUnder(Encoded(ResponseHeader(id, h), reply, before), ResponseHeader(id, h), h,
                   ResponseHeader(id, h).sessionId, reply);
  }

  /** One call, in the terms of the history. */
  lemma OneCall(id: U64, msgs: seq<DecodedMessage>, i: nat, reply: Message, frame: seq<Byte>, open: bool)
    requires i < |msgs| && reply == ReplyTo(Run(id, msgs[..i]), msgs[i])
    requires Wire.Says(frame, msgs[i].header, if id == 0 then msgs[i].header.sessionId else id, reply)
    requires !open <==> msgs[i].kind == 5 && msgs[i].header.sequenceNumber == Run(id, msgs[..i]).expected
    ensures Answered(id, msgs, i, frame, open)
  {
    KeptAreNumbered(id, msgs[..i]);
    TranscriptAt(id, msgs, i);
  }

  lemma RunNext(id: U64, msgs: seq<DecodedMessage>, i: nat)
    requires i < |msgs|
    ensures Run(id, msgs[..i + 1]) == After(Run(id, msgs[..i]), msgs[i])
  {
    assert msgs[..i + 1] == msgs[..i] + [msgs[i]];
    RunSnoc(id, msgs[..i], msgs[i]);
  }

  /** The i-th call. */
  method Call(session: OrderEntrySession, ghost msgs: seq<DecodedMessage>, ghost i: nat, msg: DecodedMessage,
              out: array<Byte>) returns (open: bool)
    requires i < |msgs| && msg == msgs[i] && out.Length == FRAME_SIZE
    requires session.Value() == Run(session.sessionId, msgs[..i])
    modifies session, out
    ensures session.Value() == Run(session.sessionId, msgs[..i + 1])
    ensures Answered(session.sessionId, msgs, i, out[..], open)
  {
    ghost var before := out[..];
    ghost var reply := ReplyTo(session.Value(), msg);
    open := session.HandleMessage(msg, out);
    RunNext(session.sessionId, msgs, i);
    ReplySays(session.sessionId, msg.header, reply, before);
    OneCall(session.sessionId, msgs, i, reply, out[..], open);
  }

  ghost predicate AnsweredTo(id: U64, msgs: seq<DecodedMessage>, n: nat, frames: seq<seq<Byte>>, opens: seq<bool>) {
    n <= |msgs| && |frames| == |opens| == n && forall k :: 0 <= k < n ==> Answered(id, msgs, k, frames[k], opens[k])
  }

  lemma OneMoreAnswered(id: U64, msgs: seq<DecodedMessage>, n: nat, frames: seq<seq<Byte>>, opens: seq<bool>,
                        frame: seq<Byte>, open: bool)
    requires n < |msgs| && AnsweredTo(id, msgs, n, frames, opens) && Answered(id, msgs, n, frame, open)
    ensures AnsweredTo(id, msgs, n + 1, frames + [frame], opens + [open])
  {
    forall k | 0 <= k < n + 1
      ensures Answered(id, msgs, k, (frames + [frame])[k], (opens + [open])[k])
    {
      if k < n {
        assert Answered(id, msgs, k, frames[k], opens[k]);
      }
    }
  }

  /**
   * A session object that handles the messages in turn: each frame written carries the reply of the
   * transcript, under the header of the message and the session's id unless that is 0; and a call
   * returns false exactly for a Logout that is due.
   */
  method Converse(id: U64, msgs: seq<DecodedMessage>) returns (frames: seq<seq<Byte>>, opens: seq<bool>)
    ensures |frames| == |opens| == |msgs|
    ensures forall i :: 0 <= i < |msgs| ==> Answered(id, msgs, i, frames[i], opens[i])
  {
    var session := new OrderEntrySession(id);
    var out := new Byte[FRAME_SIZE](_ => 0);
    frames, opens := [], [];
    for i := 0 to |msgs|
      invariant fresh(session) && fresh(out) && session.sessionId == id
      invariant session.Value() == Run(id, msgs[..i])
      invariant AnsweredTo(id, msgs, i, frames, opens)
    {
      var open := Call(session, msgs, i, msgs[i], out);
      OneMoreAnswered(id, msgs, i, frames, opens, out[..], open);
      frames, opens := frames + [out[..]], opens + [open];
    }
  }
}
