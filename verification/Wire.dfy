/**
 * The wire format in plain numbers: which value stands at which offset of the 64 bytes, which bytes
 * pass the checks, and what is read from them. The codec is held to this, not the other way round.
 */
module Wire {
  import opened Bits
  import opened LittleEndian
  import opened Codec
  import opened Frames

  // ------------------------------ numbers ------------------------------

  /** A byte, as a number. */
  function At(bs: seq<Byte>, i: nat): nat
    requires i < |bs|
  {
    bs[i]
  }

  /** The loads read little-endian numbers. */
  lemma LoadsAreLittleEndian(bs: seq<Byte>, o: nat)
    ensures o + 2 <= |bs| ==> LoadU16(bs, o) == At(bs, o) + 0x100 * At(bs, o + 1)
    ensures o + 4 <= |bs| ==>
              LoadU32(bs, o)
              == At(bs, o) + 0x100 * At(bs, o + 1) + 0x1_0000 * At(bs, o + 2) + 0x100_0000 * At(bs, o + 3)
    ensures o + 8 <= |bs| ==>
              LoadU64(bs, o) == LoadU32(bs, o) + 0x1_0000_0000 * LoadU32(bs, o + 4)
  {
    if o + 2 <= |bs| {
      Number2(bs, o);
      LoadIsFromLE(bs, o, 2);
    }
    if o + 4 <= |bs| {
      Number4(bs, o);
      LoadIsFromLE(bs, o, 4);
    }
    if o + 8 <= |bs| {
      Number8(bs, o);
      LoadIsFromLE(bs, o + 4, 4);
      LoadIsFromLE(bs, o, 8);
    }
  }

  lemma Places()
    ensures Pow2(0) == 1 && Pow2(8) == 0x100 && Pow2(16) == 0x1_0000 && Pow2(24) == 0x100_0000
    ensures Pow2(32) == 0x1_0000_0000 && Pow2(40) == 0x100_0000_0000 && Pow2(48) == 0x1_0000_0000_0000
    ensures Pow2(56) == 0x100_0000_0000_0000
  {
    assert Pow2(8) == 0x100;
    Pow2Add(8, 8);
    Pow2Add(8, 16);
    Pow2Add(8, 24);
    Pow2Add(8, 32);
    Pow2Add(8, 40);
    Pow2Add(8, 48);
  }

  /** The number that `n` bytes stand for, by place values. */
  function Number(bs: seq<Byte>, o: nat, n: nat): nat
    requires o + n <= |bs|
  {
    FromLE(bs[o..o + n])
  }

  /** One byte more, of place value `p`. */
  lemma NumberMore(bs: seq<Byte>, o: nat, n: nat, p: nat)
    requires o + n < |bs| && p == Pow2(8 * n)
    ensures Number(bs, o, n + 1) == Number(bs, o, n) + At(bs, o + n) * p
  {
    assert bs[o..o + n + 1][..n] == bs[o..o + n];
  }

  lemma Number4(bs: seq<Byte>, o: nat)
    requires o + 4 <= |bs|
    ensures Number(bs, o, 2) == At(bs, o) + 0x100 * At(bs, o + 1)
    ensures Number(bs, o, 4)
         == At(bs, o) + 0x100 * At(bs, o + 1) + 0x1_0000 * At(bs, o + 2) + 0x100_0000 * At(bs, o + 3)
  {
    Number2(bs, o);
    Places();
    NumberMore(bs, o, 2, 0x1_0000);
    NumberMore(bs, o, 3, 0x100_0000);
  }

  lemma Number2(bs: seq<Byte>, o: nat)
    requires o + 2 <= |bs|
    ensures Number(bs, o, 2) == At(bs, o) + 0x100 * At(bs, o + 1)
  {
    Places();
    NumberMore(bs, o, 0, 1);
    NumberMore(bs, o, 1, 0x100);
  }

  lemma Number8(bs: seq<Byte>, o: nat)
    requires o + 8 <= |bs|
    ensures Number(bs, o, 8) == Number(bs, o, 4) + 0x1_0000_0000 * Number(bs, o + 4, 4)
  {
    Number4(bs, o + 4);
    Places();
    NumberMore(bs, o, 4, 0x1_0000_0000);
    NumberMore(bs, o, 5, 0x100_0000_0000);
    NumberMore(bs, o, 6, 0x1_0000_0000_0000);
    NumberMore(bs, o, 7, 0x100_0000_0000_0000);
  }

  // ------------------------------ what an encoded frame says ------------------------------

  /** The header of `h`, with this type, length 32 and this session id. */
  predicate HeaderSays(frame: seq<Byte>, h: MessageHeader, kind: nat, session: U64) {
    && |frame| == 64
    && LoadU32(frame, 0) == h.magic && LoadU16(frame, 4) == h.version
    && LoadU16(frame, 6) == kind && LoadU16(frame, 8) == 32
    && LoadU16(frame, 10) == h.flags && LoadU64(frame, 12) == h.sequenceNumber
    && LoadU64(frame, 20) == session && LoadU32(frame, 28) == h.reserved
  }

  predicate PayloadSays(frame: seq<Byte>, a: U64, b: U64, c: U64, d: U64) {
    && |frame| == 64
    && LoadU64(frame, 32) == a && LoadU64(frame, 40) == b && LoadU64(frame, 48) == c && LoadU64(frame, 56) == d
  }

  /** The frame carries the message `m` under the header `h` with this session id. */
  predicate Says(frame: seq<Byte>, h: MessageHeader, session: U64, m: Message) {
    match m
    case NewOrder(id, side, price, quantity) =>
      HeaderSays(frame, h, 1, session) && PayloadSays(frame, id, side, price, quantity)
    case CancelOrder(id) => HeaderSays(frame, h, 2, session) && LoadU64(frame, 32) == id
    case ModifyOrder(id, price, quantity) =>
      HeaderSays(frame, h, 3, session)
      && LoadU64(frame, 32) == id && LoadU64(frame, 40) == price && LoadU64(frame, 48) == quantity
    case Accepted(id, handle, r1, r2) => HeaderSays(frame, h, 101, session) && PayloadSays(frame, id, handle, r1, r2)
    case Rejected(id, reason, r1, r2) => HeaderSays(frame, h, 102, session) && PayloadSays(frame, id, reason, r1, r2)
    case Cancelled(id, handle, r1, r2) => HeaderSays(frame, h, 103, session) && PayloadSays(frame, id, handle, r1, r2)
    case Modified(id, handle, r1, r2) => HeaderSays(frame, h, 104, session) && PayloadSays(frame, id, handle, r1, r2)
    case Trade(id, handle, price, quantity) =>
      HeaderSays(frame, h, 105, session) && PayloadSays(frame, id, handle, price, quantity)
  }

  /** What every encoder writes, offset by offset. */
  lemma EncodedSays(header: MessageHeader, m: Message, before: seq<Byte>)
    requires |before| == 64
    ensures var frame := Encoded(header, m, before);
      && LoadU32(frame, 0) == header.magic && LoadU16(frame, 4) == header.version
      && LoadU16(frame, 6) == (match m
           case NewOrder(_, _, _, _) => 1 case CancelOrder(_) => 2 case ModifyOrder(_, _, _) => 3
           case Accepted(_, _, _, _) => 101 case Rejected(_, _, _, _) => 102 case Cancelled(_, _, _, _) => 103
           case Modified(_, _, _, _) => 104 case Trade(_, _, _, _) => 105)
      && LoadU16(frame, 8) == 32 && LoadU16(frame, 10) == header.flags
      && LoadU64(frame, 12) == header.sequenceNumber && LoadU64(frame, 20) == header.sessionId
      && LoadU32(frame, 28) == header.reserved
      && LoadU64(frame, 32) == m.clientOrderId
      && (m.NewOrder? ==>
            LoadU64(frame, 40) == m.side && LoadU64(frame, 48) == m.price && LoadU64(frame, 56) == m.quantity)
      && (m.ModifyOrder? ==> LoadU64(frame, 40) == m.newPrice && LoadU64(frame, 48) == m.newQuantity)
      && (m.Accepted? || m.Cancelled? || m.Modified? || m.Trade? ==> LoadU64(frame, 40) == m.orderHandle)
      && (m.Rejected? ==> LoadU64(frame, 40) == m.reason)
      && (m.Accepted? || m.Rejected? || m.Cancelled? || m.Modified? ==>
            LoadU64(frame, 48) == m.reserved1 && LoadU64(frame, 56) == m.reserved2)
      && (m.Trade? ==> LoadU64(frame, 48) == m.price && LoadU64(frame, 56) == m.quantity)
    ensures Says(Encoded(header, m, before), header, header.sessionId, m)
  {
    RoundTrip(header, m, before);
  }

  /** Only the fields that the encoders copy from the header matter. */
  lemma SaysUnder(frame: seq<Byte>, h: MessageHeader, h': MessageHeader, session: U64, m: Message)
    requires Says(frame, h, session, m)
    requires h' == h.(messageType := h'.messageType, payloadLength := h'.payloadLength, sessionId := h'.sessionId)
    ensures Says(frame, h', session, m)
  {
  }

  // ------------------------------ which frames are good, and what is read ------------------------------

  /** Exactly which 64 bytes try_parse accepts. */
  lemma GoodFrameIff(frame: seq<Byte>)
    requires |frame| == 64
    ensures DecodeFrame(frame).Some?
       <==> LoadU32(frame, 0) == 0x6c6c7467 && LoadU16(frame, 4) == 1
            && 1 <= LoadU16(frame, 6) <= 5 && LoadU16(frame, 8) == 32
  {
    HeaderOfPrefix(frame);
  }

  /** What is read from a good frame into the out-parameter that held `before`. */
  lemma FilledSays(frame: seq<Byte>, before: DecodedMessage)
    requires |frame| == 64
    ensures var out, kind := Filled(frame, before), LoadU16(frame, 6);
      && out.kind == kind
      && out.header == MessageHeader(LoadU32(frame, 0), LoadU16(frame, 4), kind, LoadU16(frame, 8), LoadU16(frame, 10),
                                     LoadU64(frame, 12), LoadU64(frame, 20), LoadU32(frame, 28))
      && out.newOrder == (if kind == 1 then NewOrder(LoadU64(frame, 32), LoadU64(frame, 40), LoadU64(frame, 48),
                                                     LoadU64(frame, 56))
                          else before.newOrder)
      && out.cancelOrder == (if kind == 2 then CancelOrder(LoadU64(frame, 32)) else before.cancelOrder)
      && out.modifyOrder == (if kind == 3 then ModifyOrder(LoadU64(frame, 32), LoadU64(frame, 40), LoadU64(frame, 48))
                             else before.modifyOrder)
  {
    HeaderOfPrefix(frame);
  }

  /** The status of every header, for requests and for responses. */
  lemma HeaderStatus(bs: seq<Byte>, before: MessageHeader)
    ensures var (status, h) := DecodeHeader(bs, before);
      && (status == DecodeStatus.NeedMoreData <==> |bs| < 32)
      && (|bs| < 32 ==> h == before)
      && (32 <= |bs| ==>
            && (status == BadMagic <==> LoadU32(bs, 0) != 0x6c6c7467)
            && (status == BadVersion <==> LoadU32(bs, 0) == 0x6c6c7467 && LoadU16(bs, 4) != 1)
            && (status == Ok <==> LoadU32(bs, 0) == 0x6c6c7467 && LoadU16(bs, 4) == 1))
      && (ValidateHeader(h) == UnknownMessageType <==> !(1 <= h.messageType <= 5))
      && (ValidateHeader(h) == BadPayloadLength <==> 1 <= h.messageType <= 5 && h.payloadLength != 32)
      && (ValidateHeader(h) == Ok <==> 1 <= h.messageType <= 5 && h.payloadLength == 32)
      && (ValidateResponseHeader(h) == UnknownMessageType <==> !(101 <= h.messageType <= 105))
      && (ValidateResponseHeader(h) == BadPayloadLength <==> 101 <= h.messageType <= 105 && h.payloadLength != 32)
      && (ValidateResponseHeader(h) == Ok <==> 101 <= h.messageType <= 105 && h.payloadLength == 32)
  {
  }
}
