/** Little-endian integers: the store_u*_le and load_u*_le helpers of codec.hpp. */
module LittleEndian {
  import opened Bits

  type Byte = b: nat | b < 0x100
  type U16 = x: nat | x < 0x1_0000
  type U32 = x: nat | x < 0x1_0000_0000
  type U64 = x: nat | x < WORD

  /** The `n` low bytes of `v`, lowest first. */
  function LE(v: nat, n: nat): (bs: seq<Byte>)
    ensures |bs| == n
  {
    if n == 0 then [] else LE(v, n - 1) + [And(Shr(v, 8 * (n - 1)), 0xff)]
  }

  function FromLE(bs: seq<Byte>): nat {
    if bs == [] then 0
    else FromLE(bs[..|bs| - 1]) + bs[|bs| - 1] * Pow2(8 * (|bs| - 1))
  }

  /** `res |= in[offset + i] << 8 * i` for i = 0 .. n - 1; load_u16_le, _u32_le and _u64_le are n = 2, 4, 8. */
  function Load(bs: seq<Byte>, offset: nat, n: nat): nat
    requires offset + n <= |bs|
  {
    if n == 0 then 0 else Or(Load(bs, offset, n - 1), bs[offset + n - 1] * Pow2(8 * (n - 1)))
  }

  lemma ByteStep(n: nat)
    ensures Pow2(8 * n + 8) == 256 * Pow2(8 * n)
  {
    Pow2Add(8, 8 * n);
    assert Pow2(8) == 256;
  }

  lemma {:induction false} FromLEBound(bs: seq<Byte>)
    ensures FromLE(bs) < Pow2(8 * |bs|)
  {
    if bs != [] {
      var n := |bs| - 1;
      FromLEBound(bs[..n]);
      ByteStep(n);
      MulMono(bs[n], 255, Pow2(8 * n));
    }
  }

  lemma {:induction false} LoadIsFromLE(bs: seq<Byte>, offset: nat, n: nat)
    requires offset + n <= |bs|
    ensures Load(bs, offset, n) == FromLE(bs[offset..offset + n])
  {
    if n != 0 {
      LoadIsFromLE(bs, offset, n - 1);
      var part := bs[offset..offset + n];
      assert part[..n - 1] == bs[offset..offset + n - 1];
      FromLEBound(part[..n - 1]);
      OrDisjoint(FromLE(part[..n - 1]), bs[offset + n - 1], 8 * (n - 1));
    }
  }

  lemma ModSplit(x: nat, p: nat, q: nat)
    requires 1 <= p && 1 <= q && 1 <= q * p
    ensures x % (q * p) == x % p + ((x / p) % q) * p
  {
    var hi, lo := DivMod(x, p);
    MulMono(0, hi + 1, p);
    var a, b := DivMod(hi, q);
    MulDistrib(a * q, b, p);
    MulRegroup(a, p, q);
    MulMono(b, q - 1, p);
    MulDistrib(q, -1, p);
    assert x == a * (q * p) + (b * p + lo);
    DivModUnique(x, q * p, a, b * p + lo);
  }

  /** The next byte of `v` on top of its k low bits. */
  lemma OneMoreByte(v: nat, k: nat)
    ensures v % Pow2(k) + And(Shr(v, k), 0xff) * Pow2(k) == v % Pow2(k + 8)
  {
    Pow2Add(8, k);
    assert Pow2(8) == 256;
    ShrIsDiv(v, k);
    MaskIsMod(Shr(v, k), 8);
    ModSplit(v, Pow2(k), 256);
  }

  lemma {:induction false} FromLEOfLE(v: nat, n: nat)
    ensures FromLE(LE(v, n)) == v % Pow2(8 * n)
  {
    if n == 0 {
      assert v % 1 == 0;
    } else {
      FromLEOfLE(v, n - 1);
      OneMoreByte(v, 8 * (n - 1));
      assert LE(v, n)[..n - 1] == LE(v, n - 1);
      assert 8 * (n - 1) + 8 == 8 * n;
    }
  }

  lemma {:induction false} FromLEInjective(a: seq<Byte>, b: seq<Byte>)
    requires |a| == |b| && FromLE(a) == FromLE(b)
    ensures a == b
  {
    if a != [] {
      var n := |a| - 1;
      var p := Pow2(8 * n);
      FromLEBound(a[..n]);
      FromLEBound(b[..n]);
      DivModUnique(FromLE(a), p, a[n], FromLE(a[..n]));
      DivModUnique(FromLE(b), p, b[n], FromLE(b[..n]));
      FromLEInjective(a[..n], b[..n]);
      assert a == a[..n] + [a[n]] && b == b[..n] + [b[n]];
    }
  }

  /** Storing what was loaded gives the bytes back. */
  lemma LEOfFromLE(bs: seq<Byte>)
    ensures LE(FromLE(bs), |bs|) == bs
  {
    FromLEBound(bs);
    FromLEOfLE(FromLE(bs), |bs|);
    DivModUnique(FromLE(bs), Pow2(8 * |bs|), 0, FromLE(bs));
    FromLEInjective(LE(FromLE(bs), |bs|), bs);
  }

  /** Loading what was stored gives the value back. */
  lemma LoadOfLE(bs: seq<Byte>, offset: nat, v: nat, n: nat)
    requires offset + n <= |bs| && v < Pow2(8 * n) && bs[offset..offset + n] == LE(v, n)
    ensures Load(bs, offset, n) == v
  {
    LoadIsFromLE(bs, offset, n);
    FromLEOfLE(v, n);
    DivModUnique(v, Pow2(8 * n), 0, v);
  }

  lemma LEOfLoad(bs: seq<Byte>, offset: nat, n: nat)
    requires offset + n <= |bs|
    ensures LE(Load(bs, offset, n), n) == bs[offset..offset + n]
  {
    LoadIsFromLE(bs, offset, n);
    LEOfFromLE(bs[offset..offset + n]);
  }

  lemma Widths()
    ensures Pow2(16) == 0x1_0000 && Pow2(32) == 0x1_0000_0000 && Pow2(64) == WORD
  {
    assert Pow2(8) == 0x100;
    Pow2Add(8, 8);
    Pow2Add(16, 16);
    WordIsPow2();
  }

  function LoadU16(bs: seq<Byte>, offset: nat): U16
    requires offset + 2 <= |bs|
  {
    LoadIsFromLE(bs, offset, 2); FromLEBound(bs[offset..offset + 2]); Widths();
    Load(bs, offset, 2)
  }

  function LoadU32(bs: seq<Byte>, offset: nat): U32
    requires offset + 4 <= |bs|
  {
    LoadIsFromLE(bs, offset, 4); FromLEBound(bs[offset..offset + 4]); Widths();
    Load(bs, offset, 4)
  }

  function LoadU64(bs: seq<Byte>, offset: nat): U64
    requires offset + 8 <= |bs|
  {
    LoadIsFromLE(bs, offset, 8); FromLEBound(bs[offset..offset + 8]); Widths();
    Load(bs, offset, 8)
  }

  /** `s` with `bs` in place of what was at `offset`. */
  function Splice(s: seq<Byte>, offset: nat, bs: seq<Byte>): (r: seq<Byte>)
    requires offset + |bs| <= |s|
    ensures |r| == |s|
  {
    s[..offset] + bs + s[offset + |bs|..]
  }

  /** `(value >> n) & 0xff` */
  function Shifted(value: nat, n: nat): Byte {
    And(Shr(value, n), 0xff)
  }

  lemma LEIsShifted(value: nat, n: nat)
    ensures forall i :: 0 <= i < n ==> LE(value, n)[i] == Shifted(value, 8 * i)
  {
  }

  lemma SpliceStep(s: seq<Byte>, offset: nat, bs: seq<Byte>, k: nat)
    requires k < |bs| && offset + |bs| <= |s|
    ensures Splice(s, offset, bs[..k])[offset + k := bs[k]] == Splice(s, offset, bs[..k + 1])
  {
  }

  /** out[offset + k] := b, where the k bytes before are already stored. */
  method StoreByte(out: array<Byte>, offset: nat, k: nat, b: Byte, ghost s: seq<Byte>, ghost bs: seq<Byte>)
    requires k < |bs| && offset + |bs| <= |s| == out.Length && b == bs[k]
    requires out[..] == Splice(s, offset, bs[..k])
    modifies out
    ensures out[..] == Splice(s, offset, bs[..k + 1])
  {
    out[offset + k] := b;
    SpliceStep(s, offset, bs, k);
  }

  method StoreU16(out: array<Byte>, offset: nat, value: U16)
    requires offset + 2 <= out.Length
    modifies out
    ensures out[..] == Splice(old(out[..]), offset, LE(value, 2))
  {
    ghost var s, bs := out[..], LE(value, 2);
    LEIsShifted(value, 2);
    assert s == Splice(s, offset, bs[..0]);
    StoreByte(out, offset, 0, Shifted(value, 0), s, bs);
    StoreByte(out, offset, 1, Shifted(value, 8), s, bs);
    assert bs[..2] == bs;
  }

  method StoreU32(out: array<Byte>, offset: nat, value: U32)
    requires offset + 4 <= out.Length
    modifies out
    ensures out[..] == Splice(old(out[..]), offset, LE(value, 4))
  {
    ghost var s, bs := out[..], LE(value, 4);
    LEIsShifted(value, 4);
    assert s == Splice(s, offset, bs[..0]);
    StoreByte(out, offset, 0, Shifted(value, 0), s, bs);
    StoreByte(out, offset, 1, Shifted(value, 8), s, bs);
    StoreByte(out, offset, 2, Shifted(value, 16), s, bs);
    StoreByte(out, offset, 3, Shifted(value, 24), s, bs);
    assert bs[..4] == bs;
  }

  method StoreU64(out: array<Byte>, offset: nat, value: U64)
    requires offset + 8 <= out.Length
    modifies out
    ensures out[..] == Splice(old(out[..]), offset, LE(value, 8))
  {
    ghost var s, bs := out[..], LE(value, 8);
    LEIsShifted(value, 8);
    assert s == Splice(s, offset, bs[..0]);
    StoreByte(out, offset, 0, Shifted(value, 0), s, bs);
    StoreByte(out, offset, 1, Shifted(value, 8), s, bs);
    StoreByte(out, offset, 2, Shifted(value, 16), s, bs);
    StoreByte(out, offset, 3, Shifted(value, 24), s, bs);
    StoreByte(out, offset, 4, Shifted(value, 32), s, bs);
    StoreByte(out, offset, 5, Shifted(value, 40), s, bs);
    StoreByte(out, offset, 6, Shifted(value, 48), s, bs);
    StoreByte(out, offset, 7, Shifted(value, 56), s, bs);
    assert bs[..8] == bs;
  }
}

/** The 64-byte frames of protocol.hpp and codec.hpp. */
module Codec {
  import opened Bits
  import opened LittleEndian

  const MAGIC: U32 := 0x6c6c7467
  const VERSION: U16 := 1
  const FRAME_SIZE: nat := 64
  const HEADER_SIZE: nat := 32
  const PAYLOAD_SIZE: U16 := 32

  // Message types on the wire.
  const NEW_ORDER: U16 := 1
  const CANCEL_ORDER: U16 := 2
  const MODIFY_ORDER: U16 := 3
  const HEARTBEAT: U16 := 4
  const LOGOUT: U16 := 5
  const ACCEPTED: U16 := 101
  const REJECTED: U16 := 102
  const CANCELLED: U16 := 103
  const MODIFIED: U16 := 104
  const TRADE: U16 := 105

  datatype DecodeStatus = Ok | NeedMoreData | BadMagic | BadVersion | UnknownMessageType | BadPayloadLength

  datatype MessageHeader = MessageHeader(
    magic: U32, version: U16, messageType: U16, payloadLength: U16, flags: U16,
    sequenceNumber: U64, sessionId: U64, reserved: U32)

  /** `MessageHeader h{}`. */
  const DEFAULT_HEADER := MessageHeader(MAGIC, VERSION, 0, 0, 0, 0, 0, 0)

  /** The message structs, with the fields that travel; Side and RejectReason are any 64-bit value. */
  datatype Message =
    | NewOrder(clientOrderId: U64, side: U64, price: U64, quantity: U64)
    | CancelOrder(clientOrderId: U64)
    | ModifyOrder(clientOrderId: U64, newPrice: U64, newQuantity: U64)
    | Accepted(clientOrderId: U64, orderHandle: U64, reserved1: U64, reserved2: U64)
    | Rejected(clientOrderId: U64, reason: U64, reserved1: U64, reserved2: U64)
    | Cancelled(clientOrderId: U64, orderHandle: U64, reserved1: U64, reserved2: U64)
    | Modified(clientOrderId: U64, orderHandle: U64, reserved1: U64, reserved2: U64)
    | Trade(clientOrderId: U64, orderHandle: U64, price: U64, quantity: U64)

  function TypeOf(m: Message): U16 {
    match m
    case NewOrder(_, _, _, _) => NEW_ORDER
    case CancelOrder(_) => CANCEL_ORDER
    case ModifyOrder(_, _, _) => MODIFY_ORDER
    case Accepted(_, _, _, _) => ACCEPTED
    case Rejected(_, _, _, _) => REJECTED
    case Cancelled(_, _, _, _) => CANCELLED
    case Modified(_, _, _, _) => MODIFIED
    case Trade(_, _, _, _) => TRADE
  }

  // ------------------------------ encoding ------------------------------

  /** The wire layout of a header, its fields in order and little-endian, in front of `rest`. */
  function HeaderThen(h: MessageHeader, rest: seq<Byte>): (bs: seq<Byte>)
    ensures |bs| == HEADER_SIZE + |rest|
  {
    LE(h.magic, 4) + (LE(h.version, 2) + (LE(h.messageType, 2) + (LE(h.payloadLength, 2) + (LE(h.flags, 2)
    + (LE(h.sequenceNumber, 8) + (LE(h.sessionId, 8) + (LE(h.reserved, 4) + rest)))))))
  }

  /** How many payload bytes the encoder of the message writes. */
  function PayloadWritten(m: Message): nat {
    if m.CancelOrder? then 8 else if m.ModifyOrder? then 24 else 32
  }

  function WordsThen(a: U64, b: U64, c: U64, d: U64, rest: seq<Byte>): (bs: seq<Byte>)
    ensures |bs| == 32 + |rest|
  {
    LE(a, 8) + (LE(b, 8) + (LE(c, 8) + (LE(d, 8) + rest)))
  }

  /** The payload bytes the encoder writes, in front of `rest`. */
  function PayloadThen(m: Message, rest: seq<Byte>): (bs: seq<Byte>)
    ensures |bs| == PayloadWritten(m) + |rest|
  {
    match m
    case NewOrder(id, side, price, quantity) => WordsThen(id, side, price, quantity, rest)
    case CancelOrder(id) => LE(id, 8) + rest
    case ModifyOrder(id, price, quantity) => LE(id, 8) + (LE(price, 8) + (LE(quantity, 8) + rest))
    case Accepted(id, handle, r1, r2) => WordsThen(id, handle, r1, r2, rest)
    case Rejected(id, reason, r1, r2) => WordsThen(id, reason, r1, r2, rest)
    case Cancelled(id, handle, r1, r2) => WordsThen(id, handle, r1, r2, rest)
    case Modified(id, handle, r1, r2) => WordsThen(id, handle, r1, r2, rest)
    case Trade(id, handle, price, quantity) => WordsThen(id, handle, price, quantity, rest)
  }

  function Stamped(header: MessageHeader, m: Message): MessageHeader {
    header.(messageType := TypeOf(m), payloadLength := PAYLOAD_SIZE)
  }

  /** What a buffer `before` becomes when the message is encoded into it. */
  function Encoded(header: MessageHeader, m: Message, before: seq<Byte>): (bs: seq<Byte>)
    requires FRAME_SIZE <= |before|
    ensures |bs| == |before|
  {
    HeaderThen(Stamped(header, m), PayloadThen(m, before[HEADER_SIZE + PayloadWritten(m)..]))
  }

  /** A sequence that starts with the fields, seen as fields in front of the rest. */
  lemma Regroup(prefix: seq<Byte>, field: seq<Byte>, rest: seq<Byte>)
    ensures prefix + field + rest == prefix + (field + rest)
  {
  }

  /** StoreU16/32/64 behind the fields already written: the buffer is `prefix`, then as it was. */
  method StoreField(out: array<Byte>, offset: nat, value: nat, width: nat, ghost s: seq<Byte>, ghost prefix: seq<Byte>)
    returns (ghost longer: seq<Byte>)
    requires (width == 2 && value < 0x1_0000) || (width == 4 && value < 0x1_0000_0000) || (width == 8 && value < WORD)
    requires offset == |prefix| && offset + width <= out.Length == |s|
    requires out[..] == prefix + s[offset..]
    modifies out
    ensures longer == prefix + LE(value, width) && |longer| == offset + width
    ensures out[..] == longer + s[offset + width..]
  {
    if width == 2 {
      StoreU16(out, offset, value);
    } else if width == 4 {
      StoreU32(out, offset, value);
    } else {
      StoreU64(out, offset, value);
    }
    longer := prefix + LE(value, width);
  }

  /** The fields one after the other, in front of `rest`. */
  lemma HeaderFlat(h: MessageHeader, rest: seq<Byte>)
    ensures [] + LE(h.magic, 4) + LE(h.version, 2) + LE(h.messageType, 2) + LE(h.payloadLength, 2)
            + LE(h.flags, 2) + LE(h.sequenceNumber, 8) + LE(h.sessionId, 8) + LE(h.reserved, 4) + rest
         == HeaderThen(h, rest)
  {
    var r4 := LE(h.sequenceNumber, 8) + (LE(h.sessionId, 8) + (LE(h.reserved, 4) + rest));
    var p4 := LE(h.magic, 4) + LE(h.version, 2) + LE(h.messageType, 2) + LE(h.payloadLength, 2);
    assert p4 + (LE(h.flags, 2) + r4) == HeaderThen(h, rest);
    assert p4 + LE(h.flags, 2) + LE(h.sequenceNumber, 8) + LE(h.sessionId, 8) + LE(h.reserved, 4) + rest
        == p4 + (LE(h.flags, 2) + r4);
  }

  lemma WordsFlat(prefix: seq<Byte>, a: U64, b: U64, c: U64, d: U64, rest: seq<Byte>)
    ensures prefix + LE(a, 8) + LE(b, 8) + LE(c, 8) + LE(d, 8) + rest == prefix + WordsThen(a, b, c, d, rest)
  {
  }

  method EncodeHeader(h: MessageHeader, out: array<Byte>)
    requires HEADER_SIZE <= out.Length
    modifies out
    ensures out[..] == HeaderThen(h, old(out[HEADER_SIZE..]))
  {
    ghost var s := out[..];
    ghost var p := StoreField(out, 0, h.magic, 4, s, []);
    p := StoreField(out, 4, h.version, 2, s, p);
    p := StoreField(out, 6, h.messageType, 2, s, p);
    p := StoreField(out, 8, h.payloadLength, 2, s, p);
    p := StoreField(out, 10, h.flags, 2, s, p);
    p := StoreField(out, 12, h.sequenceNumber, 8, s, p);
    p := StoreField(out, 20, h.sessionId, 8, s, p);
    p := StoreField(out, 28, h.reserved, 4, s, p);
    HeaderFlat(h, s[HEADER_SIZE..]);
  }

  /** The header bytes do not depend on what follows them. */
  lemma HeaderConcat(h: MessageHeader, rest: seq<Byte>)
    ensures HeaderThen(h, rest) == HeaderThen(h, []) + rest
  {
  }

  /** Four u64 fields behind a header. */
  method StoreWords(out: array<Byte>, a: U64, b: U64, c: U64, d: U64)
    requires FRAME_SIZE <= out.Length
    modifies out
    ensures out[..] == old(out[..HEADER_SIZE]) + WordsThen(a, b, c, d, old(out[FRAME_SIZE..]))
  {
    ghost var s := out[..];
    ghost var p := StoreField(out, HEADER_SIZE + 0, a, 8, s, s[..HEADER_SIZE]);
    p := StoreField(out, HEADER_SIZE + 8, b, 8, s, p);
    p := StoreField(out, HEADER_SIZE + 16, c, 8, s, p);
    p := StoreField(out, HEADER_SIZE + 24, d, 8, s, p);
    WordsFlat(s[..HEADER_SIZE], a, b, c, d, s[FRAME_SIZE..]);
  }

  method StoreCancel(out: array<Byte>, id: U64)
    requires FRAME_SIZE <= out.Length
    modifies out
    ensures out[..] == old(out[..HEADER_SIZE]) + (LE(id, 8) + old(out[HEADER_SIZE + 8..]))
  {
    ghost var s := out[..];
    ghost var p := StoreField(out, HEADER_SIZE + 0, id, 8, s, s[..HEADER_SIZE]);
    Regroup(s[..HEADER_SIZE], LE(id, 8), s[HEADER_SIZE + 8..]);
  }

  method StoreModify(out: array<Byte>, id: U64, price: U64, quantity: U64)
    requires FRAME_SIZE <= out.Length
    modifies out
    ensures out[..]
         == old(out[..HEADER_SIZE]) + (LE(id, 8) + (LE(price, 8) + (LE(quantity, 8) + old(out[HEADER_SIZE + 24..]))))
  {
    ghost var s := out[..];
    ghost var rest := s[HEADER_SIZE + 24..];
    ghost var p := StoreField(out, HEADER_SIZE + 0, id, 8, s, s[..HEADER_SIZE]);
    ghost var q := StoreField(out, HEADER_SIZE + 8, price, 8, s, p);
    ghost var r := StoreField(out, HEADER_SIZE + 16, quantity, 8, s, q);
    Regroup(q, LE(quantity, 8), rest);
    Regroup(p, LE(price, 8), LE(quantity, 8) + rest);
    Regroup(s[..HEADER_SIZE], LE(id, 8), LE(price, 8) + (LE(quantity, 8) + rest));
  }

  method EncodePayload(m: Message, out: array<Byte>)
    requires FRAME_SIZE <= out.Length
    modifies out
    ensures out[..] == old(out[..HEADER_SIZE]) + PayloadThen(m, old(out[HEADER_SIZE + PayloadWritten(m)..]))
  {
    match m {
      case NewOrder(id, side, price, quantity) => StoreWords(out, id, side, price, quantity);
      case CancelOrder(id) => StoreCancel(out, id);
      case ModifyOrder(id, price, quantity) => StoreModify(out, id, price, quantity);
      case Accepted(id, handle, r1, r2) => StoreWords(out, id, handle, r1, r2);
      case Rejected(id, reason, r1, r2) => StoreWords(out, id, reason, r1, r2);
      case Cancelled(id, handle, r1, r2) => StoreWords(out, id, handle, r1, r2);
      case Modified(id, handle, r1, r2) => StoreWords(out, id, handle, r1, r2);
      case Trade(id, handle, price, quantity) => StoreWords(out, id, handle, price, quantity);
    }
  }

  /** encode_new_order, encode_cancel_order, .., encode_trade: one body for each message. */
  method Encode(header: MessageHeader, m: Message, out: array<Byte>) returns (size: nat)
    requires FRAME_SIZE <= out.Length
    modifies out
    ensures out[..] == Encoded(header, m, old(out[..]))
    ensures size == FRAME_SIZE
  {
    ghost var before := out[..];
    var h := header.(messageType := TypeOf(m), payloadLength := PAYLOAD_SIZE);
    EncodeHeader(h, out);
    ghost var rest := before[HEADER_SIZE..];
    HeaderConcat(h, rest);
    assert out[..HEADER_SIZE] == HeaderThen(h, []);
    assert out[HEADER_SIZE + PayloadWritten(m)..] == before[HEADER_SIZE + PayloadWritten(m)..] by {
      assert out[HEADER_SIZE..] == rest;
    }
    EncodePayload(m, out);
    HeaderConcat(h, PayloadThen(m, before[HEADER_SIZE + PayloadWritten(m)..]));
    return FRAME_SIZE;
  }

  // ------------------------------ decoding ------------------------------

  function LoadHeader(bs: seq<Byte>): MessageHeader
    requires HEADER_SIZE <= |bs|
  {
    MessageHeader(LoadU32(bs, 0), LoadU16(bs, 4), LoadU16(bs, 6), LoadU16(bs, 8), LoadU16(bs, 10),
                  LoadU64(bs, 12), LoadU64(bs, 20), LoadU32(bs, 28))
  }

  /** decode_header: its status, and the out-parameter that held `before`. */
  function DecodeHeader(bs: seq<Byte>, before: MessageHeader): (DecodeStatus, MessageHeader) {
    if |bs| < HEADER_SIZE then (NeedMoreData, before)
    else
      var h := LoadHeader(bs);
      if h.magic != MAGIC then (BadMagic, h)
      else if h.version != VERSION then (BadVersion, h)
      else (Ok, h)
  }

  predicate IsKnownRequestType(t: U16) {
    t == NEW_ORDER || t == CANCEL_ORDER || t == MODIFY_ORDER || t == HEARTBEAT || t == LOGOUT
  }

  predicate IsKnownResponseType(t: U16) {
    t == ACCEPTED || t == REJECTED || t == CANCELLED || t == MODIFIED || t == TRADE
  }

  function ExpectedPayloadSize(t: U16): U16 {
    if IsKnownRequestType(t) then PAYLOAD_SIZE else 0
  }

  function ValidateHeader(h: MessageHeader): DecodeStatus {
    if !IsKnownRequestType(h.messageType) then UnknownMessageType
    else if h.payloadLength != ExpectedPayloadSize(h.messageType) then BadPayloadLength
    else Ok
  }

  function ValidateResponseHeader(h: MessageHeader): DecodeStatus {
    if !IsKnownResponseType(h.messageType) then UnknownMessageType
    else if h.payloadLength != PAYLOAD_SIZE then BadPayloadLength
    else Ok
  }

  predicate HasPayload(t: U16) {
    t == NEW_ORDER || t == CANCEL_ORDER || t == MODIFY_ORDER || IsKnownResponseType(t)
  }

  datatype Decoding = Got(message: Message) | TooShort

  /** decode_new_order, .., decode_trade: the decoder for messages of type `t`. */
  function Decode(t: U16, bs: seq<Byte>): Decoding
    requires HasPayload(t)
  {
    if |bs| < FRAME_SIZE then TooShort
    else
      var id, a, b, c := LoadU64(bs, 32), LoadU64(bs, 40), LoadU64(bs, 48), LoadU64(bs, 56);
      Got(if t == NEW_ORDER then NewOrder(id, a, b, c)
          else if t == CANCEL_ORDER then CancelOrder(id)
          else if t == MODIFY_ORDER then ModifyOrder(id, a, b)
          else if t == ACCEPTED then Accepted(id, a, b, c)
          else if t == REJECTED then Rejected(id, a, b, c)
          else if t == CANCELLED then Cancelled(id, a, b, c)
          else if t == MODIFIED then Modified(id, a, b, c)
          else Trade(id, a, b, c))
  }

  // ------------------------------ round trips ------------------------------

  /** Reads one field off a buffer that holds it in front of `rest`. */
  lemma Peel(bs: seq<Byte>, offset: nat, v: nat, n: nat, rest: seq<Byte>)
    requires offset <= |bs| && bs[offset..] == LE(v, n) + rest && v < Pow2(8 * n)
    ensures offset + n <= |bs| && Load(bs, offset, n) == v && bs[offset + n..] == rest
  {
    assert bs[offset..offset + n] == bs[offset..][..n];
    assert bs[offset + n..] == bs[offset..][n..];
    LoadOfLE(bs, offset, v, n);
  }

  lemma HeaderRoundTrip(h: MessageHeader, rest: seq<Byte>)
    ensures LoadHeader(HeaderThen(h, rest)) == h
    ensures HeaderThen(h, rest)[HEADER_SIZE..] == rest
  {
    var bs := HeaderThen(h, rest);
    var r7 := LE(h.reserved, 4) + rest;
    var r6 := LE(h.sessionId, 8) + r7;
    var r5 := LE(h.sequenceNumber, 8) + r6;
    var r4 := LE(h.flags, 2) + r5;
    var r3 := LE(h.payloadLength, 2) + r4;
    var r2 := LE(h.messageType, 2) + r3;
    Widths();
    Peel(bs, 0, h.magic, 4, LE(h.version, 2) + r2);
    Peel(bs, 4, h.version, 2, r2);
    Peel(bs, 6, h.messageType, 2, r3);
    Peel(bs, 8, h.payloadLength, 2, r4);
    Peel(bs, 10, h.flags, 2, r5);
    Peel(bs, 12, h.sequenceNumber, 8, r6);
    Peel(bs, 20, h.sessionId, 8, r7);
    Peel(bs, 28, h.reserved, 4, rest);
  }

  lemma WordsRoundTrip(bs: seq<Byte>, a: U64, b: U64, c: U64, d: U64, rest: seq<Byte>)
    requires HEADER_SIZE <= |bs| && bs[HEADER_SIZE..] == WordsThen(a, b, c, d, rest)
    ensures FRAME_SIZE <= |bs|
    ensures LoadU64(bs, 32) == a && LoadU64(bs, 40) == b && LoadU64(bs, 48) == c && LoadU64(bs, 56) == d
  {
    var r3 := LE(d, 8) + rest;
    var r2 := LE(c, 8) + r3;
    Widths();
    Peel(bs, 32, a, 8, LE(b, 8) + r2);
    Peel(bs, 40, b, 8, r2);
    Peel(bs, 48, c, 8, r3);
    Peel(bs, 56, d, 8, rest);
  }

  lemma CancelRoundTrip(bs: seq<Byte>, id: U64, rest: seq<Byte>)
    requires FRAME_SIZE <= |bs| && bs[HEADER_SIZE..] == LE(id, 8) + rest
    ensures LoadU64(bs, 32) == id
  {
    Widths();
    Peel(bs, 32, id, 8, rest);
  }

  lemma ModifyRoundTrip(bs: seq<Byte>, id: U64, price: U64, quantity: U64, rest: seq<Byte>)
    requires FRAME_SIZE <= |bs| && bs[HEADER_SIZE..] == LE(id, 8) + (LE(price, 8) + (LE(quantity, 8) + rest))
    ensures LoadU64(bs, 32) == id && LoadU64(bs, 40) == price && LoadU64(bs, 48) == quantity
  {
    var r2 := LE(quantity, 8) + rest;
    Widths();
    Peel(bs, 32, id, 8, LE(price, 8) + r2);
    Peel(bs, 40, price, 8, r2);
    Peel(bs, 48, quantity, 8, rest);
  }

  lemma PayloadRoundTrip(m: Message, bs: seq<Byte>, rest: seq<Byte>)
    requires FRAME_SIZE <= |bs| && bs[HEADER_SIZE..] == PayloadThen(m, rest)
    ensures Decode(TypeOf(m), bs) == Got(m)
  {
    match m {
      case CancelOrder(id) => CancelRoundTrip(bs, id, rest);
      case ModifyOrder(id, price, quantity) => ModifyRoundTrip(bs, id, price, quantity, rest);
      case NewOrder(id, a, b, c) => WordsRoundTrip(bs, id, a, b, c, rest);
      case Accepted(id, a, b, c) => WordsRoundTrip(bs, id, a, b, c, rest);
      case Rejected(id, a, b, c) => WordsRoundTrip(bs, id, a, b, c, rest);
      case Cancelled(id, a, b, c) => WordsRoundTrip(bs, id, a, b, c, rest);
      case Modified(id, a, b, c) => WordsRoundTrip(bs, id, a, b, c, rest);
      case Trade(id, a, b, c) => WordsRoundTrip(bs, id, a, b, c, rest);
    }
  }

  /**
   * Decoding an encoded frame returns the header, stamped with type and length, and every field of
   * the message, whatever the buffer held before.
   */
  lemma RoundTrip(header: MessageHeader, m: Message, before: seq<Byte>)
    requires FRAME_SIZE <= |before|
    ensures LoadHeader(Encoded(header, m, before)) == Stamped(header, m)
    ensures Decode(TypeOf(m), Encoded(header, m, before)) == Got(m)
  {
    var rest := before[HEADER_SIZE + PayloadWritten(m)..];
    HeaderRoundTrip(Stamped(header, m), PayloadThen(m, rest));
    PayloadRoundTrip(m, Encoded(header, m, before), rest);
  }

  /** What a client finds in a response frame. */
  ghost predicate Readable(header: MessageHeader, m: Message, frame: seq<Byte>) {
    && FRAME_SIZE <= |frame| && HasPayload(TypeOf(m))
    && DecodeHeader(frame, DEFAULT_HEADER) == (Ok, Stamped(header, m))
    && ValidateResponseHeader(Stamped(header, m)) == Ok
    && Decode(TypeOf(m), frame) == Got(m)
  }

  /** An encoded response passes the header checks and decodes to itself. */
  lemma ResponseRoundTrip(header: MessageHeader, m: Message, before: seq<Byte>)
    requires FRAME_SIZE <= |before| && IsKnownResponseType(TypeOf(m))
    requires header.magic == MAGIC && header.version == VERSION
    ensures Readable(header, m, Encoded(header, m, before))
  {
    RoundTrip(header, m, before);
    HeaderAccepted(Encoded(header, m, before), Stamped(header, m));
  }

  lemma HeaderAccepted(bs: seq<Byte>, h: MessageHeader)
    requires HEADER_SIZE <= |bs| && LoadHeader(bs) == h && h.magic == MAGIC && h.version == VERSION
    ensures DecodeHeader(bs, DEFAULT_HEADER) == (Ok, h)
  {
  }

  /** Puts back a field that was loaded. */
  lemma Unpeel(bs: seq<Byte>, offset: nat, n: nat)
    requires offset + n <= |bs|
    ensures LE(Load(bs, offset, n), n) + bs[offset + n..] == bs[offset..]
  {
    LEOfLoad(bs, offset, n);
  }

  /** The header fields tile the 32 bytes: no byte is missed and none is shared. */
  lemma HeaderReproduces(bs: seq<Byte>)
    requires HEADER_SIZE <= |bs|
    ensures HeaderThen(LoadHeader(bs), bs[HEADER_SIZE..]) == bs
  {
    Unpeel(bs, 28, 4);
    Unpeel(bs, 20, 8);
    Unpeel(bs, 12, 8);
    Unpeel(bs, 10, 2);
    Unpeel(bs, 8, 2);
    Unpeel(bs, 6, 2);
    Unpeel(bs, 4, 2);
    Unpeel(bs, 0, 4);
  }

  predicate AllZero(bs: seq<Byte>) {
    forall i :: 0 <= i < |bs| ==> bs[i] == 0
  }

  /** An encoder leaves the bytes behind the last field it writes as they were. */
  lemma UnwrittenBytes(header: MessageHeader, m: Message, before: seq<Byte>)
    requires FRAME_SIZE <= |before|
    ensures var end := HEADER_SIZE + PayloadWritten(m);
      Encoded(header, m, before)[end..] == before[end..]
  {
    var end := HEADER_SIZE + PayloadWritten(m);
    var rest := before[end..];
    HeaderRoundTrip(Stamped(header, m), PayloadThen(m, rest));
    var payload := Encoded(header, m, before)[HEADER_SIZE..];
    assert payload == PayloadThen(m, rest);
    PayloadTail(m, rest);
    assert Encoded(header, m, before)[end..] == payload[PayloadWritten(m)..];
  }

  lemma PayloadTail(m: Message, rest: seq<Byte>)
    ensures PayloadThen(m, rest)[PayloadWritten(m)..] == rest
  {
  }

  /**
   * Exactly when an encoded frame has its reserved payload bytes zero: always for NewOrder and the
   * responses, which have none; for CancelOrder and ModifyOrder if and only if the caller's buffer
   * was zero there.
   */
  lemma ReservedZeroIff(header: MessageHeader, m: Message, before: seq<Byte>)
    requires |before| == FRAME_SIZE
    ensures var end := HEADER_SIZE + PayloadWritten(m);
      AllZero(Encoded(header, m, before)[end..]) <==> AllZero(before[end..])
    ensures PayloadWritten(m) == if m.CancelOrder? then 8 else if m.ModifyOrder? then 24 else 32
  {
    UnwrittenBytes(header, m, before);
  }

  /** A buffer that was not cleared sends its old bytes along with a CancelOrder. */
  lemma ReservedNotZero(header: MessageHeader, id: U64, before: seq<Byte>)
    requires before == seq(FRAME_SIZE, _ => 255)
    ensures Encoded(header, CancelOrder(id), before)[40] == 255
    ensures !AllZero(Encoded(header, CancelOrder(id), before)[40..])
  {
    UnwrittenBytes(header, CancelOrder(id), before);
    assert Encoded(header, CancelOrder(id), before)[40..][0] == before[40..][0];
  }

  /** The messages whose encoders write all 32 payload bytes. */
  predicate FillsPayload(t: U16) {
    t == NEW_ORDER || IsKnownResponseType(t)
  }

  /** The four u64 fields tile the 32 payload bytes. */
  lemma WordsReproduce(bs: seq<Byte>)
    requires |bs| == FRAME_SIZE
    ensures WordsThen(LoadU64(bs, 32), LoadU64(bs, 40), LoadU64(bs, 48), LoadU64(bs, 56), []) == bs[HEADER_SIZE..]
  {
    Unpeel(bs, 56, 8);
    Unpeel(bs, 48, 8);
    Unpeel(bs, 40, 8);
    Unpeel(bs, 32, 8);
    assert bs[64..] == [];
  }

  lemma PayloadReproduces(t: U16, bs: seq<Byte>)
    requires |bs| == FRAME_SIZE && FillsPayload(t)
    ensures var m := Decode(t, bs).message;
      TypeOf(m) == t && PayloadWritten(m) == 32 && PayloadThen(m, []) == bs[HEADER_SIZE..]
  {
    WordsReproduce(bs);
  }

  /** Encoding what was decoded reproduces all 64 bytes of a frame with the right type and length. */
  lemma Reproduces(bs: seq<Byte>, before: seq<Byte>)
    requires |bs| == FRAME_SIZE == |before|
    requires FillsPayload(LoadHeader(bs).messageType) && LoadHeader(bs).payloadLength == PAYLOAD_SIZE
    ensures Encoded(LoadHeader(bs), Decode(LoadHeader(bs).messageType, bs).message, before) == bs
  {
    var h := LoadHeader(bs);
    var m := Decode(h.messageType, bs).message;
    HeaderReproduces(bs);
    PayloadReproduces(h.messageType, bs);
    assert Stamped(h, m) == h;
    assert before[64..] == [];
  }
}
