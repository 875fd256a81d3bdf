/** The peer wire protocol as bytes (BEP 3, sections "peer protocol" and
    "peer messages"; src/peer_protocol.rs, lines 11-61, 63-113, 155-199, 321-350). */
module Codec {
  import opened IoPrimitives

  const TYPE_CHOKED: byte := 0
  const TYPE_UNCHOKED: byte := 1
  const TYPE_INTERESTED: byte := 2
  const TYPE_NOT_INTERESTED: byte := 3
  const TYPE_HAVE: byte := 4
  const TYPE_BITFIELD: byte := 5
  const TYPE_REQUEST: byte := 6
  const TYPE_PIECE: byte := 7

  /** The messages this client sends. */
  datatype Message =
    | Unchoke
    | Interested
    | Have(pieceId: nat)
    | Bitfield(bytes: seq<byte>)
    | Request(piece: nat, begin: nat, length: nat)
    | Piece(index: nat, offset: nat, data: seq<byte>)

  /** What a received payload means to `process_message`. */
  datatype Incoming = Choke | NotInterested | Unknown | Known(message: Message)

  /** Every integer field is a u32. */
  predicate FieldsFit(m: Message) {
    match m
    case Have(i) => i < U32_RANGE
    case Request(i, b, n) => i < U32_RANGE && b < U32_RANGE && n < U32_RANGE
    case Piece(i, b, _) => i < U32_RANGE && b < U32_RANGE
    case _ => true
  }

  function Payload(m: Message): (r: seq<byte>)
    requires FieldsFit(m)
    ensures r != []
  {
    match m
    case Unchoke => [TYPE_UNCHOKED]
    case Interested => [TYPE_INTERESTED]
    case Have(i) => [TYPE_HAVE] + U32Digits(i)
    case Bitfield(bytes) => [TYPE_BITFIELD] + bytes
    case Request(i, b, n) => [TYPE_REQUEST] + U32Digits(i) + U32Digits(b) + U32Digits(n)
    case Piece(i, b, data) => [TYPE_PIECE] + U32Digits(i) + U32Digits(b) + data
  }

  /** A length-prefixed payload; the empty one is a keepalive. */
  function Frame(payload: seq<byte>): seq<byte> {
    U32Digits(AsU32(|payload|)) + payload
  }

  method Serialize(m: Message) returns (r: seq<byte>)
    requires FieldsFit(m)
    ensures r == Frame(Payload(m))
  {
    hide U32Digits;
    var payload;
    match m {
      case Unchoke => payload := [TYPE_UNCHOKED];
      case Interested => payload := [TYPE_INTERESTED];
      case Have(pieceId) =>
        payload := [TYPE_HAVE];
        var p := U32ToBytes(pieceId);
        payload := payload + p;
      case Bitfield(bytes) =>
        payload := [TYPE_BITFIELD];
        payload := payload + bytes;
      case Request(pieceId, offset, length) =>
        payload := [TYPE_REQUEST];
        var p := U32ToBytes(pieceId);
        var o := U32ToBytes(offset);
        var l := U32ToBytes(length);
        payload := payload + p;
        payload := payload + o;
        payload := payload + l;
      case Piece(pieceId, offset, data) =>
        payload := [TYPE_PIECE];
        var p := U32ToBytes(pieceId);
        var o := U32ToBytes(offset);
        payload := payload + p;
        payload := payload + o;
        payload := payload + data;
    }
    var size := U32ToBytes(AsU32(|payload|));
    r := size + payload;
  }

  /** Long enough for every index the handlers read; anything shorter makes them panic. */
  predicate Readable(payload: seq<byte>) {
    payload != [] &&
    (payload[0] == TYPE_HAVE ==> 5 <= |payload|) &&
    (payload[0] == TYPE_REQUEST ==> 13 <= |payload|) &&
    (payload[0] == TYPE_PIECE ==> 9 <= |payload|)
  }

  function Decode(payload: seq<byte>): Incoming
    requires Readable(payload)
  {
    var kind := payload[0];
    if kind == TYPE_CHOKED then Choke
    else if kind == TYPE_UNCHOKED then Known(Unchoke)
    else if kind == TYPE_INTERESTED then Known(Interested)
    else if kind == TYPE_NOT_INTERESTED then NotInterested
    else if kind == TYPE_HAVE then Known(Have(BytesToU32(payload[1..5])))
    else if kind == TYPE_BITFIELD then Known(Bitfield(payload[1..]))
    else if kind == TYPE_REQUEST then
      Known(Request(BytesToU32(payload[1..5]), BytesToU32(payload[5..9]), BytesToU32(payload[9..13])))
    else if kind == TYPE_PIECE then Known(Piece(BytesToU32(payload[1..5]), BytesToU32(payload[5..9]), payload[9..]))
    else Unknown
  }

  /** Serializing, dropping the prefix and decoding recovers the message. */
  lemma DecodePayload(m: Message)
    requires FieldsFit(m)
    ensures Readable(Payload(m)) && Decode(Payload(m)) == Known(m)
  {
    var p := Payload(m);
    match m {
      case Have(i) => assert p[1..5] == U32Digits(i);
      case Bitfield(bytes) => assert p[1..] == bytes;
      case Request(i, b, n) =>
        assert p[1..5] == U32Digits(i) && p[5..9] == U32Digits(b) && p[9..13] == U32Digits(n);
      case Piece(i, b, data) =>
        assert p[1..5] == U32Digits(i) && p[5..9] == U32Digits(b) && p[9..] == data;
      case _ =>
    }
  }

  /** Every message on the wire, byte by byte: a big-endian length, the type and the fields. */
  lemma WireFormat(m: Message)
    requires FieldsFit(m) && |Payload(m)| < U32_RANGE
    ensures var s := Frame(Payload(m));
            5 <= |s| && BytesToU32(s[..4]) == |s| - 4 &&
            match m
            case Unchoke => s[4..] == [1]
            case Interested => s[4..] == [2]
            case Have(i) => |s| == 9 && s[4] == 4 && BytesToU32(s[5..9]) == i
            case Bitfield(bytes) => s[4] == 5 && s[5..] == bytes
            case Request(i, b, n) =>
              |s| == 17 && s[4] == 6 && BytesToU32(s[5..9]) == i && BytesToU32(s[9..13]) == b &&
              BytesToU32(s[13..17]) == n
            case Piece(i, b, data) =>
              13 <= |s| && s[4] == 7 && BytesToU32(s[5..9]) == i && BytesToU32(s[9..13]) == b && s[13..] == data
  {
    var p := Payload(m);
    var s := Frame(p);
    assert s[..4] == U32Digits(|p|) && s[4..] == p;
    FieldBytes(m);
    hide Payload, Frame, U32Digits, BytesToU32;
    forall a: nat, b: nat | a <= b <= |p| ensures s[a + 4..b + 4] == p[a..b] {
      assert s[4..][a..b] == s[a + 4..b + 4];
    }
    assert forall a: nat :: a <= |p| ==> s[a + 4..] == s[4..][a..];
  }

  /** Where the fields of a payload are. */
  lemma FieldBytes(m: Message)
    requires FieldsFit(m)
    ensures var p := Payload(m);
            match m
            case Unchoke => p == [1]
            case Interested => p == [2]
            case Have(i) => |p| == 5 && p[0] == 4 && BytesToU32(p[1..5]) == i
            case Bitfield(bytes) => p[0] == 5 && p[1..] == bytes
            case Request(i, b, n) =>
              |p| == 13 && p[0] == 6 && BytesToU32(p[1..5]) == i && BytesToU32(p[5..9]) == b &&
              BytesToU32(p[9..13]) == n
            case Piece(i, b, data) =>
              9 <= |p| && p[0] == 7 && BytesToU32(p[1..5]) == i && BytesToU32(p[5..9]) == b && p[9..] == data
  {
    var p := Payload(m);
    match m {
      case Have(i) => assert p[1..5] == U32Digits(i);
      case Bitfield(bytes) => assert p[1..] == bytes;
      case Request(i, b, n) => ThreeFields(p, [TYPE_REQUEST], U32Digits(i), U32Digits(b), U32Digits(n));
      case Piece(i, b, data) => ThreeFields(p, [TYPE_PIECE], U32Digits(i), U32Digits(b), data);
      case _ =>
    }
  }

  lemma ThreeFields(p: seq<byte>, kind: seq<byte>, x: seq<byte>, y: seq<byte>, z: seq<byte>)
    requires p == kind + x + y + z && |kind| == 1 && |x| == |y| == 4
    ensures p[0] == kind[0] && p[1..5] == x && p[5..9] == y && p[9..] == z && |p| == 9 + |z|
    ensures |z| == 4 ==> p[9..13] == z
  {
  }

  lemma SmallDigits(x: byte)
    ensures U32Digits(x as nat) == [0, 0, 0, x]
  {
    DigitWeights(x as nat);
    var r := U32Digits(x as nat);
    hide U32Digits;
    assert r == [r[0], r[1], r[2], r[3]];
  }

  /** For example. */
  lemma HaveOne()
    ensures Frame(Payload(Have(1))) == [0, 0, 0, 5, 4, 0, 0, 0, 1]
  {
    SmallDigits(5);
    SmallDigits(1);
    assert Payload(Have(1)) == [4, 0, 0, 0, 1];
  }

  /** The type byte decides what a payload means; all eight of them, and every other. */
  lemma TypeBytes(payload: seq<byte>)
    requires Readable(payload)
    ensures var d := Decode(payload);
            (payload[0] == 0 <==> d.Choke?) &&
            (payload[0] == 1 <==> d == Known(Unchoke)) &&
            (payload[0] == 2 <==> d == Known(Interested)) &&
            (payload[0] == 3 <==> d.NotInterested?) &&
            (payload[0] == 4 <==> d.Known? && d.message.Have?) &&
            (payload[0] == 5 <==> d.Known? && d.message.Bitfield?) &&
            (payload[0] == 6 <==> d.Known? && d.message.Request?) &&
            (payload[0] == 7 <==> d.Known? && d.message.Piece?) &&
            (8 <= payload[0] as int <==> d.Unknown?)
  {
    hide BytesToU32;
  }

  /** No trailing bytes that the handlers would ignore. */
  predicate Exact(payload: seq<byte>) {
    Readable(payload) &&
    (payload[0] in {TYPE_UNCHOKED, TYPE_INTERESTED} ==> |payload| == 1) &&
    (payload[0] == TYPE_HAVE ==> |payload| == 5) &&
    (payload[0] == TYPE_REQUEST ==> |payload| == 13)
  }

  /** Conversely, a decoded message serializes back to the very bytes received,
      exactly when the payload carries no ignored trailing bytes. */
  lemma PayloadDecode(payload: seq<byte>)
    requires Readable(payload) && Decode(payload).Known?
    ensures FieldsFit(Decode(payload).message)
    ensures Payload(Decode(payload).message) == payload <==> Exact(payload)
  {
    if payload[0] == TYPE_HAVE {
      BytesRoundTrip(payload[1..5]);
      assert |payload| == 5 ==> payload == [payload[0]] + payload[1..5];
    } else if payload[0] == TYPE_REQUEST {
      BytesRoundTrip(payload[1..5]);
      BytesRoundTrip(payload[5..9]);
      BytesRoundTrip(payload[9..13]);
      assert |payload| == 13 ==> payload == [payload[0]] + payload[1..5] + payload[5..9] + payload[9..13];
    } else if payload[0] == TYPE_PIECE {
      BytesRoundTrip(payload[1..5]);
      BytesRoundTrip(payload[5..9]);
    }
  }

  // ---------- bitfields ----------

  /** The flag of piece `i` in a bitfield: bit 7 of byte 0 is piece 0. */
  predicate HasBit(bytes: seq<byte>, i: nat)
    requires i / 8 < |bytes|
  {
    TestBit(bytes[i / 8] as nat, 7 - i % 8)
  }

  function CeilDiv(a: nat, b: nat): nat
    requires 0 < b
  {
    (a + b - 1) / b
  }

  function Raise(b: byte, shift: nat): (r: byte)
    requires shift < 8
    ensures r as nat == SetBit(b as nat, shift)
  {
    assert Pow2(8) == 256 by { assert Pow2(4) == 16; }
    SetBitFits(b as nat, shift, 8);
    SetBit(b as nat, shift) as byte
  }

  /** Every bit of the payload is fixed: those of real pieces by the flags, the spare
      ones at the end to zero. */
  predicate Packs(payload: seq<byte>, flags: seq<bool>) {
    |payload| == CeilDiv(|flags|, 8) &&
    (forall i :: 0 <= i < |flags| ==> HasBit(payload, i) == flags[i]) &&
    (forall i :: |flags| <= i < 8 * |payload| ==> !HasBit(payload, i))
  }

  /** Raising one bit of a payload adds that bit. */
  lemma RaisedBit(payload: seq<byte>, k: nat, i: nat)
    requires k / 8 < |payload| && i / 8 < |payload|
    ensures HasBit(payload[k / 8 := Raise(payload[k / 8], 7 - k % 8)], i) == (i == k || HasBit(payload, i))
  {
    if i / 8 == k / 8 {
      TestAfterSet(payload[k / 8] as nat, 7 - k % 8, 7 - i % 8);
    }
  }

  /** Any flags can be packed. */
  lemma {:induction false} PackedTo(flags: seq<bool>, n: nat) returns (payload: seq<byte>)
    requires n <= |flags|
    ensures |payload| == CeilDiv(|flags|, 8)
    ensures forall i :: 0 <= i < 8 * |payload| ==> HasBit(payload, i) == (i < n && flags[i])
  {
    if n == 0 {
      payload := seq(CeilDiv(|flags|, 8), _ => 0);
      forall i: nat | i < 8 * |payload| ensures !HasBit(payload, i) {
        ZeroHasNoBits(7 - i % 8);
      }
    } else {
      var before := PackedTo(flags, n - 1);
      payload := before;
      if flags[n - 1] {
        payload := before[(n - 1) / 8 := Raise(before[(n - 1) / 8], 7 - (n - 1) % 8)];
        forall i: nat | i < 8 * |payload| ensures HasBit(payload, i) == (i < n && flags[i]) {
          RaisedBit(before, n - 1, i);
        }
      }
    }
  }

  /** What a flag adds to the value of its byte. */
  function FlagValue(flags: seq<bool>, i: nat): nat { if i < |flags| && flags[i] then 1 else 0 }

  /** The first piece of a byte weighs most. */
  lemma BitfieldByte(payload: seq<byte>, flags: seq<bool>, k: nat)
    requires Packs(payload, flags) && k < |payload|
    ensures payload[k] as int ==
            128 * FlagValue(flags, 8 * k) + 64 * FlagValue(flags, 8 * k + 1) + 32 * FlagValue(flags, 8 * k + 2) +
            16 * FlagValue(flags, 8 * k + 3) + 8 * FlagValue(flags, 8 * k + 4) + 4 * FlagValue(flags, 8 * k + 5) +
            2 * FlagValue(flags, 8 * k + 6) + FlagValue(flags, 8 * k + 7)
  {
    ByteOfDigits(payload[k] as nat);
    FlagDigit(payload, flags, k, 0);
    FlagDigit(payload, flags, k, 1);
    FlagDigit(payload, flags, k, 2);
    FlagDigit(payload, flags, k, 3);
    FlagDigit(payload, flags, k, 4);
    FlagDigit(payload, flags, k, 5);
    FlagDigit(payload, flags, k, 6);
    FlagDigit(payload, flags, k, 7);
    hide FlagValue, Digit, Packs;
  }

  lemma FlagDigit(payload: seq<byte>, flags: seq<bool>, k: nat, j: nat)
    requires Packs(payload, flags) && k < |payload| && j < 8
    ensures FlagValue(flags, 8 * k + j) == Digit(payload[k] as nat, 7 - j)
  {
    var i := 8 * k + j;
    assert i / 8 == k && i % 8 == j;
    assert HasBit(payload, i) == (i < |flags| && flags[i]);
    hide TestBit;
  }

  /** The payload `send_bitfield` builds. */
  method PackBitfield(flags: seq<bool>) returns (payload: seq<byte>)
    ensures Packs(payload, flags)
  {
    payload := seq(CeilDiv(|flags|, 8), _ => 0);
    forall i: nat | i < 8 * |payload| ensures !HasBit(payload, i) {
      ZeroHasNoBits(7 - i % 8);
    }
    for haveIndex := 0 to |flags|
      invariant |payload| == CeilDiv(|flags|, 8)
      invariant forall i :: 0 <= i < haveIndex ==> HasBit(payload, i) == flags[i]
      invariant forall i :: haveIndex <= i < 8 * |payload| ==> !HasBit(payload, i)
    {
      var bytesIndex, indexIntoByte := haveIndex / 8, haveIndex % 8;
      if flags[haveIndex] {
        ghost var before := payload;
        payload := payload[bytesIndex := Raise(payload[bytesIndex], 7 - indexIntoByte)];
        forall i: nat | i < 8 * |payload|
          ensures HasBit(payload, i) == (i == haveIndex || HasBit(before, i))
        {
          if i / 8 == bytesIndex {
            TestAfterSet(before[bytesIndex] as nat, 7 - indexIntoByte, 7 - i % 8);
          }
        }
      }
    }
  }

  /** The flags `on_bitfield` reads out of a bitfield. */
  method UnpackBitfield(bytes: seq<byte>, numPieces: nat) returns (hasPiece: seq<bool>)
    requires CeilDiv(numPieces, 8) <= |bytes|
    ensures hasPiece == BitfieldFlags(bytes, numPieces)
  {
    hasPiece := seq(numPieces, _ => false);
    for haveIndex := 0 to numPieces
      invariant |hasPiece| == numPieces
      invariant forall i :: 0 <= i < haveIndex ==> hasPiece[i] == HasBit(bytes, i)
    {
      var byteAt := bytes[haveIndex / 8];
      var value := TestBit(byteAt as nat, 7 - haveIndex % 8);
      hasPiece := hasPiece[haveIndex := value];
    }
  }

  function BitfieldFlags(bytes: seq<byte>, numPieces: nat): seq<bool>
    requires CeilDiv(numPieces, 8) <= |bytes|
  {
    seq(numPieces, i requires 0 <= i < numPieces => HasBit(bytes, i))
  }

  /** What one side sends about its pieces is what the other side learns. */
  lemma BitfieldRoundTrip(flags: seq<bool>, payload: seq<byte>)
    requires Packs(payload, flags)
    ensures var m := Bitfield(payload);
            Decode(Payload(m)) == Known(m) && BitfieldFlags(m.bytes, |flags|) == flags
  {
    DecodePayload(Bitfield(payload));
  }
}
