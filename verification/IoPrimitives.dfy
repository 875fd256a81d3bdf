/** Bytes, big-endian 32-bit integers and single bits (src/io_primitives.rs and
    the masks of src/peer_protocol.rs). */
module IoPrimitives {
  newtype byte = x: int | 0 <= x < 256

  const U32_RANGE: nat := 0x1_0000_0000

  /** A Rust `as u32` cast of an unsigned value. */
  function AsU32(x: nat): nat { x % U32_RANGE }

  // ---------- 32-bit integers ----------

  function BytesToU32(bytes: seq<byte>): (r: nat)
    requires 4 <= |bytes|
    ensures r < U32_RANGE
  {
    bytes[0] as int * 0x100_0000 + bytes[1] as int * 0x1_0000 + bytes[2] as int * 0x100 + bytes[3] as int
  }

  /** The four big-endian base-256 digits of a u32: the inverse of BytesToU32. */
  function U32Digits(x: nat): (r: seq<byte>)
    requires x < U32_RANGE
    ensures |r| == 4 && BytesToU32(r) == x
  {
    var high, low := x / 0x1_0000, x % 0x1_0000;
    [(high / 0x100) as byte, (high % 0x100) as byte, (low / 0x100) as byte, (low % 0x100) as byte]
  }

  lemma BytesToU32Injective(s: seq<byte>, t: seq<byte>)
    requires |s| == |t| == 4 && BytesToU32(s) == BytesToU32(t)
    ensures s == t
  {
    SameDigit(s[3], t[3], s[0] as int * 0x1_0000 + s[1] as int * 0x100 + s[2] as int,
              t[0] as int * 0x1_0000 + t[1] as int * 0x100 + t[2] as int);
    SameDigit(s[2], t[2], s[0] as int * 0x100 + s[1] as int, t[0] as int * 0x100 + t[1] as int);
    SameDigit(s[1], t[1], s[0] as int, t[0] as int);
    assert s == [s[0], s[1], s[2], s[3]] && t == [t[0], t[1], t[2], t[3]];
  }

  lemma SameDigit(x: byte, y: byte, high: int, high': int)
    requires high * 0x100 + x as int == high' * 0x100 + y as int
    ensures x == y && high == high'
  {
  }

  lemma BytesRoundTrip(bytes: seq<byte>)
    requires |bytes| == 4
    ensures U32Digits(BytesToU32(bytes)) == bytes
  {
    BytesToU32Injective(U32Digits(BytesToU32(bytes)), bytes);
  }

  /** The first byte weighs most: of two numbers the one with the smaller first differing byte is
      the smaller. Together with the range and injectivity this fixes the number. */
  lemma BytesOrdered(s: seq<byte>, t: seq<byte>, k: nat)
    requires |s| == |t| == 4 && k < 4 && s[..k] == t[..k] && s[k] < t[k]
    ensures BytesToU32(s) < BytesToU32(t)
  {
    forall j | 0 <= j < k ensures s[j] == t[j] {
      assert s[..k][j] == t[..k][j];
    }
  }

  /** Each digit by its weight. */
  lemma DigitWeights(x: nat)
    requires x < U32_RANGE
    ensures var r := U32Digits(x);
            r[0] as int == x / 0x100_0000 && r[1] as int == x / 0x1_0000 % 0x100 &&
            r[2] as int == x / 0x100 % 0x100 && r[3] as int == x % 0x100
  {
    var r := U32Digits(x);
    var a, b, c, d := r[0] as int, r[1] as int, r[2] as int, r[3] as int;
    assert x == a * 0x100_0000 + b * 0x1_0000 + c * 0x100 + d;
    hide U32Digits, BytesToU32;
  }

  method U32ToBytes(integer: nat) returns (r: seq<byte>)
    requires integer < U32_RANGE
    ensures r == U32Digits(integer)
    ensures |r| == 4
    ensures r[0] as int == integer / 0x100_0000 && r[1] as int == integer / 0x1_0000 % 0x100
    ensures r[2] as int == integer / 0x100 % 0x100 && r[3] as int == integer % 0x100
  {
    var rest := integer;
    var first := rest / 0x100_0000;
    rest := rest - first * 0x100_0000;
    var second := rest / 0x1_0000;
    rest := rest - second * 0x1_0000;
    var third := rest / 0x100;
    rest := rest - third * 0x100;
    var fourth := rest;
    r := [first as byte, second as byte, third as byte, fourth as byte];
    BytesToU32Injective(r, U32Digits(integer));
    DigitWeights(integer);
    hide U32Digits, BytesToU32;
  }

  // ---------- single bits ----------

  function Pow2(n: nat): (r: nat)
    ensures 0 < r
  {
    if n == 0 then 1 else 2 * Pow2(n - 1)
  }

  /** `x & (1 << shift) != 0`, as the binary digit of weight 2^shift. */
  predicate TestBit(x: nat, shift: nat) {
    if shift == 0 then x % 2 == 1 else TestBit(x / 2, shift - 1)
  }

  /** `x | (1 << shift)`, as setting the binary digit of weight 2^shift. */
  function SetBit(x: nat, shift: nat): nat {
    if shift == 0 then x / 2 * 2 + 1 else 2 * SetBit(x / 2, shift - 1) + x % 2
  }

  lemma {:induction false} SetBitFits(x: nat, shift: nat, width: nat)
    requires shift < width && x < Pow2(width)
    ensures SetBit(x, shift) < Pow2(width)
  {
    assert Pow2(width) == 2 * Pow2(width - 1);
    if shift != 0 {
      SetBitFits(x / 2, shift - 1, width - 1);
    }
  }

  lemma {:induction false} TestAfterSet(x: nat, shift: nat, probe: nat)
    ensures TestBit(SetBit(x, shift), probe) <==> probe == shift || TestBit(x, probe)
  {
    if shift != 0 && probe != 0 {
      TestAfterSet(x / 2, shift - 1, probe - 1);
    }
  }

  lemma {:induction false} ZeroHasNoBits(probe: nat)
    ensures !TestBit(0, probe)
  {
    if probe != 0 {
      ZeroHasNoBits(probe - 1);
    }
  }

  /** The binary digit of weight 2^shift. */
  function Digit(x: nat, shift: nat): nat { if TestBit(x, shift) then 1 else 0 }

  /** A byte is the sum of its binary digits by weight. */
  lemma ByteOfDigits(x: nat)
    requires x < 256
    ensures x == 128 * Digit(x, 7) + 64 * Digit(x, 6) + 32 * Digit(x, 5) + 16 * Digit(x, 4) +
                 8 * Digit(x, 3) + 4 * Digit(x, 2) + 2 * Digit(x, 1) + Digit(x, 0)
  {
    hide Digit;
    NibbleOfDigits(x);
    NibbleOfDigits(x / 16);
    HighDigits(x, 0);
    HighDigits(x, 1);
    HighDigits(x, 2);
    HighDigits(x, 3);
    assert x == 16 * (x / 16) + x % 16 && x / 16 % 16 == x / 16;
  }

  lemma DigitStep(x: nat, shift: nat)
    ensures Digit(x, 0) == x % 2 && Digit(x, shift + 1) == Digit(x / 2, shift)
  {
  }

  lemma HighDigits(x: nat, shift: nat)
    ensures Digit(x, shift + 4) == Digit(x / 16, shift)
  {
    DigitStep(x, shift + 3);
    DigitStep(x / 2, shift + 2);
    DigitStep(x / 2 / 2, shift + 1);
    DigitStep(x / 2 / 2 / 2, shift);
    hide Digit;
    assert x / 2 / 2 / 2 / 2 == x / 16;
  }

  lemma NibbleOfDigits(x: nat)
    ensures x % 16 == 8 * Digit(x, 3) + 4 * Digit(x, 2) + 2 * Digit(x, 1) + Digit(x, 0)
  {
    DigitStep(x, 0);
    DigitStep(x, 1);
    DigitStep(x, 2);
    DigitStep(x / 2, 0);
    DigitStep(x / 2, 1);
    DigitStep(x / 2 / 2, 0);
    DigitStep(x / 2 / 2 / 2, 0);
    hide Digit;
  }

  // ---------- non-blocking reads ----------

  /** The receiving side of a socket: bytes that arrived and were not read yet, and
      whether the other side has closed the connection. */
  datatype Stream = Stream(inbox: seq<byte>, closed: bool)

  /** What a non-blocking socket does with a write: it takes up to `room` bytes and reports
      would-block for the rest, or fails. */
  datatype Write = Accepts(room: nat) | Fails

  /** The bytes that get out. */
  function Accepted(bytes: seq<byte>, w: Write): seq<byte> {
    match w
    case Accepts(room) => if room < |bytes| then bytes[..room] else bytes
    case Fails => []
  }

  /** They are the first bytes, as many as there is room for. */
  lemma AcceptedIsPrefix(bytes: seq<byte>, room: nat)
    ensures Accepted(bytes, Accepts(room)) <= bytes
    ensures |Accepted(bytes, Accepts(room))| == if |bytes| <= room then |bytes| else room
    ensures Accepted(bytes, Fails) == []
  {
  }

  datatype IoResult = Ok | WouldBlock | Failed

  /** `stream.take(n).read_to_end(buf)`: takes what is there, up to `n` bytes. It reports
      would-block, with those bytes already in `buf`, if more could still arrive. */
  method TakeToEnd(stream: Stream, buf: seq<byte>, n: nat)
    returns (stream': Stream, buf': seq<byte>, count: nat, blocked: bool)
    ensures count == if n <= |stream.inbox| then n else |stream.inbox|
    ensures buf' == buf + stream.inbox[..count] && stream' == Stream(stream.inbox[count..], stream.closed)
    ensures blocked == (count < n && !stream.closed)
  {
    count := if n <= |stream.inbox| then n else |stream.inbox|;
    buf' := buf + stream.inbox[..count];
    stream' := Stream(stream.inbox[count..], stream.closed);
    blocked := count < n && !stream.closed;
  }

  /** `read_n_to_buf`: all `n` bytes, or an error that leaves what there was in `buf`. In
      blocking mode `inbox` is what arrives before the read times out. */
  method ReadNToBuf(stream: Stream, buf: seq<byte>, n: nat)
    returns (stream': Stream, buf': seq<byte>, result: IoResult)
    ensures n <= |stream.inbox| ==> result == Ok && buf' == buf + stream.inbox[..n] &&
                                    stream' == Stream(stream.inbox[n..], stream.closed)
    ensures |stream.inbox| < n ==> stream' == Stream([], stream.closed) && buf' == buf + stream.inbox &&
                                   result == if stream.closed then Failed else WouldBlock
    decreases n
  {
    if n == 0 {
      return stream, buf, Ok;
    }
    var count, blocked;
    stream', buf', count, blocked := TakeToEnd(stream, buf, n);
    if blocked {
      result := WouldBlock;
    } else if count == 0 {
      result := Failed;
    } else if count == n {
      result := Ok;
    } else {
      stream', buf', result := ReadNToBuf(stream', buf', n - count);
    }
  }

  method ReadUptoNNonblocking(stream: Stream, buf: seq<byte>, n: nat)
    returns (stream': Stream, buf': seq<byte>, result: IoResult)
    ensures n <= |stream.inbox| ==> result == Ok && buf' == buf + stream.inbox[..n] &&
                                    stream' == Stream(stream.inbox[n..], stream.closed)
    ensures |stream.inbox| < n ==> stream' == Stream([], stream.closed) && buf' == buf + stream.inbox &&
                                   result == if !stream.closed then WouldBlock
                                             else if stream.inbox == [] then Failed else Ok
  {
    if n == 0 {
      return stream, buf, Ok;
    }
    var count, blocked;
    stream', buf', count, blocked := TakeToEnd(stream, buf, n);
    result := if blocked then WouldBlock else if count == 0 then Failed else Ok;
  }
}
