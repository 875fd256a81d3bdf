/** Cutting an incoming byte stream back into messages (src/peer_protocol.rs, lines 242-319;
    src/io_primitives.rs, lines 11-19 and 40-94; BEP 3, section "peer protocol"). */
module Framing {
  import opened IoPrimitives
  import opened Codec

  /** What the receiver knows of one connection: bytes that arrived and were not read,
      whether the other side closed it, and the partly received message, if any. */
  datatype Wire = Wire(inbox: seq<byte>, closed: bool, buf: seq<byte>, next: nat)

  /** `Keepalive` and `Nothing` are both `Ok(None)` in the source. */
  datatype Received = Complete(payload: seq<byte>) | Keepalive | Nothing | Broken

  /** Holds between calls, so that the subtraction in ReceiveBody never underflows. */
  predicate Ready(w: Wire) {
    if w.next == 0 then w.buf == [] else |w.buf| < w.next < U32_RANGE
  }

  /** One call of `receive_message`. */
  function Receive(w: Wire): (Wire, Received)
    requires Ready(w)
  {
    if w.next != 0 then ReceiveBody(w)
    else if 4 <= |w.inbox| then
      var size := BytesToU32(w.inbox[..4]);
      var w' := w.(inbox := w.inbox[4..]);
      if size == 0 then (w', Keepalive) else ReceiveBody(w'.(next := size))
    else
      // fewer than four bytes: they are read into a buffer that is then thrown away
      (w.(inbox := []), if w.closed then Broken else Nothing)
  }

  function ReceiveBody(w: Wire): (Wire, Received)
    requires |w.buf| < w.next
  {
    var remaining := w.next - |w.buf|;
    if remaining <= |w.inbox| then
      (Wire(w.inbox[remaining..], w.closed, [], 0), Complete(w.buf + w.inbox[..remaining]))
    else
      (w.(inbox := [], buf := w.buf + w.inbox), if w.closed && w.inbox == [] then Broken else Nothing)
  }

  lemma ReadyKept(w: Wire)
    requires Ready(w)
    ensures Ready(Receive(w).0)
    ensures Receive(w).1.Complete? ==> 0 < |Receive(w).1.payload| < U32_RANGE
  {
  }

  // ---------- the stream a receiver still owes ----------

  /** Everything on its way to the caller, as the sender wrote it. */
  function Pending(w: Wire, future: seq<byte>): seq<byte>
    requires Ready(w)
  {
    (if w.next == 0 then [] else U32Digits(w.next) + w.buf) + w.inbox + future
  }

  /** The bytes of a list of payloads; an empty payload is a keepalive. */
  function Encode(frames: seq<seq<byte>>): seq<byte> {
    if frames == [] then [] else Frame(frames[0]) + Encode(frames[1..])
  }

  /** The frames one call consumed. */
  function FramesOf(r: Received): seq<seq<byte>> {
    match r
    case Complete(payload) => [payload]
    case Keepalive => [[]]
    case _ => []
  }

  /** A prefix is read only when none or all of its four bytes have arrived. */
  predicate PrefixWhole(w: Wire) {
    w.next == 0 ==> w.inbox == [] || 4 <= |w.inbox|
  }

  lemma SplitBody(size: seq<byte>, buf: seq<byte>, inbox: seq<byte>, taken: nat, future: seq<byte>)
    requires taken <= |inbox|
    ensures (size + (buf + inbox[..taken])) + ([] + inbox[taken..] + future) == size + buf + inbox + future
    ensures taken == |inbox| ==> [] + (size + (buf + inbox) + [] + future) == size + buf + inbox + future
  {
    assert inbox == inbox[..taken] + inbox[taken..];
  }

  lemma BodyKept(w: Wire, future: seq<byte>)
    requires Ready(w) && w.next != 0
    ensures Ready(ReceiveBody(w).0)
    ensures Encode(FramesOf(ReceiveBody(w).1)) + Pending(ReceiveBody(w).0, future) == Pending(w, future)
  {
    var taken := w.next - |w.buf|;
    if taken <= |w.inbox| {
      EncodeOne([w.buf + w.inbox[..taken]]);
      hide Encode, U32Digits;
      SplitBody(U32Digits(w.next), w.buf, w.inbox, taken, future);
    } else {
      EncodeOne([]);
      hide Encode, U32Digits;
      SplitBody(U32Digits(w.next), w.buf, w.inbox, |w.inbox|, future);
    }
  }

  /** Reading a whole prefix only turns it into the number it stands for. */
  lemma PrefixKept(w: Wire, future: seq<byte>)
    requires Ready(w) && w.next == 0 && 4 <= |w.inbox|
    ensures var size := BytesToU32(w.inbox[..4]);
            Pending(w, future) == U32Digits(size) + w.inbox[4..] + future
  {
    BytesRoundTrip(w.inbox[..4]);
    assert w.inbox == w.inbox[..4] + w.inbox[4..];
  }

  lemma HeaderKept(w: Wire, future: seq<byte>)
    requires Ready(w) && w.next == 0 && 4 <= |w.inbox|
    ensures Ready(Receive(w).0)
    ensures Encode(FramesOf(Receive(w).1)) + Pending(Receive(w).0, future) == Pending(w, future)
  {
    PrefixKept(w, future);
    EncodeOne([[]]);
    var w' := w.(inbox := w.inbox[4..], next := BytesToU32(w.inbox[..4]));
    hide Encode, U32Digits, BytesToU32;
    if w'.next != 0 {
      BodyKept(w', future);
      hide ReceiveBody, FramesOf;
    }
  }

  lemma HeaderLost(w: Wire, future: seq<byte>)
    requires Ready(w) && w.next == 0 && |w.inbox| < 4
    ensures Ready(Receive(w).0) && FramesOf(Receive(w).1) == []
    ensures |Pending(w, future)| == |w.inbox| + |future|
    ensures Pending(Receive(w).0, future) == future
    ensures w.inbox == [] ==> Pending(w, future) == future
  {
  }

  /** Open or closed, a call moves bytes from the stream to its result without
      losing any exactly when it does not meet a partly arrived length prefix. */
  lemma NothingLostIff(w: Wire, future: seq<byte>)
    requires Ready(w)
    ensures Ready(Receive(w).0)
    ensures Encode(FramesOf(Receive(w).1)) + Pending(Receive(w).0, future) == Pending(w, future) <==> PrefixWhole(w)
  {
    if w.next != 0 {
      BodyKept(w, future);
      hide Encode, Pending, FramesOf, U32Digits, ReceiveBody;
    } else if 4 <= |w.inbox| {
      HeaderKept(w, future);
      hide Encode, Pending, FramesOf, U32Digits, Receive;
    } else {
      EncodeOne([]);
      HeaderLost(w, future);
      hide Encode, Pending, FramesOf, U32Digits, Receive;
      assert [] + future == future;
    }
  }

  lemma EncodeOne(frames: seq<seq<byte>>)
    requires |frames| <= 1
    ensures Encode(frames) == if frames == [] then [] else Frame(frames[0])
  {
    if frames != [] {
      assert frames[1..] == [];
    }
  }

  // ---------- whole runs ----------

  /** Bytes arrive in any chunks; calls happen at any time; the other side may close. */
  datatype Action = Arrive(chunk: seq<byte>) | Call | Close

  /** The wire after the actions, and the frames the calls consumed, in order. */
  function Play(w: Wire, actions: seq<Action>): (Wire, seq<seq<byte>>)
    requires Ready(w)
    decreases |actions|
  {
    if actions == [] then (w, [])
    else
      match actions[0]
      case Arrive(chunk) => Play(w.(inbox := w.inbox + chunk), actions[1..])
      case Close => Play(w.(closed := true), actions[1..])
      case Call =>
        ReadyKept(w);
        var (w', frames) := Play(Receive(w).0, actions[1..]);
        (w', FramesOf(Receive(w).1) + frames)
  }

  function Arrived(actions: seq<Action>): seq<byte> {
    if actions == [] then []
    else (match actions[0] case Arrive(chunk) => chunk case _ => []) + Arrived(actions[1..])
  }

  /** No call meets a partly arrived length prefix. */
  predicate PrefixesWhole(w: Wire, actions: seq<Action>)
    requires Ready(w)
    decreases |actions|
  {
    actions == [] ||
    match actions[0]
    case Arrive(chunk) => PrefixesWhole(w.(inbox := w.inbox + chunk), actions[1..])
    case Close => PrefixesWhole(w.(closed := true), actions[1..])
    case Call =>
      ReadyKept(w);
      PrefixWhole(w) && PrefixesWhole(Receive(w).0, actions[1..])
  }

  lemma {:induction false} EncodeAppend(a: seq<seq<byte>>, b: seq<seq<byte>>)
    ensures Encode(a + b) == Encode(a) + Encode(b)
  {
    if a == [] {
      assert a + b == b;
    } else {
      assert (a + b)[1..] == a[1..] + b;
      EncodeAppend(a[1..], b);
    }
  }

  /** Over any run, what was consumed plus what is still pending is what was sent. */
  lemma {:induction false} StreamConserved(w: Wire, actions: seq<Action>, future: seq<byte>)
    requires Ready(w) && PrefixesWhole(w, actions)
    ensures var (w', frames) := Play(w, actions);
            Ready(w') && Encode(frames) + Pending(w', future) == Pending(w, Arrived(actions) + future)
    decreases |actions|, 0
  {
    hide Receive, Pending, Encode, PrefixWhole, U32Digits;
    if actions != [] {
      var rest := Arrived(actions[1..]) + future;
      match actions[0]
      case Arrive(chunk) =>
        StreamConserved(w.(inbox := w.inbox + chunk), actions[1..], future);
        assert Arrived(actions) + future == chunk + rest;
        ArrivalKept(w, chunk, rest);
      case Close =>
        assert Arrived(actions) + future == rest;
        StreamConserved(w.(closed := true), actions[1..], future);
        CloseKept(w, rest);
      case Call =>
        assert Arrived(actions) + future == rest;
        CallConserves(w, actions[1..], future);
    } else {
      EncodeOne([]);
      assert Arrived(actions) + future == future && [] + Pending(w, future) == Pending(w, future);
    }
  }

  lemma ArrivalKept(w: Wire, chunk: seq<byte>, rest: seq<byte>)
    requires Ready(w)
    ensures Pending(w.(inbox := w.inbox + chunk), rest) == Pending(w, chunk + rest)
  {
    hide U32Digits;
    assert w.inbox + chunk + rest == w.inbox + (chunk + rest);
  }

  lemma CloseKept(w: Wire, rest: seq<byte>)
    requires Ready(w)
    ensures Ready(w.(closed := true)) && Pending(w.(closed := true), rest) == Pending(w, rest)
  {
  }

  lemma CallConserves(w: Wire, actions: seq<Action>, future: seq<byte>)
    requires Ready(w) && PrefixWhole(w) && PrefixesWhole(Receive(w).0, actions)
    ensures var (w', frames) := Play(Receive(w).0, actions);
            Ready(w') && Encode(FramesOf(Receive(w).1) + frames) + Pending(w', future) ==
                         Pending(w, Arrived(actions) + future)
    decreases |actions|
  {
    ReadyKept(w);
    hide Receive, Pending, Encode, PrefixWhole, PrefixesWhole, Play, Arrived, U32Digits, FramesOf, Ready;
    var (w1, r) := Receive(w);
    var (w', frames) := Play(w1, actions);
    NothingLostIff(w, Arrived(actions) + future);
    StreamConserved(w1, actions, future);
    EncodeAppend(FramesOf(r), frames);
    Associative(Encode(FramesOf(r)), Encode(frames), Pending(w', future));
  }

  lemma Associative(a: seq<byte>, b: seq<byte>, c: seq<byte>)
    ensures a + (b + c) == (a + b) + c
  {
  }

  /** What a call that meets a partly arrived prefix throws away. */
  lemma CallShrinks(w: Wire, future: seq<byte>)
    requires Ready(w)
    ensures Ready(Receive(w).0)
    ensures |Encode(FramesOf(Receive(w).1))| + |Pending(Receive(w).0, future)| ==
            |Pending(w, future)| - if PrefixWhole(w) then 0 else |w.inbox|
  {
    ReadyKept(w);
    if PrefixWhole(w) {
      NothingLostIff(w, future);
    } else {
      EncodeOne([]);
      assert |Pending(w, future)| == |w.inbox| + |future|;
      assert |Pending(Receive(w).0, future)| == |future|;
    }
  }

  /** Bytes once lost stay lost: the result and the rest never add up to the stream again. */
  lemma {:induction false} RunShrinks(w: Wire, actions: seq<Action>, future: seq<byte>)
    requires Ready(w)
    ensures Ready(Play(w, actions).0)
    ensures var (w', frames) := Play(w, actions);
            var kept, sent := |Encode(frames)| + |Pending(w', future)|, |Pending(w, Arrived(actions) + future)|;
            kept <= sent && (kept == sent ==> PrefixesWhole(w, actions))
    decreases |actions|
  {
    hide Receive, Pending, Encode, U32Digits;
    if actions == [] {
      EncodeOne([]);
      assert Arrived(actions) + future == future;
    } else {
      var rest := Arrived(actions[1..]) + future;
      match actions[0]
      case Arrive(chunk) =>
        assert Arrived(actions) + future == chunk + rest;
        ArrivalKept(w, chunk, rest);
        RunShrinks(w.(inbox := w.inbox + chunk), actions[1..], future);
      case Close =>
        assert Arrived(actions) + future == rest;
        CloseKept(w, rest);
        RunShrinks(w.(closed := true), actions[1..], future);
      case Call =>
        assert Arrived(actions) + future == rest;
        CallShrinks(w, rest);
        RunShrinks(Receive(w).0, actions[1..], future);
        EncodeAppend(FramesOf(Receive(w).1), Play(Receive(w).0, actions[1..]).1);
    }
  }

  /** Over any run of a connection, closed or not, what was consumed plus what is still pending is
      what was sent if and only if no call met a partly arrived length prefix. */
  lemma ConservedIff(w: Wire, actions: seq<Action>, future: seq<byte>)
    requires Ready(w)
    ensures var (w', frames) := Play(w, actions);
            Ready(w') &&
            (Encode(frames) + Pending(w', future) == Pending(w, Arrived(actions) + future) <==>
             PrefixesWhole(w, actions))
  {
    hide Pending, Encode, Play, Arrived;
    RunShrinks(w, actions, future);
    if PrefixesWhole(w, actions) {
      StreamConserved(w, actions, future);
    }
  }

  predicate Framable(frames: seq<seq<byte>>) {
    forall k :: 0 <= k < |frames| ==> |frames[k]| < U32_RANGE
  }

  lemma FrameHead(a: seq<byte>, x: seq<byte>, b: seq<byte>, y: seq<byte>)
    requires |a| < U32_RANGE && |b| < U32_RANGE && Frame(a) + x == Frame(b) + y
    ensures a == b && x == y
  {
    FrameParts(a, x);
    FrameParts(b, y);
    SameSize(|a|, |b|);
  }

  lemma FrameParts(a: seq<byte>, x: seq<byte>)
    requires |a| < U32_RANGE
    ensures var s := Frame(a) + x;
            4 + |a| <= |s| && s[..4] == U32Digits(|a|) && s[4..4 + |a|] == a && s[4 + |a|..] == x
  {
    hide U32Digits;
  }

  lemma SameSize(m: nat, n: nat)
    requires m < U32_RANGE && n < U32_RANGE && U32Digits(m) == U32Digits(n)
    ensures m == n
  {
    assert BytesToU32(U32Digits(m)) == BytesToU32(U32Digits(n));
  }

  /** A stream can be cut into frames in one way only. */
  lemma {:induction false} CutUnique(got: seq<seq<byte>>, rest: seq<byte>, sent: seq<seq<byte>>)
    requires Framable(got) && Framable(sent) && Encode(got) + rest == Encode(sent)
    ensures got <= sent && rest == Encode(sent[|got|..])
  {
    if got == [] {
      assert Encode(got) + rest == rest && sent[0..] == sent;
    } else {
      assert |Encode(got)| >= 4;
      var rest1 := Encode(got[1..]) + rest;
      assert Frame(got[0]) + rest1 == Encode(got) + rest;
      FrameHead(got[0], rest1, sent[0], Encode(sent[1..]));
      CutUnique(got[1..], rest, sent[1..]);
      assert sent[1..][|got| - 1..] == sent[|got|..];
    }
  }

  lemma {:induction false} PlayFramable(w: Wire, actions: seq<Action>)
    requires Ready(w)
    ensures Framable(Play(w, actions).1)
    decreases |actions|
  {
    if actions != [] {
      match actions[0]
      case Arrive(chunk) => PlayFramable(w.(inbox := w.inbox + chunk), actions[1..]);
      case Close => PlayFramable(w.(closed := true), actions[1..]);
      case Call =>
        ReadyKept(w);
        PlayFramable(Receive(w).0, actions[1..]);
    }
  }

  /** However the bytes of a list of messages and keepalives are chopped, the calls
      return exactly its payloads, in order, and what they have not returned yet is
      still pending (nothing is lost, duplicated or merged), if and only if no call
      met a partly arrived length prefix. */
  lemma FramingExact(w: Wire, frames: seq<seq<byte>>, actions: seq<Action>, future: seq<byte>)
    requires Ready(w) && Framable(frames) && Pending(w, Arrived(actions) + future) == Encode(frames)
    ensures var (w', got) := Play(w, actions);
            Ready(w') &&
            (got <= frames && Pending(w', future) == Encode(frames[|got|..]) <==> PrefixesWhole(w, actions))
  {
    ConservedIff(w, actions, future);
    PlayFramable(w, actions);
    var (w', got) := Play(w, actions);
    if PrefixesWhole(w, actions) {
      CutUnique(got, Pending(w', future), frames);
    }
    if got <= frames && Pending(w', future) == Encode(frames[|got|..]) {
      EncodeAppend(got, frames[|got|..]);
      assert got + frames[|got|..] == frames;
    }
  }

  function Payloads(messages: seq<Message>): (r: seq<seq<byte>>)
    requires forall k :: 0 <= k < |messages| ==> FieldsFit(messages[k])
    ensures |r| == |messages| && forall k :: 0 <= k < |r| ==> r[k] == Payload(messages[k])
  {
    seq(|messages|, k requires 0 <= k < |messages| => Payload(messages[k]))
  }

  /** So what comes out of a stream of messages decodes to the first of them, in order. */
  lemma MessagesDelivered(w: Wire, messages: seq<Message>, actions: seq<Action>, future: seq<byte>)
    requires forall k :: 0 <= k < |messages| ==> FieldsFit(messages[k]) && |Payload(messages[k])| < U32_RANGE
    requires Ready(w) && Pending(w, Arrived(actions) + future) == Encode(Payloads(messages))
    requires PrefixesWhole(w, actions)
    ensures var got := Play(w, actions).1;
            |got| <= |messages| &&
            forall k :: 0 <= k < |got| ==> Readable(got[k]) && Decode(got[k]) == Known(messages[k])
  {
    FramingExact(w, Payloads(messages), actions, future);
    var got := Play(w, actions).1;
    hide Payload, Decode, Readable;
    forall k | 0 <= k < |got| ensures Readable(got[k]) && Decode(got[k]) == Known(messages[k]) {
      assert got[k] == Payloads(messages)[k];
      DecodePayload(messages[k]);
    }
  }

  /** A new stream on an old receive state is read exactly as it was sent. */
  ghost predicate ReadsExactly(w: Wire)
    requires Ready(w)
  {
    forall frames: seq<seq<byte>>, actions: seq<Action>, future: seq<byte> ::
      Framable(frames) && Arrived(actions) + future == Encode(frames) && PrefixesWhole(w, actions) ==>
        Play(w, actions).1 <= frames
  }

  /** That is so if and only if no message of the old stream was half received. */
  lemma ReadsExactlyIff(w: Wire)
    requires Ready(w) && w.inbox == []
    ensures ReadsExactly(w) <==> w.next == 0
  {
    if w.next == 0 {
      forall frames: seq<seq<byte>>, actions: seq<Action>, future: seq<byte> |
        Framable(frames) && Arrived(actions) + future == Encode(frames) && PrefixesWhole(w, actions)
        ensures Play(w, actions).1 <= frames
      {
        assert Pending(w, Arrived(actions) + future) == Arrived(actions) + future;
        FramingExact(w, frames, actions, future);
      }
    } else {
      var x := seq(if w.next == 1 then 2 else w.next - 1, _ => 0);
      HalfMessageSwallows(w, x);
    }
  }

  /** Otherwise the old message swallows the beginning of the new stream, prefix included. */
  lemma HalfMessageSwallows(w: Wire, x: seq<byte>)
    requires Ready(w) && w.inbox == [] && w.next != 0
    requires |x| < U32_RANGE && |x| != w.next && w.next <= 4 + |x|
    ensures var actions := [Arrive(Encode([x])), Call];
            PrefixesWhole(w, actions) && Arrived(actions) == Encode([x]) &&
            Play(w, actions).1 == [w.buf + Encode([x])[..w.next - |w.buf|]] && !(Play(w, actions).1 <= [x])
    ensures !ReadsExactly(w)
  {
    var bytes := Encode([x]);
    var actions := [Arrive(bytes), Call];
    EncodeOne([x]);
    hide Encode, U32Digits, Frame;
    var w1 := w.(inbox := w.inbox + bytes);
    assert w.inbox + bytes == bytes && actions[1..] == [Call] && [Call][1..] == [];
    assert Arrived([Call]) == Arrived([]) == [] && bytes + [] == bytes;
    var (w2, r) := Receive(w1);
    assert Play(w2, []) == (w2, []) && FramesOf(r) + [] == FramesOf(r);
    assert Play(w1, [Call]).1 == FramesOf(r) && PrefixesWhole(w1, [Call]);
    assert Play(w, actions).1 == FramesOf(r);
    assert |FramesOf(r)[0]| == w.next && FramesOf(r)[0] != x;
    assert Framable([x]) && Arrived(actions) + [] == bytes;
  }

  /** Once everything has arrived, every call consumes the next frame until none is left. */
  lemma {:induction false} AllDelivered(w: Wire, frames: seq<seq<byte>>)
    requires Ready(w) && Framable(frames) && Pending(w, []) == Encode(frames)
    ensures PrefixesWhole(w, seq(|frames|, _ => Call))
    ensures Play(w, seq(|frames|, _ => Call)).1 == frames
    decreases |frames|
  {
    if frames != [] {
      OneDelivered(w, frames[0], Encode(frames[1..]));
      var (w', r) := Receive(w);
      AllDelivered(w', frames[1..]);
      assert seq(|frames|, _ => Call)[1..] == seq(|frames| - 1, _ => Call);
      assert FramesOf(r) + frames[1..] == frames;
    }
  }

  lemma OneDelivered(w: Wire, frame: seq<byte>, rest: seq<byte>)
    requires Ready(w) && |frame| < U32_RANGE && Pending(w, []) == Frame(frame) + rest
    ensures PrefixWhole(w) && Ready(Receive(w).0) && Receive(w).0.closed == w.closed
    ensures FramesOf(Receive(w).1) == [frame] && Pending(Receive(w).0, []) == rest
  {
    var (w', r) := Receive(w);
    ReadyKept(w);
    assert PrefixWhole(w) by {
      assert w.next == 0 ==> Pending(w, []) == w.inbox;
    }
    NothingLostIff(w, []);
    SizeAhead(w, frame, rest);
    if r.Complete? || r.Keepalive? {
      var got := FramesOf(r)[0];
      EncodeOne(FramesOf(r));
      FrameHead(got, Pending(w', []), frame, rest);
    }
  }

  /** With a whole frame pending, a call does not come back empty-handed. */
  lemma SizeAhead(w: Wire, frame: seq<byte>, rest: seq<byte>)
    requires Ready(w) && |frame| < U32_RANGE && Pending(w, []) == Frame(frame) + rest
    ensures Receive(w).1.Complete? || Receive(w).1.Keepalive?
  {
    var s := Pending(w, []);
    FrameParts(frame, rest);
    assert BytesToU32(s[..4]) == |frame|;
    hide U32Digits, Frame, BytesToU32;
    if w.next == 0 {
      assert s == w.inbox;
    } else {
      assert s[..4] == U32Digits(w.next);
      SameSize(w.next, |frame|);
      assert |s| == 4 + |w.buf| + |w.inbox|;
    }
  }

  lemma {:induction false} EncodeGrows(frames: seq<seq<byte>>, k: nat, n: nat)
    requires k <= n <= |frames|
    ensures |Encode(frames[..k])| <= |Encode(frames[..n])|
  {
    assert frames[..n] == frames[..k] + frames[k..n];
    EncodeAppend(frames[..k], frames[k..n]);
  }

  /** When a call reports the end, no whole frame is pending. */
  lemma BrokenMeansNoFrame(w: Wire, frame: seq<byte>, rest: seq<byte>)
    requires Ready(w) && |frame| < U32_RANGE && Receive(w).1.Broken?
    ensures Pending(w, []) != Frame(frame) + rest
  {
    if Pending(w, []) == Frame(frame) + rest {
      SizeAhead(w, frame, rest);
    }
  }

  lemma PrefixIsFrame(pending: seq<byte>, future: seq<byte>, frame: seq<byte>, later: seq<byte>)
    requires pending + future == frame + later && |frame| <= |pending|
    ensures pending == frame + pending[|frame|..]
  {
    assert pending[..|frame|] == (pending + future)[..|frame|] == (frame + later)[..|frame|] == frame;
  }

  lemma PendingSplits(w: Wire, future: seq<byte>)
    requires Ready(w)
    ensures Pending(w, future) == Pending(w, []) + future
  {
    hide U32Digits;
  }

  /** The other side may close at any moment, with bytes still on the way. When a call reports
      the end, the messages returned before are exactly those that had arrived whole. */
  lemma BrokenAfterAll(w: Wire, frames: seq<seq<byte>>, actions: seq<Action>, future: seq<byte>, k: nat)
    requires Ready(w) && Framable(frames) && Pending(w, Arrived(actions) + future) == Encode(frames)
    requires PrefixesWhole(w, actions) && k <= |frames|
    requires Ready(Play(w, actions).0) && Receive(Play(w, actions).0).1.Broken?
    ensures Play(w, actions).1 <= frames
    ensures k <= |Play(w, actions).1| <==> |Encode(frames[..k])| <= |Pending(w, Arrived(actions))|
  {
    FramingExact(w, frames, actions, future);
    StreamConserved(w, actions, []);
    var (w', got) := Play(w, actions);
    var n := |got|;
    assert Arrived(actions) + [] == Arrived(actions) && frames[..n] == got;
    hide Pending, Encode, Play, Arrived, Receive, PrefixesWhole;
    if k <= n {
      EncodeGrows(frames, k, n);
    } else {
      var frame, later := frames[n], Encode(frames[n + 1..]);
      EncodeGrows(frames, n + 1, k);
      NextFrame(frames, n);
      PendingSplits(w', future);
      if |Frame(frame)| <= |Pending(w', [])| {
        PrefixIsFrame(Pending(w', []), future, Frame(frame), later);
        BrokenMeansNoFrame(w', frame, Pending(w', [])[|Frame(frame)|..]);
      }
    }
  }

  lemma NextFrame(frames: seq<seq<byte>>, n: nat)
    requires n < |frames|
    ensures Encode(frames[n..]) == Frame(frames[n]) + Encode(frames[n + 1..])
    ensures |Encode(frames[..n + 1])| == |Encode(frames[..n])| + |Frame(frames[n])|
  {
    assert frames[n..][1..] == frames[n + 1..];
    assert frames[..n + 1] == frames[..n] + [frames[n]];
    EncodeAppend(frames[..n], [frames[n]]);
    EncodeOne([frames[n]]);
  }

  /** The end is reported exactly when the other side has closed and the call finds nothing of a body,
      or less than a prefix. */
  lemma BrokenIff(w: Wire)
    requires Ready(w)
    ensures Receive(w).0.closed == w.closed
    ensures Receive(w).1.Broken? <==>
            w.closed &&
            if w.next != 0 then w.inbox == []
            else |w.inbox| < 4 || (|w.inbox| == 4 && BytesToU32(w.inbox) != 0)
  {
    assert w.inbox[..|w.inbox|] == w.inbox;
  }

  /** Once closed and empty-handed, the next call reports the end. */
  lemma ClosedEnds(w: Wire)
    requires Ready(w) && w.closed && Receive(w).1.Nothing?
    ensures Ready(Receive(w).0) && Receive(Receive(w).0).1.Broken?
  {
  }

  /** `n` calls in a row. */
  function Calls(n: nat): (r: seq<Action>)
    ensures |r| == n && forall k :: 0 <= k < n ==> r[k] == Call
  {
    seq(n, _ => Call)
  }

  /** One more call at the end of a run. */
  lemma {:induction false} PlayOneMore(w: Wire, n: nat)
    requires Ready(w)
    ensures var (w1, frames) := Play(w, Calls(n));
            Ready(w1) && Play(w, Calls(n + 1)) == (Receive(w1).0, frames + FramesOf(Receive(w1).1))
    decreases n
  {
    ReadyKept(w);
    hide Receive, FramesOf, Ready;
    assert Calls(n + 1)[1..] == Calls(n);
    if n == 0 {
      var taken := FramesOf(Receive(w).1);
      assert Calls(0) == [] && taken + [] == taken && [] + taken == taken;
    } else {
      assert Calls(n)[1..] == Calls(n - 1);
      PlayOneMore(Receive(w).0, n - 1);
      var (w1, frames) := Play(Receive(w).0, Calls(n - 1));
      assert FramesOf(Receive(w).1) + (frames + FramesOf(Receive(w1).1)) ==
             (FramesOf(Receive(w).1) + frames) + FramesOf(Receive(w1).1);
    }
  }
}
