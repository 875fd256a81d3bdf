/** What a new connection is greeted with, and what the other side makes of it
    (src/main_loop.rs, lines 229-248; src/peer_protocol.rs, lines 63-113, 155-199 and 201-218). */
module Welcome {
  import opened IoPrimitives
  import opened Codec
  import opened Framing
  import opened TorrentState
  import opened Geometry
  import opened PeerProtocol
  import opened MainLoop
  import opened Runs

  /** Three calls on a connection that carries exactly three messages return them. */
  lemma ThreeRead(w: Wire, x: seq<byte>, y: seq<byte>, z: seq<byte>)
    requires Ready(w) && |x| < U32_RANGE && |y| < U32_RANGE && |z| < U32_RANGE
    requires Pending(w, []) == Encode([x, y, z])
    ensures var (w1, r1) := Receive(w);
            Ready(w1) &&
            var (w2, r2) := Receive(w1);
            Ready(w2) &&
            var (w3, r3) := Receive(w2);
            Ready(w3) && FramesOf(r1) == [x] && FramesOf(r2) == [y] && FramesOf(r3) == [z]
  {
    assert [x, y, z][1..] == [y, z] && [y, z][1..] == [z];
    OneDelivered(w, x, Encode([y, z]));
    var w1 := Receive(w).0;
    OneDelivered(w1, y, Encode([z]));
    var w2 := Receive(w1).0;
    OneDelivered(w2, z, Encode([z][1..]));
  }

  lemma NewWire(bytes: seq<byte>)
    ensures Ready(Wire(bytes, false, [], 0)) && Pending(Wire(bytes, false, [], 0), []) == bytes
  {
  }

  /** After its first event the run reads three messages off the connection and handles them: each
      reading is one call of the receiver, each handling is of the payload that call returned. */
  ghost predicate ReadAndHandled(events: seq<Event>, p: nat) {
    |events| == 7 && events[0].Transport? &&
    forall k :: 0 <= k < 3 ==>
      events[k].Transport? && Ready(events[k].wire) &&
      events[k + 1] == Transport(p, Receive(events[k].wire).0) &&
      Receive(events[k].wire).1.Complete? && Readable(Receive(events[k].wire).1.payload) &&
      events[k + 4] == Deliver(p, Decode(Receive(events[k].wire).1.payload))
  }

  /** A client that gets the greeting of another over a new connection knows afterwards that it is
      unchoked, that the other is interested, and exactly which pieces the other has. */
  lemma GreetingHeard(hash: Hash, s: State, p: nat, bytes: seq<byte>, bitfield: seq<byte>, theirs: seq<PieceState>)
    returns (states: seq<State>, events: seq<Event>)
    requires Sound(s) && p < |s.peers| && s.peers[p].stream.Some? && WireOf(s.peers[p]) == Wire([], false, [], 0)
    requires GreetsWith(bytes, bitfield) && |theirs| == |s.pieces| && Packs(bitfield, PieceFlags(theirs))
    ensures Trace(hash, states, events) && |events| == 7 && states[0] == s
    ensures events[0] == Transport(p, Wire(bytes, false, [], 0))
    ensures ReadAndHandled(events, p)
    ensures var x := states[7].peers;
            p < |x| && !x[p].weChoked && x[p].theyInterested && |x[p].hasPiece| == |theirs| &&
            forall i :: 0 <= i < |theirs| ==> x[p].hasPiece[i] == theirs[i].downloaded
  {
    var x, y, z :| Greeting(bytes, bitfield, x, y, z);
    BitfieldOfPieces(bitfield, theirs);
    var w0 := Wire(bytes, false, [], 0);
    NewWire(bytes);
    var wires := ThreeCalls(w0, x, y, z);
    events := HeardEvents(p, wires, bitfield);
    CallsThenHandling(events, p, wires, bitfield, x, y, z);
    hide Greeting, GreetsWith, Receive, Packs, PieceFlags, Sound, ReadAndHandled, Encode, Pending, Decode, Readable,
         Trace;
    states := HeardStates(hash, s, p, wires, bitfield, theirs);
  }

  lemma ThreeCalls(w: Wire, x: seq<byte>, y: seq<byte>, z: seq<byte>) returns (wires: seq<Wire>)
    requires Ready(w) && 0 < |x| < U32_RANGE && |y| == |z| == 1 && Pending(w, []) == Encode([x, y, z])
    ensures |wires| == 4 && wires[0] == w && forall k :: 0 <= k < 4 ==> Ready(wires[k])
    ensures Receive(wires[0]) == (wires[1], Complete(x)) && Receive(wires[1]) == (wires[2], Complete(y))
    ensures Receive(wires[2]) == (wires[3], Complete(z))
  {
    ThreeRead(w, x, y, z);
    var w1 := Receive(w).0;
    var w2 := Receive(w1).0;
    wires := [w, w1, w2, Receive(w2).0];
    hide Receive, Pending, Encode;
  }

  function HeardEvents(p: nat, wires: seq<Wire>, bitfield: seq<byte>): (r: seq<Event>)
    requires |wires| == 4
    ensures |r| == 7
  {
    [Transport(p, wires[0]), Transport(p, wires[1]), Transport(p, wires[2]), Transport(p, wires[3]),
     Deliver(p, Known(Bitfield(bitfield))), Deliver(p, Known(Unchoke)), Deliver(p, Known(Interested))]
  }

  lemma CallsThenHandling(events: seq<Event>, p: nat, wires: seq<Wire>, bitfield: seq<byte>,
                          x: seq<byte>, y: seq<byte>, z: seq<byte>)
    requires |wires| == 4 && (forall k :: 0 <= k < 4 ==> Ready(wires[k])) && events == HeardEvents(p, wires, bitfield)
    requires Receive(wires[0]) == (wires[1], Complete(x)) && Receive(wires[1]) == (wires[2], Complete(y))
    requires Receive(wires[2]) == (wires[3], Complete(z))
    requires Readable(x) && Decode(x) == Known(Bitfield(bitfield))
    requires Readable(y) && Decode(y) == Known(Unchoke) && Readable(z) && Decode(z) == Known(Interested)
    ensures ReadAndHandled(events, p)
  {
    hide Receive, Decode, Readable, Ready;
  }

  lemma HeardStates(hash: Hash, s: State, p: nat, wires: seq<Wire>, bitfield: seq<byte>, theirs: seq<PieceState>)
    returns (states: seq<State>)
    requires p < |s.peers| && s.peers[p].stream.Some? && |wires| == 4
    requires forall k :: 0 <= k < 4 ==> Ready(wires[k])
    requires |theirs| == |s.pieces| && CeilDiv(|theirs|, 8) == |bitfield|
    requires forall i :: 0 <= i < |theirs| ==> i / 8 < |bitfield| && HasBit(bitfield, i) == theirs[i].downloaded
    ensures Trace(hash, states, HeardEvents(p, wires, bitfield)) && |states| == 8 && states[0] == s
    ensures var x := states[7].peers;
            p < |x| && !x[p].weChoked && x[p].theyInterested && |x[p].hasPiece| == |theirs| &&
            forall i :: 0 <= i < |theirs| ==> x[p].hasPiece[i] == theirs[i].downloaded
  {
    hide Step, Enabled, Ready, HasBit;
    var s1 := Transported(hash, s, p, wires[0]);
    var s2 := Transported(hash, s1, p, wires[1]);
    var s3 := Transported(hash, s2, p, wires[2]);
    var s4 := Transported(hash, s3, p, wires[3]);
    var s5 := HearsBitfield(hash, s4, p, bitfield, theirs);
    var s6 := HearsUnchoke(hash, s5, p);
    var s7 := HearsInterested(hash, s6, p);
    states := [s, s1, s2, s3, s4, s5, s6, s7];
  }

  lemma Transported(hash: Hash, s: State, p: nat, w: Wire) returns (s': State)
    requires p < |s.peers| && s.peers[p].stream.Some? && Ready(w)
    ensures Enabled(s, Transport(p, w)) && s' == Step(hash, s, Transport(p, w))
    ensures |s'.peers| == |s.peers| && s'.pieces == s.pieces && s'.peers[p].stream.Some?
  {
    s' := Step(hash, s, Transport(p, w));
  }

  lemma HearsBitfield(hash: Hash, s: State, p: nat, bitfield: seq<byte>, theirs: seq<PieceState>)
    returns (s': State)
    requires p < |s.peers| && |theirs| == |s.pieces| && CeilDiv(|theirs|, 8) == |bitfield|
    requires forall i :: 0 <= i < |theirs| ==> i / 8 < |bitfield| && HasBit(bitfield, i) == theirs[i].downloaded
    ensures var e := Deliver(p, Known(Bitfield(bitfield))); Enabled(s, e) && s' == Step(hash, s, e)
    ensures |s'.peers| == |s.peers| && |s'.peers[p].hasPiece| == |theirs|
    ensures forall i :: 0 <= i < |theirs| ==> s'.peers[p].hasPiece[i] == theirs[i].downloaded
  {
    s' := Step(hash, s, Deliver(p, Known(Bitfield(bitfield))));
  }

  lemma HearsUnchoke(hash: Hash, s: State, p: nat) returns (s': State)
    requires p < |s.peers|
    ensures var e := Deliver(p, Known(Unchoke)); Enabled(s, e) && s' == Step(hash, s, e)
    ensures |s'.peers| == |s.peers| && !s'.peers[p].weChoked && s'.peers[p].hasPiece == s.peers[p].hasPiece
  {
    s' := Step(hash, s, Deliver(p, Known(Unchoke)));
  }

  lemma HearsInterested(hash: Hash, s: State, p: nat) returns (s': State)
    requires p < |s.peers|
    ensures var e := Deliver(p, Known(Interested)); Enabled(s, e) && s' == Step(hash, s, e)
    ensures |s'.peers| == |s.peers| && s'.peers[p].theyInterested
    ensures s'.peers[p].weChoked == s.peers[p].weChoked && s'.peers[p].hasPiece == s.peers[p].hasPiece
  {
    s' := Step(hash, s, Deliver(p, Known(Interested)));
  }
}
