/** A download over time: the steps of the main loop and of its peers, in any order. */
module Runs {
  import opened Wrappers
  import opened IoPrimitives
  import opened Codec
  import opened Framing
  import opened TorrentState
  import opened Geometry
  import opened Soundness
  import opened Decider

  datatype Event =
    | Deliver(peer: nat, m: Incoming)            // a complete message is processed
    | Transport(peer: nat, wire: Wire)           // bytes arrive or are read, the socket closes
    | Issue(now: nat, reqs: seq<BlockRequest>)   // decide_block_requests returns reqs
    | Expire(now: nat)                           // remove_expired_requests
    | Broadcast                                  // broadcast_have
    | Serve                                      // execute_incoming_block_requests
    | Break(peer: nat)                           // on_broken_connection
    | Open(peer: nat, stream: Stream)            // process_new_connections
    | Join(incoming: Option<Stream>)             // a peer is registered

  /** The event can happen, and the client survives it. */
  ghost predicate Enabled(s: State, e: Event) {
    match e
    case Deliver(peer, m) => MessageInRange(s, peer, m)
    case Transport(peer, wire) => peer < |s.peers| && s.peers[peer].stream.Some? && Ready(wire)
    case Issue(now, reqs) => IsSchedule(s, reqs) && RequestsInRange(s, reqs)
    case Expire(now) => RecordsBefore(s, now)
    case Break(peer) => peer < |s.peers|
    case Serve => forall k :: 0 <= k < |s.pending| ==> Servable(s, s.pending[k])
    case Open(peer, stream) => peer < |s.peers|
    case _ => true
  }

  ghost function Step(hash: Hash, s: State, e: Event): State
    requires Enabled(s, e)
  {
    match e
    case Deliver(peer, m) => ReceiveMessage(hash, s, peer, m)
    case Transport(peer, wire) => Socket(s, peer, wire)
    case Issue(now, reqs) => IssueRequests(s, reqs, now)
    case Expire(now) => RemoveExpired(s, now)
    case Broadcast => s.(recent := [])
    case Serve => s.(pending := [])
    case Break(peer) => BreakConnection(s, peer)
    case Open(peer, stream) => Connect(s, peer, stream)
    case Join(incoming) => Register(s, incoming)
  }

  lemma StepSound(hash: Hash, s: State, e: Event)
    requires Sound(s) && Enabled(s, e)
    ensures Sound(Step(hash, s, e))
  {
    var s' := Step(hash, s, e);
    match e {
      case Deliver(peer, m) => ReceiveMessageSound(hash, s, peer, m);
      case Transport(peer, wire) =>
        assert PeerSound(s, s.peers[peer]);
        WithPeerSound(s, peer, s'.peers[peer]);
      case Issue(now, reqs) => IssueRequestsSound(s, reqs, now);
      case Expire(now) => RemoveExpiredSound(s, now);
      case Break(peer) =>
        assert PeerSound(s, s.peers[peer]);
        WithPeerSound(s, peer, s'.peers[peer]);
      case Open(peer, stream) =>
        assert PeerSound(s, s.peers[peer]);
        WithPeerSound(s, peer, s'.peers[peer]);
      case Join(incoming) => RegisterSound(s, incoming);
      case _ => ShapeKept(s, s');
    }
  }

  /** What a peer sends over a connection that replaces another is read exactly as it was
      sent if and only if no message of the old one was half received: the receive state is
      cleared only when a connection is noticed to be broken. */
  lemma ReplacedStreamIff(hash: Hash, s: State, peer: nat)
    requires Sound(s) && peer < |s.peers|
    ensures var e := Open(peer, Stream([], false));
            var s' := Step(hash, s, e);
            Ready(WireOf(s'.peers[peer])) &&
            (ReadsExactly(WireOf(s'.peers[peer])) <==> s.peers[peer].nextMessageLength == 0)
    ensures var s' := Step(hash, BreakConnection(s, peer), Open(peer, Stream([], false)));
            ReadsExactly(WireOf(s'.peers[peer]))
  {
    assert PeerSound(s, s.peers[peer]);
    ReadsExactlyIff(Wire([], false, s.peers[peer].buf, s.peers[peer].nextMessageLength));
    ReadsExactlyIff(Wire([], false, [], 0));
    hide ReadsExactly;
  }

  /** `states` are the states before, between and after `events`. */
  ghost predicate Trace(hash: Hash, states: seq<State>, events: seq<Event>) {
    |states| == |events| + 1 &&
    forall k :: 0 <= k < |events| ==> Enabled(states[k], events[k]) && states[k + 1] == Step(hash, states[k], events[k])
  }

  /** The event writes torrent content, or touches which blocks are downloaded. */
  predicate IsPieceMessage(e: Event) { e.Deliver? && e.m.Known? && e.m.message.Piece? }

  /** All other events leave content and verification alone. */
  lemma OtherEventsKeepContent(hash: Hash, s: State, e: Event)
    requires Sound(s) && Enabled(s, e) && !IsPieceMessage(e)
    ensures var s' := Step(hash, s, e);
            s'.content == s.content && s'.downloaded == s.downloaded && s'.pieceLength == s.pieceLength &&
            |s'.pieces| == |s.pieces| &&
            forall i :: 0 <= i < |s.pieces| ==> SameProgress(s.pieces[i], s'.pieces[i])
  {
    hide Sound, IsSchedule, Recorded, SameProgress, ExpirePieces, Servable;
    match e {
      case Issue(now, reqs) =>
        forall i | 0 <= i < |s.pieces| ensures SameProgress(s.pieces[i], IssueRequests(s, reqs, now).pieces[i]) {
          RecordedKeepsPiece(s, reqs, now, |reqs|, i);
        }
      case Expire(now) =>
        forall i | 0 <= i < |s.pieces| ensures SameProgress(s.pieces[i], ExpiredPiece(s.pieces[i], now)) {
          ExpiryKeepsProgress(s.pieces[i], now);
        }
      case _ =>
        SamePieces(s, Step(hash, s, e));
    }
  }

  lemma ExpiryKeepsProgress(p: PieceState, now: nat)
    ensures SameProgress(p, ExpiredPiece(p, now))
  {
  }

  lemma SamePieces(s: State, s': State)
    requires s'.pieces == s.pieces
    ensures forall i :: 0 <= i < |s.pieces| ==> SameProgress(s.pieces[i], s'.pieces[i])
  {
  }

  /** Equal up to request records. */
  predicate SameProgress(p: PieceState, p': PieceState) {
    p'.(blocks := []) == p.(blocks := []) && |p'.blocks| == |p.blocks| &&
    forall b :: 0 <= b < |p.blocks| ==> p'.blocks[b].(record := None) == p.blocks[b].(record := None)
  }

  lemma {:induction false} RecordedKeepsPiece(s: State, reqs: seq<BlockRequest>, now: nat, n: nat, i: nat)
    requires RequestsInRange(s, reqs) && n <= |reqs| && i < |s.pieces|
    ensures SameProgress(s.pieces[i], Recorded(s, reqs, now, n)[i])
  {
    if n != 0 {
      RecordedKeepsPiece(s, reqs, now, n - 1, i);
    }
  }
}
