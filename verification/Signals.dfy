/** What a client knows of a peer is what the peer last told it, over whole runs
    (src/peer_protocol.rs, lines 63-113 and 201-218; src/download.rs, lines 395-409 and 640-652;
    src/main_loop.rs, lines 229-248). */
module Signals {
  import opened Wrappers
  import opened IoPrimitives
  import opened Storage
  import opened Codec
  import opened TorrentState
  import opened Geometry
  import opened Decider
  import opened Runs

  // ---------- what one event does to a peer ----------

  predicate Breaks(e: Event, p: nat) { e == Break(p) }

  predicate Opens(e: Event, p: nat) { e.Open? && e.peer == p }

  /** Bytes arrive from the peer or are read, or it closes. */
  predicate Transports(e: Event, p: nat) { e.Transport? && e.peer == p }

  /** The peer says that it has piece `i`. */
  predicate Shows(e: Event, p: nat, i: nat) {
    e == Deliver(p, Known(Have(i))) ||
    (e.Deliver? && e.peer == p && e.m.Known? && e.m.message.Bitfield? &&
     i / 8 < |e.m.message.bytes| && HasBit(e.m.message.bytes, i))
  }

  /** The peer sends a bitfield without piece `i`. */
  predicate Denies(e: Event, p: nat, i: nat) {
    e.Deliver? && e.peer == p && e.m.Known? && e.m.message.Bitfield? &&
    !(i / 8 < |e.m.message.bytes| && HasBit(e.m.message.bytes, i))
  }

  /** Each field of a peer changes by the events named here and no others. */
  lemma PeerStep(hash: Hash, s: State, e: Event, p: nat)
    requires Enabled(s, e) && p < |s.peers|
    ensures p < |Step(hash, s, e).peers|
    ensures var x, x' := s.peers[p], Step(hash, s, e).peers[p];
            x'.weChoked == (e == Deliver(p, Choke) || Breaks(e, p) ||
                            (x.weChoked && e != Deliver(p, Known(Unchoke)))) &&
            x'.theyInterested == (e == Deliver(p, Known(Interested)) ||
                                  (x.theyInterested && e != Deliver(p, NotInterested) && !Breaks(e, p))) &&
            x'.weInterested == (Opens(e, p) || (x.weInterested && !Breaks(e, p))) &&
            x'.stream == (if Opens(e, p) then Some(e.stream) else if Breaks(e, p) then None
                          else if Transports(e, p) then Some(Stream(e.wire.inbox, e.wire.closed)) else x.stream) &&
            x'.buf == (if Breaks(e, p) then [] else if Transports(e, p) then e.wire.buf else x.buf) &&
            x'.nextMessageLength ==
              if Breaks(e, p) then 0 else if Transports(e, p) then e.wire.next else x.nextMessageLength
  {
    if IsPieceMessage(e) {
      PieceKeepsPeer(hash, s, e, p);
      hide Step, Enabled;
    } else {
      hide IsSchedule, Recorded, ReceivePiece, BitfieldFlags, ExpirePieces, Count, RequestsTo, Servable, RecordsBefore;
      match e {
        case Deliver(q, m) => MessageStep(hash, s, q, m, p);
        case _ =>
      }
    }
  }

  lemma PieceKeepsPeer(hash: Hash, s: State, e: Event, p: nat)
    requires Enabled(s, e) && IsPieceMessage(e) && p < |s.peers|
    ensures var s' := Step(hash, s, e);
            |s'.peers| == |s.peers| && |s'.pieces| == |s.pieces| &&
            s'.peers[p] == s.peers[p].(outstanding := s'.peers[p].outstanding)
  {
    hide FinishedPiece, AllDone, Splice;
  }

  lemma MessageStep(hash: Hash, s: State, q: nat, m: Incoming, p: nat)
    requires MessageInRange(s, q, m) && !(m.Known? && m.message.Piece?) && p < |s.peers|
    ensures var s' := ReceiveMessage(hash, s, q, m);
            |s'.peers| == |s.peers| && s'.pieces == s.pieces &&
            var x, x' := s.peers[p], s'.peers[p];
            x'.weChoked == ((q == p && m == Choke) || (x.weChoked && !(q == p && m == Known(Unchoke)))) &&
            x'.theyInterested == ((q == p && m == Known(Interested)) ||
                                  (x.theyInterested && !(q == p && m == NotInterested))) &&
            x'.weInterested == x.weInterested && x'.stream == x.stream && x'.outstanding == x.outstanding &&
            x'.buf == x.buf && x'.nextMessageLength == x.nextMessageLength &&
            x'.hasPiece == if q != p || !m.Known? then x.hasPiece
                           else match m.message
                             case Have(i) => x.hasPiece[i := true]
                             case Bitfield(bytes) => BitfieldFlags(bytes, |s.pieces|)
                             case _ => x.hasPiece
  {
    hide ReceivePiece, BitfieldFlags;
  }

  lemma HasPieceStep(hash: Hash, s: State, e: Event, p: nat, i: nat)
    requires Enabled(s, e) && p < |s.peers| && |s.peers[p].hasPiece| == |s.pieces| && i < |s.pieces|
    ensures p < |Step(hash, s, e).peers|
    ensures var x, x' := s.peers[p], Step(hash, s, e).peers[p];
            |x'.hasPiece| == |x.hasPiece| == |Step(hash, s, e).pieces| &&
            (x'.hasPiece[i] <==> Shows(e, p, i) || (x.hasPiece[i] && !Denies(e, p, i)))
  {
    if IsPieceMessage(e) {
      PieceKeepsPeer(hash, s, e, p);
      hide Step, Enabled, HasBit;
    } else {
      hide IsSchedule, Recorded, ReceivePiece, ExpirePieces, Count, RequestsTo, Servable, RecordsBefore, HasBit;
      match e {
        case Deliver(q, m) => MessageStep(hash, s, q, m, p);
        case _ =>
      }
    }
  }

  /** A peer that joins is choking, not interested and has no piece; nobody else joins. */
  lemma JoinStep(hash: Hash, s: State, e: Event, p: nat)
    requires Enabled(s, e) && |s.peers| <= p < |Step(hash, s, e).peers|
    ensures e.Join? && p == |s.peers|
    ensures var x := Step(hash, s, e).peers[p];
            x.weChoked && !x.theyInterested && !x.weInterested && x.buf == [] && x.nextMessageLength == 0 &&
            x.stream == e.incoming && x.outstanding == 0 &&
            |x.hasPiece| == |s.pieces| && forall i :: 0 <= i < |x.hasPiece| ==> !x.hasPiece[i]
  {
    hide FinishedPiece, AllDone, IsSchedule;
  }

  /** An event that concerns peer `p` finds it registered. */
  lemma EventFindsPeer(s: State, e: Event, p: nat)
    requires Enabled(s, e)
    ensures (e.Deliver? && e.peer == p) || Breaks(e, p) || Opens(e, p) ==> p < |s.peers|
  {
  }

  // ---------- over whole runs ----------

  /** What a client knows of a peer: that it has unchoked us, that it is interested, that we told it of our
      interest, that it is connected, that it has a piece. */
  datatype Signal =
    | Unchoking(peer: nat)
    | Interest(peer: nat)
    | OurInterest(peer: nat)
    | Connection(peer: nat)
    | Holding(peer: nat, piece: nat)

  predicate On(g: Signal, s: State) {
    g.peer < |s.peers| &&
    var x := s.peers[g.peer];
    match g
    case Unchoking(_) => !x.weChoked
    case Interest(_) => x.theyInterested
    case OurInterest(_) => x.weInterested
    case Connection(_) => x.stream.Some?
    case Holding(_, i) => i < |x.hasPiece| && x.hasPiece[i]
  }

  /** The events that set it: a message of the peer, a new connection, or joining with one. */
  predicate Sets(g: Signal, s: State, e: Event) {
    match g
    case Unchoking(p) => e == Deliver(p, Known(Unchoke))
    case Interest(p) => e == Deliver(p, Known(Interested))
    case OurInterest(p) => Opens(e, p)
    case Connection(p) => Opens(e, p) || (e.Join? && e.incoming.Some? && |s.peers| == p)
    case Holding(p, i) => Shows(e, p, i)
  }

  /** The events that clear it; a broken connection does not make us forget what a peer has. */
  predicate Clears(g: Signal, e: Event) {
    match g
    case Unchoking(p) => e == Deliver(p, Choke) || e == Break(p)
    case Interest(p) => e == Deliver(p, NotInterested) || e == Break(p)
    case OurInterest(p) => e == Break(p)
    case Connection(p) => e == Break(p)
    case Holding(p, i) => Denies(e, p, i)
  }

  /** One event along a run, whether the peer is there already, joins or is not there yet. */
  lemma SignalStep(hash: Hash, s: State, e: Event, g: Signal)
    requires Sound(s) && Enabled(s, e) && (g.Holding? ==> g.piece < |s.pieces|)
    ensures On(g, Step(hash, s, e)) <==> Sets(g, s, e) || (On(g, s) && !Clears(g, e))
  {
    var p := g.peer;
    EventFindsPeer(s, e, p);
    if p < |s.peers| {
      PeerStep(hash, s, e, p);
      if g.Holding? {
        assert PeerSound(s, s.peers[p]);
        HasPieceStep(hash, s, e, p, g.piece);
      }
    } else if p < |Step(hash, s, e).peers| {
      JoinStep(hash, s, e, p);
    } else if e.Join? {
      assert |Step(hash, s, e).peers| == |s.peers| + 1;
    }
    hide Step, Enabled, Sound, HasBit;
  }

  /** It was set at some moment before `n` and not cleared since. */
  ghost predicate SetLast(g: Signal, states: seq<State>, events: seq<Event>, n: nat)
    requires n <= |events| < |states|
  {
    exists k :: 0 <= k < n && Sets(g, states[k], events[k]) && !ClearedWithin(g, events, k + 1, n)
  }

  predicate ClearedWithin(g: Signal, events: seq<Event>, m: nat, n: nat)
    requires n <= |events|
  {
    exists j :: m <= j < n && Clears(g, events[j])
  }

  /** What a client knows of a peer is what the peer last told it: on every run a signal is on
      exactly when it was set after it was last cleared, or was on at the start and never
      cleared. */
  lemma {:induction false} SignalIff(hash: Hash, states: seq<State>, events: seq<Event>, n: nat, g: Signal)
    requires Trace(hash, states, events) && n <= |events| && Sound(states[0])
    requires g.Holding? ==> g.piece < |states[0].pieces|
    ensures Sound(states[n]) && |states[n].pieces| == |states[0].pieces|
    ensures On(g, states[n]) <==>
            SetLast(g, states, events, n) || (On(g, states[0]) && !ClearedWithin(g, events, 0, n))
  {
    if n != 0 {
      SignalIff(hash, states, events, n - 1, g);
      var s, e := states[n - 1], events[n - 1];
      StepSound(hash, s, e);
      StepKeepsNumber(hash, s, e);
      SignalStep(hash, s, e, g);
      assert states[n - 1 + 1] == Step(hash, s, e);
      hide Step, Enabled, Sound, Trace, On, Sets, Clears;
      SetLastStep(g, states, events, n);
      ClearedStep(g, events, 0, n);
    }
  }

  lemma StepKeepsNumber(hash: Hash, s: State, e: Event)
    requires Enabled(s, e)
    ensures |Step(hash, s, e).pieces| == |s.pieces|
  {
  }

  lemma ClearedStep(g: Signal, events: seq<Event>, m: nat, n: nat)
    requires m < n <= |events|
    ensures ClearedWithin(g, events, m, n) <==> ClearedWithin(g, events, m, n - 1) || Clears(g, events[n - 1])
  {
    hide Clears;
  }

  lemma SetLastStep(g: Signal, states: seq<State>, events: seq<Event>, n: nat)
    requires 0 < n <= |events| < |states|
    ensures SetLast(g, states, events, n) <==>
            Sets(g, states[n - 1], events[n - 1]) ||
            (SetLast(g, states, events, n - 1) && !Clears(g, events[n - 1]))
  {
    hide Sets, Clears;
    if SetLast(g, states, events, n) && !Sets(g, states[n - 1], events[n - 1]) {
      var k :| 0 <= k < n && Sets(g, states[k], events[k]) && !ClearedWithin(g, events, k + 1, n);
      ClearedStep(g, events, k + 1, n);
    }
    if SetLast(g, states, events, n - 1) && !Clears(g, events[n - 1]) {
      var k :| 0 <= k < n - 1 && Sets(g, states[k], events[k]) && !ClearedWithin(g, events, k + 1, n - 1);
      ClearedStep(g, events, k + 1, n);
    }
  }

  // ---------- what follows for the scheduler ----------

  /** So nobody is asked between a choke, or a broken connection, and the next unchoke. */
  lemma NotAskedWhileChoked(hash: Hash, states: seq<State>, events: seq<Event>, k: nat, n: nat, p: nat)
    requires Trace(hash, states, events) && k < n < |events| && events[n].Issue? && Sound(states[0])
    requires events[k] == Deliver(p, Choke) || events[k] == Break(p)
    requires forall j :: k < j < n ==> events[j] != Deliver(p, Known(Unchoke))
    ensures forall l :: 0 <= l < |events[n].reqs| ==> events[n].reqs[l].peerId != p
  {
    var s, reqs := states[n], events[n].reqs;
    var g := Unchoking(p);
    assert Enabled(s, events[n]);
    SignalIff(hash, states, events, n, g);
    hide Step, Enabled, IsSchedule, Sound, Trace;
    assert Clears(g, events[k]);
    forall m | 0 <= m < n && Sets(g, states[m], events[m]) ensures ClearedWithin(g, events, m + 1, n) {
      assert events[m] == Deliver(p, Known(Unchoke));
    }
    forall l | 0 <= l < |reqs| ensures reqs[l].peerId != p {
      AskedIsAllowed(s, reqs, l);
    }
  }

  /** And whoever is asked for a block of a piece has shown the piece, has connected and has
      unchoked us before. */
  lemma AskedHasShown(hash: Hash, states: seq<State>, events: seq<Event>, n: nat, l: nat)
    requires Trace(hash, states, events) && n < |events| && events[n].Issue? && l < |events[n].reqs|
    requires Sound(states[0]) && states[0].peers == []
    ensures var r := events[n].reqs[l];
            SetLast(Unchoking(r.peerId), states, events, n) && SetLast(Connection(r.peerId), states, events, n) &&
            SetLast(Holding(r.peerId, r.pieceId), states, events, n)
  {
    var s, reqs := states[n], events[n].reqs;
    var r := reqs[l];
    assert Enabled(s, events[n]);
    AskedIsAllowed(s, reqs, l);
    SignalIff(hash, states, events, n, Unchoking(r.peerId));
    hide Step, Enabled, IsSchedule, Sound, Trace, SetLast, ClearedWithin;
    SignalIff(hash, states, events, n, Connection(r.peerId));
    SignalIff(hash, states, events, n, Holding(r.peerId, r.pieceId));
  }
}
