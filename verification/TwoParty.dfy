/** A leecher and a seeder over one connection: schedules, requests, replies and everything
    else interleaved (src/main_loop.rs, lines 408-428 and 465-566; src/peer_protocol.rs,
    lines 63-113, 133-153, 201-240 and 242-370). */
module TwoParty {
  import opened Config
  import opened Wrappers
  import opened IoPrimitives
  import opened Codec
  import opened Framing
  import opened TorrentState
  import opened Geometry
  import opened Runs
  import opened Safety
  import opened PeerProtocol
  import opened Rerequest
  import opened Accounting
  import opened Convergence
  import opened Exchange

  // ---------- the two parties ----------

  /** `asked` remembers the blocks the leecher has requested from the seeder since their piece
      last failed its check and on the connection there is now. */
  datatype System = System(leecher: State, seeder: State, up: Channel, down: Channel, asked: set<(nat, nat)>)

  datatype Act =
    | Schedule(now: nat, reqs: seq<BlockRequest>)  // decide_block_requests, and the requests are sent
    | LeecherTells(m: Message)                     // a have, bitfield, unchoke or interested message is sent
    | SeederTells(m: Message)
    | UpArrives(n: nat)                            // the next bytes reach the seeder's socket
    | DownArrives(n: nat)
    | SeederReads                                  // one call of receive_message
    | LeecherReads
    | SeederHandles                                // process_message on the next collected message
    | LeecherHandles
    | Answer                                       // the seeder drains its queue and sends the blocks
    | LeecherElse(e: Event)                        // anything that does not touch this connection
    | SeederElse(e: Event)
    | Reconnect(leecherNoticed: bool, seederNoticed: bool)  // the connection is lost and there is a new one

  /** Both sides have the connection. */
  predicate Linked(t: Setup, sys: System) {
    Connected(sys.leecher, t.server) && Connected(sys.seeder, t.client)
  }

  predicate Connected(s: State, p: nat) {
    p < |s.peers| && s.peers[p].stream.Some? && Ready(WireOf(s.peers[p]))
  }

  predicate Understood(mail: seq<seq<byte>>) { mail != [] && Readable(mail[0]) }

  /** What the act is for the leecher. */
  function LeecherEvent(t: Setup, sys: System, a: Act): Option<Event>
    requires Linked(t, sys)
  {
    var w := WireOf(sys.leecher.peers[t.server]);
    match a
    case Schedule(now, reqs) => Some(Issue(now, reqs))
    case DownArrives(n) =>
      if n <= |sys.down.transit| then Some(Transport(t.server, w.(inbox := w.inbox + sys.down.transit[..n]))) else None
    case LeecherReads => Some(Transport(t.server, Receive(w).0))
    case LeecherHandles =>
      if Understood(sys.down.mail) then Some(Deliver(t.server, Decode(sys.down.mail[0]))) else None
    case LeecherElse(e) => Some(e)
    case _ => None
  }

  /** What the act is for the seeder. */
  function SeederEvent(t: Setup, sys: System, a: Act): Option<Event>
    requires Linked(t, sys)
  {
    var w := WireOf(sys.seeder.peers[t.client]);
    match a
    case UpArrives(n) =>
      if n <= |sys.up.transit| then Some(Transport(t.client, w.(inbox := w.inbox + sys.up.transit[..n]))) else None
    case SeederReads => Some(Transport(t.client, Receive(w).0))
    case SeederHandles =>
      if Understood(sys.up.mail) then Some(Deliver(t.client, Decode(sys.up.mail[0]))) else None
    case Answer => Some(Serve)
    case SeederElse(e) => Some(e)
    case _ => None
  }

  predicate Elsewhere(e: Event, p: nat) {
    match e
    case Deliver(q, _) => q != p
    case Transport(q, _) => q != p
    case Break(q) => q != p
    case Open(q, _) => q != p
    case _ => true
  }

  /** A message from another peer that is handled without a panic and without harm to what is
      marked: it is in range, a request can be served, and a block is original or overlaps no
      other marked piece. */
  ghost predicate Tolerable(t: Setup, s: State, e: Event)
    requires Enabled(s, e)
  {
    (IsPieceMessage(e) ==> DeliversOriginal(s, e, t.original) || Contained(s, e)) &&
    (e.Deliver? && e.m.Known? && e.m.message.Request? ==> Servable(s, FiledBy(e.peer, e.m.message)))
  }

  /** A new connection is read as it is sent: the end of the old one was noticed, or no message of
      it was half received. */
  predicate Resumable(w: Wire, noticed: bool) { noticed || w.next == 0 }

  /** What the surroundings may do: the network delivers in order and no read meets a partly
      arrived prefix; other peers send only what is tolerable, and to the seeder no blocks; the
      seeder itself asks for nothing. Serving is not assumed to go well. */
  ghost predicate Offered(t: Setup, sys: System, a: Act) {
    Linked(t, sys) &&
    match a
    case Schedule(now, reqs) => Enabled(sys.leecher, Issue(now, reqs))
    case LeecherTells(m) => Status(t, m)
    case SeederTells(m) => Status(t, m) && Announces(t, m)
    case UpArrives(n) => n <= |sys.up.transit|
    case DownArrives(n) => n <= |sys.down.transit|
    case SeederReads => PrefixWhole(WireOf(sys.seeder.peers[t.client]))
    case LeecherReads => PrefixWhole(WireOf(sys.leecher.peers[t.server]))
    case SeederHandles => sys.up.mail != []
    case LeecherHandles => sys.down.mail != []
    case Answer => true
    case LeecherElse(e) =>
      if e.Serve? then forall k :: 0 <= k < |sys.leecher.pending| ==> sys.leecher.pending[k].peerId != t.server
      else Elsewhere(e, t.server) && !e.Issue? && Enabled(sys.leecher, e) && Tolerable(t, sys.leecher, e)
    case Reconnect(leecherNoticed, seederNoticed) =>
      Resumable(WireOf(sys.leecher.peers[t.server]), leecherNoticed) &&
      Resumable(WireOf(sys.seeder.peers[t.client]), seederNoticed)
    case SeederElse(e) =>
      Elsewhere(e, t.client) && !e.Serve? && !e.Issue? && !IsPieceMessage(e) && Enabled(sys.seeder, e) &&
      Tolerable(t, sys.seeder, e)
  }

  /** The act makes no piece of the leecher pass its check on wrong bytes. */
  ghost predicate Genuine(t: Setup, sys: System, a: Act)
    requires Linked(t, sys)
  {
    var e := LeecherEvent(t, sys, a);
    e.Some? && Enabled(sys.leecher, e.value) ==> Unfooled(t.hash, sys.leecher, e.value, t.original)
  }

  ghost predicate Possible(t: Setup, sys: System, a: Act) { Offered(t, sys, a) && Genuine(t, sys, a) }

  /** The next message the leecher handles makes a piece pass its check on wrong bytes. */
  ghost predicate Fooled(t: Setup, sys: System) {
    Linked(t, sys) && sys.down.mail != [] && !Genuine(t, sys, LeecherHandles)
  }

  function FiledBy(peer: nat, m: Message): IncomingBlockRequest
    requires m.Request?
  {
    IncomingBlockRequest(peer, m.begin, m.length, m.piece)
  }

  /** Neither client panics: the payload it handles is long enough, the message is in range,
      the requests either of them answers lie inside the torrent. */
  ghost predicate Survives(t: Setup, sys: System, a: Act)
    requires Linked(t, sys)
  {
    (a.SeederHandles? ==> Understood(sys.up.mail)) &&
    (a.LeecherHandles? ==> Understood(sys.down.mail)) &&
    (a.Schedule? ==> RequestsInRange(sys.leecher, a.reqs)) &&
    (a.Answer? ==> forall k :: 0 <= k < |sys.seeder.pending| ==> Servable(sys.seeder, sys.seeder.pending[k])) &&
    (LeecherEvent(t, sys, a).Some? ==> Enabled(sys.leecher, LeecherEvent(t, sys, a).value)) &&
    (SeederEvent(t, sys, a).Some? ==> Enabled(sys.seeder, SeederEvent(t, sys, a).value))
  }

  ghost function After(hash: Hash, s: State, e: Option<Event>): State
    requires e.Some? ==> Enabled(s, e.value)
  {
    if e.Some? then Step(hash, s, e.value) else s
  }

  /** The end of the connection to peer `p`, if it is noticed, and a new connection. */
  ghost function Reopened(hash: Hash, s: State, p: nat, noticed: bool): State
    requires p < |s.peers|
  {
    Connect(if noticed then BreakConnection(s, p) else s, p, Stream([], false))
  }

  ghost function LeecherAfter(t: Setup, sys: System, a: Act): State
    requires Linked(t, sys) && Survives(t, sys, a)
  {
    if a.Reconnect? then Reopened(t.hash, sys.leecher, t.server, a.leecherNoticed)
    else After(t.hash, sys.leecher, LeecherEvent(t, sys, a))
  }

  ghost function SeederAfter(t: Setup, sys: System, a: Act): State
    requires Linked(t, sys) && Survives(t, sys, a)
  {
    if a.Reconnect? then Reopened(t.hash, sys.seeder, t.client, a.seederNoticed)
    else After(t.hash, sys.seeder, SeederEvent(t, sys, a))
  }

  /** What was collected before the connection was lost is still handled, the rest is gone. */
  function Cut(ch: Channel): Channel { Channel([], [], ch.mail) }

  /** The payloads of the first `n` requests that go to the seeder. */
  function AsksTo(s: State, reqs: seq<BlockRequest>, server: nat, n: nat): seq<seq<byte>>
    requires RequestsInRange(s, reqs) && n <= |reqs|
  {
    if n == 0 then []
    else if reqs[n - 1].peerId == server then
      AsksTo(s, reqs, server, n - 1) + [Payload(RequestFor(s, reqs[n - 1].pieceId, reqs[n - 1].blockId))]
    else AsksTo(s, reqs, server, n - 1)
  }

  function BlocksAsked(reqs: seq<BlockRequest>, server: nat): set<(nat, nat)> {
    set k | 0 <= k < |reqs| && reqs[k].peerId == server :: (reqs[k].pieceId, reqs[k].blockId)
  }

  /** The payloads of the answers to the leecher's among the first `n` queued requests. */
  function AnswersTo(s: State, client: nat, n: nat): seq<seq<byte>>
    requires n <= |s.pending| && forall k :: 0 <= k < n ==> Servable(s, s.pending[k])
  {
    if n == 0 then []
    else if s.pending[n - 1].peerId == client then
      AnswersTo(s, client, n - 1) + [Payload(ReplyTo(s, s.pending[n - 1]))]
    else AnswersTo(s, client, n - 1)
  }

  ghost function UpAfter(t: Setup, sys: System, a: Act): Channel
    requires Possible(t, sys, a) && Survives(t, sys, a)
  {
    match a
    case Schedule(now, reqs) => Posted(sys.up, AsksTo(sys.leecher, reqs, t.server, |reqs|))
    case LeecherTells(m) => Posted(sys.up, if FieldsFit(m) then [Payload(m)] else [])
    case UpArrives(n) => Landed(sys.up, n)
    case SeederReads => Read(sys.up, Receive(WireOf(sys.seeder.peers[t.client])).1)
    case SeederHandles => Handled(sys.up)
    case Reconnect(_, _) => Cut(sys.up)
    case _ => sys.up
  }

  ghost function DownAfter(t: Setup, sys: System, a: Act): Channel
    requires Possible(t, sys, a) && Survives(t, sys, a)
  {
    match a
    case Answer => Posted(sys.down, AnswersTo(sys.seeder, t.client, |sys.seeder.pending|))
    case SeederTells(m) => Posted(sys.down, if FieldsFit(m) then [Payload(m)] else [])
    case DownArrives(n) => Landed(sys.down, n)
    case LeecherReads => Read(sys.down, Receive(WireOf(sys.leecher.peers[t.server])).1)
    case LeecherHandles => Handled(sys.down)
    case Reconnect(_, _) => Cut(sys.down)
    case _ => sys.down
  }

  ghost function Next(t: Setup, sys: System, a: Act): System
    requires Possible(t, sys, a) && Survives(t, sys, a)
  {
    System(LeecherAfter(t, sys, a), SeederAfter(t, sys, a), UpAfter(t, sys, a), DownAfter(t, sys, a),
           AskedAfter(t, sys, a))
  }

  /** The act makes piece `i` of the leecher fail its check. */
  predicate FailsAt(t: Setup, sys: System, a: Act, i: nat)
    requires Linked(t, sys)
  {
    LeecherEvent(t, sys, a).Some? && HashFails(t.hash, sys.leecher, LeecherEvent(t, sys, a).value, i)
  }

  /** A request is forgotten when its piece fails its check, and all are when the connection is
      lost: the blocks have to be asked for again. */
  function AskedAfter(t: Setup, sys: System, a: Act): set<(nat, nat)>
    requires Linked(t, sys)
  {
    if a.Schedule? then sys.asked + BlocksAsked(a.reqs, t.server)
    else if a.Reconnect? then {}
    else set x | x in sys.asked && !FailsAt(t, sys, a, x.0)
  }

  // ---------- the invariant ----------

  ghost predicate LeecherFine(t: Setup, s: State) {
    Recoverable(t.hash, s, t.original) && Bounded(s) && Laid(t, s) && Connected(s, t.server) &&
    forall k :: 0 <= k < |s.pending| ==> Servable(s, s.pending[k])
  }

  predicate PendingFine(t: Setup, s: State, r: IncomingBlockRequest) {
    if r.peerId == t.client then
      IsBlock(t, r.pieceId, r.begin / BLOCK_SIZE) && r == Filed(t, r.pieceId, r.begin / BLOCK_SIZE)
    else Servable(s, r)
  }

  ghost predicate SeederFine(t: Setup, s: State) {
    Sound(s) && Laid(t, s) && s.content == t.original && Connected(s, t.client) &&
    forall k :: 0 <= k < |s.pending| ==> PendingFine(t, s, s.pending[k])
  }

  predicate AllUp(t: Setup, payloads: seq<seq<byte>>)
    requires Sensible(t)
  {
    forall k :: 0 <= k < |payloads| ==> UpPayload(t, payloads[k])
  }

  predicate AllDown(t: Setup, payloads: seq<seq<byte>>)
    requires Sensible(t)
  {
    forall k :: 0 <= k < |payloads| ==> DownPayload(t, payloads[k])
  }

  predicate UpFine(t: Setup, w: Wire, ch: Channel)
    requires Sensible(t)
  {
    Flows(w, ch) && AllUp(t, ch.unread) && AllUp(t, ch.mail)
  }

  predicate DownFine(t: Setup, w: Wire, ch: Channel)
    requires Sensible(t)
  {
    Flows(w, ch) && AllDown(t, ch.unread) && AllDown(t, ch.mail)
  }

  /** A requested block is downloaded, or its request or its reply is somewhere on the way. */
  predicate Located(t: Setup, sys: System, i: nat, b: nat)
    requires Sensible(t)
  {
    IsBlock(t, i, b) &&
    (Got(sys.leecher, i, b) ||
     Payload(Ask(t, i, b)) in sys.up.unread || Payload(Ask(t, i, b)) in sys.up.mail ||
     Filed(t, i, b) in sys.seeder.pending ||
     Payload(Reply(t, i, b)) in sys.down.unread || Payload(Reply(t, i, b)) in sys.down.mail)
  }

  ghost predicate Inv(t: Setup, sys: System) {
    Sensible(t) && LeecherFine(t, sys.leecher) && SeederFine(t, sys.seeder) &&
    UpFine(t, WireOf(sys.seeder.peers[t.client]), sys.up) &&
    DownFine(t, WireOf(sys.leecher.peers[t.server]), sys.down) &&
    forall i: nat, b: nat :: (i, b) in sys.asked ==> Located(t, sys, i, b)
  }

  /** Where it starts: a download on track, a seeder with the content, a new connection. */
  lemma InitiallyInv(t: Setup, leecher: State, seeder: State)
    requires Sensible(t) && LeecherFine(t, leecher) && SeederFine(t, seeder)
    requires WireOf(leecher.peers[t.server]) == WireOf(seeder.peers[t.client]) == Wire([], false, [], 0)
    ensures Inv(t, System(leecher, seeder, Channel([], [], []), Channel([], [], []), {}))
  {
  }

  /** What the invariant says about the connection. */
  lemma InvChannels(t: Setup, sys: System)
    requires Inv(t, sys)
    ensures Sensible(t) && Linked(t, sys)
    ensures Flows(WireOf(sys.seeder.peers[t.client]), sys.up) && AllUp(t, sys.up.unread) && AllUp(t, sys.up.mail)
    ensures Flows(WireOf(sys.leecher.peers[t.server]), sys.down)
    ensures AllDown(t, sys.down.unread) && AllDown(t, sys.down.mail)
    ensures [] !in sys.up.unread && [] !in sys.down.unread
  {
    AllUpFramable(t, sys.up.unread);
    AllDownFramable(t, sys.down.unread);
  }

  // ---------- what an event does to one peer ----------

  lemma OthersKeepPeer(hash: Hash, s: State, e: Event, p: nat)
    requires Enabled(s, e) && p < |s.peers| && Elsewhere(e, p)
    ensures var s' := Step(hash, s, e);
            p < |s'.peers| && s'.peers[p] == s.peers[p].(outstanding := s'.peers[p].outstanding)
  {
    hide FinishedPiece, AllDone;
  }

  lemma DeliveryKeepsWire(hash: Hash, s: State, p: nat, m: Incoming)
    requires MessageInRange(s, p, m)
    ensures var s' := ReceiveMessage(hash, s, p, m);
            p < |s'.peers| && WireOf(s'.peers[p]) == WireOf(s.peers[p]) &&
            s'.peers[p].stream == s.peers[p].stream
  {
  }

  /** The event is not the end of the connection with peer `p`. */
  predicate KeepsLink(e: Event, p: nat) {
    Elsewhere(e, p) || e.Deliver? || (e.Transport? && Ready(e.wire))
  }

  lemma LinkKept(hash: Hash, s: State, e: Event, p: nat)
    requires Enabled(s, e) && Connected(s, p) && KeepsLink(e, p)
    ensures var s' := Step(hash, s, e);
            Connected(s', p) &&
            WireOf(s'.peers[p]) == if e.Transport? && e.peer == p then e.wire else WireOf(s.peers[p])
  {
    if Elsewhere(e, p) {
      OthersKeepPeer(hash, s, e, p);
    } else if e.Deliver? {
      DeliveryKeepsWire(hash, s, p, e.m);
    }
  }

  lemma LeecherKept(t: Setup, s: State, e: Event)
    requires LeecherFine(t, s) && Enabled(s, e) && KeepsLink(e, t.server) && Tolerable(t, s, e)
    requires Unfooled(t.hash, s, e, t.original)
    ensures LeecherFine(t, Step(t.hash, s, e))
  {
    var s' := Step(t.hash, s, e);
    StepRecoverable(t.hash, s, e, t.original);
    StepKeepsBounded(t.hash, s, e);
    LinkKept(t.hash, s, e, t.server);
    StepKeepsPieceLength(t.hash, s, e);
    RecoverableSize(t.hash, s, t.original);
    RecoverableSize(t.hash, s', t.original);
    hide Step, Recoverable, Enabled, Connected, Bounded, WellFormed, Unfooled;
    PendingAfter(t.hash, s, e);
    forall k | 0 <= k < |s'.pending| ensures Servable(s', s'.pending[k]) {
      assert Servable(s, s'.pending[k]);
    }
  }

  /** A new connection changes nothing but the connection. */
  lemma ReopenedKeeps(hash: Hash, s: State, p: nat, noticed: bool)
    requires Sound(s) && Connected(s, p) && Resumable(WireOf(s.peers[p]), noticed)
    ensures var s' := Reopened(hash, s, p, noticed);
            Sound(s') && Connected(s', p) && WireOf(s'.peers[p]) == Wire([], false, [], 0) &&
            s' == s.(peers := s'.peers) && |s'.peers| == |s.peers|
  {
    var s1 := if noticed then BreakConnection(s, p) else s;
    if noticed {
      StepSound(hash, s, Break(p));
    }
    StepSound(hash, s1, Open(p, Stream([], false)));
    hide Sound;
  }

  lemma ReopenedBounded(hash: Hash, s: State, p: nat, noticed: bool)
    requires Bounded(s) && p < |s.peers|
    ensures Bounded(Reopened(hash, s, p, noticed))
  {
    var s1 := if noticed then BreakConnection(s, p) else s;
    if noticed {
      StepKeepsBounded(hash, s, Break(p));
    }
    StepKeepsBounded(hash, s1, Open(p, Stream([], false)));
    hide Bounded;
  }

  lemma RecoverableSize(hash: Hash, s: State, original: seq<byte>)
    requires Recoverable(hash, s, original)
    ensures WellFormed(s) && |s.content| == |original|
  {
  }

  lemma SeederKept(t: Setup, s: State, e: Event)
    requires SeederFine(t, s) && Enabled(s, e) && KeepsLink(e, t.client) && !IsPieceMessage(e)
    requires e.Deliver? && e.m.Known? && e.m.message.Request? ==> PendingFine(t, s, FiledBy(e.peer, e.m.message))
    ensures SeederFine(t, Step(t.hash, s, e))
  {
    var s' := Step(t.hash, s, e);
    StepSound(t.hash, s, e);
    LinkKept(t.hash, s, e, t.client);
    OtherEventsKeepContent(t.hash, s, e);
    PendingAfter(t.hash, s, e);
    hide Step, Enabled, Connected;
    forall k | 0 <= k < |s'.pending| ensures PendingFine(t, s', s'.pending[k]) {
      assert PendingFine(t, s, s'.pending[k]);
    }
  }

  /** A request is filed last in the queue, with its sender and fields; serving empties the queue, and
      nothing else changes it. */
  lemma PendingAfter(hash: Hash, s: State, e: Event)
    requires Enabled(s, e)
    ensures Step(hash, s, e).pending ==
            if e.Serve? then []
            else if e.Deliver? && e.m.Known? && e.m.message.Request? then
              var m := e.m.message;
              s.pending + [IncomingBlockRequest(e.peer, m.begin, m.length, m.piece)]
            else s.pending
  {
  }

  // ---------- nobody panics ----------

  lemma UpInRange(t: Setup, s: State, payload: seq<byte>)
    requires Sensible(t) && SeederFine(t, s) && UpPayload(t, payload)
    ensures Enabled(s, Deliver(t.client, Decode(payload)))
    ensures var m := Decode(payload).message;
            !m.Piece? && (m.Request? ==> PendingFine(t, s, FiledBy(t.client, m)))
  {
    assert PeerSound(s, s.peers[t.client]);
  }

  /** The event delivers no corrupt data. */
  ghost predicate Honest(t: Setup, s: State, e: Event) { IsPieceMessage(e) ==> DeliversOriginal(s, e, t.original) }

  lemma DownInRange(t: Setup, s: State, payload: seq<byte>)
    requires Sensible(t) && LeecherFine(t, s) && DownPayload(t, payload)
    ensures var e := Deliver(t.server, Decode(payload));
            Enabled(s, e) && Tolerable(t, s, e) && Honest(t, s, e)
  {
    var m := Decode(payload).message;
    if m.Piece? {
      ReplyIsHonest(t, s, m.index, m.offset / BLOCK_SIZE);
    } else {
      assert PeerSound(s, s.peers[t.server]);
    }
  }

  lemma PendingServable(t: Setup, s: State, k: nat)
    requires Sensible(t) && SeederFine(t, s) && k < |s.pending|
    ensures Servable(s, s.pending[k])
    ensures s.pending[k].peerId == t.client ==>
              var r := s.pending[k];
              IsBlock(t, r.pieceId, r.begin / BLOCK_SIZE) && r == Filed(t, r.pieceId, r.begin / BLOCK_SIZE) &&
              ReplyTo(s, r) == Reply(t, r.pieceId, r.begin / BLOCK_SIZE)
  {
    var r := s.pending[k];
    assert PendingFine(t, s, r);
    if r.peerId == t.client {
      FiledIsServed(t, s, r.pieceId, r.begin / BLOCK_SIZE);
    }
  }

  /** Whatever the surroundings do, the seeder survives its part of it... */
  lemma SeederSurvives(t: Setup, sys: System, a: Act)
    requires Inv(t, sys) && Offered(t, sys, a)
    ensures a.SeederHandles? ==> Understood(sys.up.mail)
    ensures a.Answer? ==> forall k :: 0 <= k < |sys.seeder.pending| ==> Servable(sys.seeder, sys.seeder.pending[k])
    ensures var e := SeederEvent(t, sys, a);
            e.Some? ==>
              Enabled(sys.seeder, e.value) && KeepsLink(e.value, t.client) && !IsPieceMessage(e.value) &&
              (e.value.Deliver? && e.value.m.Known? && e.value.m.message.Request? ==>
                PendingFine(t, sys.seeder, FiledBy(e.value.peer, e.value.m.message)))
  {
    var w := WireOf(sys.seeder.peers[t.client]);
    match a {
      case UpArrives(n) => LandedFlows(w, sys.up, n);
      case SeederReads => ReadyKept(w);
      case SeederHandles => UpInRange(t, sys.seeder, sys.up.mail[0]);
      case Answer =>
        forall k | 0 <= k < |sys.seeder.pending| ensures Servable(sys.seeder, sys.seeder.pending[k]) {
          PendingServable(t, sys.seeder, k);
        }
      case _ =>
    }
  }

  /** ... and so does the leecher; the blocks it gets from the seeder are original ones. */
  lemma LeecherSurvives(t: Setup, sys: System, a: Act)
    requires Inv(t, sys) && Offered(t, sys, a)
    ensures a.LeecherHandles? ==> Understood(sys.down.mail)
    ensures a.Schedule? ==> RequestsInRange(sys.leecher, a.reqs)
    ensures var e := LeecherEvent(t, sys, a);
            e.Some? ==>
              Enabled(sys.leecher, e.value) && KeepsLink(e.value, t.server) && Tolerable(t, sys.leecher, e.value) &&
              (a.LeecherHandles? ==> Honest(t, sys.leecher, e.value))
  {
    var w := WireOf(sys.leecher.peers[t.server]);
    match a {
      case DownArrives(n) => LandedFlows(w, sys.down, n);
      case LeecherReads => ReadyKept(w);
      case LeecherHandles => DownInRange(t, sys.leecher, sys.down.mail[0]);
      case _ =>
    }
  }

  lemma ActSurvives(t: Setup, sys: System, a: Act)
    requires Inv(t, sys) && Offered(t, sys, a)
    ensures Survives(t, sys, a)
  {
    SeederSurvives(t, sys, a);
    LeecherSurvives(t, sys, a);
    hide Inv, Offered, Enabled, Understood, SeederEvent, LeecherEvent;
  }

  // ---------- every act keeps the invariant ----------

  lemma LeecherReconnects(t: Setup, s: State, noticed: bool)
    requires LeecherFine(t, s) && Resumable(WireOf(s.peers[t.server]), noticed)
    ensures LeecherFine(t, Reopened(t.hash, s, t.server, noticed))
  {
    ReopenedKeeps(t.hash, s, t.server, noticed);
    ReopenedBounded(t.hash, s, t.server, noticed);
    var s' := Reopened(t.hash, s, t.server, noticed);
    hide Reopened, Sound, Bounded, PieceVerified, Trusted;
    forall k | 0 <= k < |s'.pending| ensures Servable(s', s'.pending[k]) {
      assert Servable(s, s.pending[k]);
    }
  }

  lemma SeederReconnects(t: Setup, s: State, noticed: bool)
    requires SeederFine(t, s) && Resumable(WireOf(s.peers[t.client]), noticed)
    ensures SeederFine(t, Reopened(t.hash, s, t.client, noticed))
  {
    ReopenedKeeps(t.hash, s, t.client, noticed);
    var s' := Reopened(t.hash, s, t.client, noticed);
    hide Reopened, Sound;
    forall k | 0 <= k < |s'.pending| ensures PendingFine(t, s', s'.pending[k]) {
      assert PendingFine(t, s, s.pending[k]);
    }
  }

  /** What an act does to the leecher and to the seeder. */
  lemma LeecherNext(t: Setup, sys: System, a: Act)
    requires Possible(t, sys, a) && Survives(t, sys, a)
    ensures Linked(t, sys) &&
            var s, s' := sys.leecher, Next(t, sys, a).leecher;
            var e := LeecherEvent(t, sys, a);
            if a.Reconnect? then
              e.None? && t.server < |s.peers| && Resumable(WireOf(s.peers[t.server]), a.leecherNoticed) &&
              s' == Reopened(t.hash, s, t.server, a.leecherNoticed)
            else if e.Some? then Enabled(s, e.value) && s' == Step(t.hash, s, e.value)
            else s' == s
  {
    hide Genuine, Enabled, Step, Reopened, SeederAfter, UpAfter, DownAfter, AskedAfter, Resumable, Tolerable, Receive;
  }

  lemma SeederNext(t: Setup, sys: System, a: Act)
    requires Possible(t, sys, a) && Survives(t, sys, a)
    ensures Linked(t, sys) &&
            var s, s' := sys.seeder, Next(t, sys, a).seeder;
            var e := SeederEvent(t, sys, a);
            if a.Reconnect? then
              e.None? && t.client < |s.peers| && Resumable(WireOf(s.peers[t.client]), a.seederNoticed) &&
              s' == Reopened(t.hash, s, t.client, a.seederNoticed)
            else if e.Some? then Enabled(s, e.value) && s' == Step(t.hash, s, e.value)
            else s' == s
  {
    hide Genuine, Enabled, Step, Reopened, LeecherAfter, UpAfter, DownAfter, AskedAfter, Resumable, Tolerable, Receive;
  }

  lemma EventGenuine(t: Setup, sys: System, a: Act)
    requires Possible(t, sys, a) && Survives(t, sys, a) && LeecherEvent(t, sys, a).Some?
    ensures Enabled(sys.leecher, LeecherEvent(t, sys, a).value)
    ensures Unfooled(t.hash, sys.leecher, LeecherEvent(t, sys, a).value, t.original)
  {
    hide LeecherEvent, Offered, Enabled, Unfooled;
  }

  lemma PartiesKept(t: Setup, sys: System, a: Act)
    requires Inv(t, sys) && Possible(t, sys, a) && Survives(t, sys, a)
    ensures LeecherFine(t, Next(t, sys, a).leecher) && SeederFine(t, Next(t, sys, a).seeder)
  {
    SeederSurvives(t, sys, a);
    LeecherSurvives(t, sys, a);
    LeecherNext(t, sys, a);
    SeederNext(t, sys, a);
    var e, f := LeecherEvent(t, sys, a), SeederEvent(t, sys, a);
    if e.Some? {
      EventGenuine(t, sys, a);
    }
    hide Possible, Survives, Next, Enabled, LeecherFine, SeederFine, SeederEvent, LeecherEvent, UpFine, DownFine,
         Unfooled, Reopened, Step, Resumable;
    if a.Reconnect? {
      LeecherReconnects(t, sys.leecher, a.leecherNoticed);
      SeederReconnects(t, sys.seeder, a.seederNoticed);
    }
    if e.Some? {
      LeecherKept(t, sys.leecher, e.value);
    }
    if f.Some? {
      SeederKept(t, sys.seeder, f.value);
    }
  }

  lemma {:induction false} AsksTravel(t: Setup, s: State, reqs: seq<BlockRequest>, n: nat)
    requires Sensible(t) && Laid(t, s) && RequestsInRange(s, reqs) && n <= |reqs|
    ensures AllUp(t, AsksTo(s, reqs, t.server, n))
    ensures forall k :: 0 <= k < n && reqs[k].peerId == t.server ==>
              IsBlock(t, reqs[k].pieceId, reqs[k].blockId) &&
              Payload(Ask(t, reqs[k].pieceId, reqs[k].blockId)) in AsksTo(s, reqs, t.server, n)
  {
    hide Laid, UpPayload, Payload, RequestFor, IsBlock;
    if n != 0 {
      AsksTravel(t, s, reqs, n - 1);
      var i, b := reqs[n - 1].pieceId, reqs[n - 1].blockId;
      BlockLaid(t, s, i, b);
      RequestIsAsk(t, s, i, b);
      AskTravels(t, i, b);
    }
  }

  lemma {:induction false} AnswersTravel(t: Setup, s: State, n: nat)
    requires Sensible(t) && SeederFine(t, s) && n <= |s.pending|
    requires forall k :: 0 <= k < n ==> Servable(s, s.pending[k])
    ensures AllDown(t, AnswersTo(s, t.client, n))
    ensures forall i: nat, b: nat :: IsBlock(t, i, b) && Filed(t, i, b) in s.pending[..n] ==>
              Payload(Reply(t, i, b)) in AnswersTo(s, t.client, n)
  {
    hide SeederFine, DownPayload, Payload, ReplyTo, IsBlock, Servable;
    if n != 0 {
      AnswersTravel(t, s, n - 1);
      PendingServable(t, s, n - 1);
      var r := s.pending[n - 1];
      assert s.pending[..n] == s.pending[..n - 1] + [r];
      if r.peerId == t.client {
        ReplyTravels(t, r.pieceId, r.begin / BLOCK_SIZE);
      }
      forall i: nat, b: nat | IsBlock(t, i, b) && Filed(t, i, b) == r
        ensures Payload(Reply(t, i, b)) in AnswersTo(s, t.client, n)
      {
        BlockFits(t, i, b);
      }
    }
  }

  lemma AllUpFramable(t: Setup, payloads: seq<seq<byte>>)
    requires Sensible(t) && AllUp(t, payloads)
    ensures Framable(payloads) && [] !in payloads
  {
  }

  lemma AllDownFramable(t: Setup, payloads: seq<seq<byte>>)
    requires Sensible(t) && AllDown(t, payloads)
    ensures Framable(payloads) && [] !in payloads
  {
  }

  lemma UpPosted(t: Setup, w: Wire, ch: Channel, payloads: seq<seq<byte>>)
    requires Sensible(t) && UpFine(t, w, ch) && AllUp(t, payloads)
    ensures UpFine(t, w, Posted(ch, payloads))
  {
    AllUpFramable(t, payloads);
    PostedFlows(w, ch, payloads);
    hide Flows, UpPayload;
  }

  lemma DownPosted(t: Setup, w: Wire, ch: Channel, payloads: seq<seq<byte>>)
    requires Sensible(t) && DownFine(t, w, ch) && AllDown(t, payloads)
    ensures DownFine(t, w, Posted(ch, payloads))
  {
    AllDownFramable(t, payloads);
    PostedFlows(w, ch, payloads);
    hide Flows, DownPayload;
  }

  lemma UpRead(t: Setup, w: Wire, ch: Channel)
    requires Sensible(t) && UpFine(t, w, ch) && PrefixWhole(w)
    ensures UpFine(t, Receive(w).0, Read(ch, Receive(w).1))
  {
    AllUpFramable(t, ch.unread);
    ReadFlows(w, ch);
    hide Flows, UpPayload, Receive;
  }

  lemma DownRead(t: Setup, w: Wire, ch: Channel)
    requires Sensible(t) && DownFine(t, w, ch) && PrefixWhole(w)
    ensures DownFine(t, Receive(w).0, Read(ch, Receive(w).1))
  {
    AllDownFramable(t, ch.unread);
    ReadFlows(w, ch);
    hide Flows, DownPayload, Receive;
  }

  lemma StatusTravels(t: Setup, m: Message)
    requires Sensible(t) && Status(t, m)
    ensures FieldsFit(m) && AllUp(t, [Payload(m)]) && (Announces(t, m) ==> AllDown(t, [Payload(m)]))
  {
    StatusFits(t, m);
    hide Payload, Decode, Readable;
  }

  lemma UpLanded(t: Setup, w: Wire, ch: Channel, n: nat)
    requires Sensible(t) && UpFine(t, w, ch) && n <= |ch.transit|
    ensures UpFine(t, w.(inbox := w.inbox + ch.transit[..n]), Landed(ch, n))
  {
    LandedFlows(w, ch, n);
    hide Flows, UpPayload;
  }

  lemma DownLanded(t: Setup, w: Wire, ch: Channel, n: nat)
    requires Sensible(t) && DownFine(t, w, ch) && n <= |ch.transit|
    ensures DownFine(t, w.(inbox := w.inbox + ch.transit[..n]), Landed(ch, n))
  {
    LandedFlows(w, ch, n);
    hide Flows, DownPayload;
  }

  lemma UpHandled(t: Setup, w: Wire, ch: Channel)
    requires Sensible(t) && UpFine(t, w, ch)
    ensures ch.mail != [] ==> UpFine(t, w, Handled(ch))
    ensures UpFine(t, Wire([], false, [], 0), Cut(ch))
  {
    hide UpPayload, U32Digits;
  }

  lemma DownHandled(t: Setup, w: Wire, ch: Channel)
    requires Sensible(t) && DownFine(t, w, ch)
    ensures ch.mail != [] ==> DownFine(t, w, Handled(ch))
    ensures DownFine(t, Wire([], false, [], 0), Cut(ch))
  {
    hide DownPayload, U32Digits;
  }

  /** The seeder's receive state after an act. */
  function SeederWire(t: Setup, sys: System, a: Act): Wire
    requires Linked(t, sys)
  {
    var w := WireOf(sys.seeder.peers[t.client]);
    match a
    case UpArrives(n) => if n <= |sys.up.transit| then w.(inbox := w.inbox + sys.up.transit[..n]) else w
    case SeederReads => Receive(w).0
    case Reconnect(_, _) => Wire([], false, [], 0)
    case _ => w
  }

  lemma SeederRewired(t: Setup, s: State, noticed: bool)
    requires SeederFine(t, s) && Resumable(WireOf(s.peers[t.client]), noticed)
    ensures var s' := Reopened(t.hash, s, t.client, noticed);
            t.client < |s'.peers| && WireOf(s'.peers[t.client]) == Wire([], false, [], 0)
  {
    ReopenedKeeps(t.hash, s, t.client, noticed);
  }

  lemma LeecherRewired(t: Setup, s: State, noticed: bool)
    requires LeecherFine(t, s) && Resumable(WireOf(s.peers[t.server]), noticed)
    ensures var s' := Reopened(t.hash, s, t.server, noticed);
            t.server < |s'.peers| && WireOf(s'.peers[t.server]) == Wire([], false, [], 0)
  {
    ReopenedKeeps(t.hash, s, t.server, noticed);
  }

  lemma SeederWireAfter(t: Setup, sys: System, a: Act)
    requires Inv(t, sys) && Possible(t, sys, a) && Survives(t, sys, a)
    ensures var s' := Next(t, sys, a).seeder;
            t.client < |s'.peers| && WireOf(s'.peers[t.client]) == SeederWire(t, sys, a)
  {
    SeederSurvives(t, sys, a);
    InvChannels(t, sys);
    SeederNext(t, sys, a);
    InvSeeder(t, sys);
    hide Inv, Step, Enabled, Flows, AllUp, AllDown, Tolerable, Honest, Possible, Survives, Next, Reopened, Receive,
         LeecherFine, SeederFine;
    var e := SeederEvent(t, sys, a);
    if a.Reconnect? {
      SeederRewired(t, sys.seeder, a.seederNoticed);
    } else if e.Some? {
      LinkKept(t.hash, sys.seeder, e.value, t.client);
    }
  }

  /** What an act puts on the way up, and why it can. */
  lemma UpFacts(t: Setup, sys: System, a: Act)
    requires Possible(t, sys, a) && Survives(t, sys, a)
    ensures Linked(t, sys) &&
            var up := UpAfter(t, sys, a);
            match a
            case Schedule(_, reqs) =>
              RequestsInRange(sys.leecher, reqs) && up == Posted(sys.up, AsksTo(sys.leecher, reqs, t.server, |reqs|))
            case LeecherTells(m) =>
              Status(t, m) && up == Posted(sys.up, if FieldsFit(m) then [Payload(m)] else [])
            case UpArrives(n) => n <= |sys.up.transit| && up == Landed(sys.up, n)
            case SeederReads =>
              PrefixWhole(WireOf(sys.seeder.peers[t.client])) &&
              up == Read(sys.up, Receive(WireOf(sys.seeder.peers[t.client])).1)
            case SeederHandles => sys.up.mail != [] && up == Handled(sys.up)
            case Reconnect(_, _) => up == Cut(sys.up)
            case _ => up == sys.up
  {
    hide Genuine, Step, Enabled, Tolerable, Payload, Posted, Read, Landed, Handled, Receive, PrefixWhole, Resumable;
  }

  lemma DownFacts(t: Setup, sys: System, a: Act)
    requires Possible(t, sys, a) && Survives(t, sys, a)
    ensures Linked(t, sys) &&
            var s, down := sys.seeder, DownAfter(t, sys, a);
            match a
            case Answer =>
              (forall k :: 0 <= k < |s.pending| ==> Servable(s, s.pending[k])) &&
              down == Posted(sys.down, AnswersTo(s, t.client, |s.pending|))
            case SeederTells(m) =>
              Status(t, m) && Announces(t, m) && down == Posted(sys.down, if FieldsFit(m) then [Payload(m)] else [])
            case DownArrives(n) => n <= |sys.down.transit| && down == Landed(sys.down, n)
            case LeecherReads =>
              PrefixWhole(WireOf(sys.leecher.peers[t.server])) &&
              down == Read(sys.down, Receive(WireOf(sys.leecher.peers[t.server])).1)
            case LeecherHandles => sys.down.mail != [] && down == Handled(sys.down)
            case Reconnect(_, _) => down == Cut(sys.down)
            case _ => down == sys.down
  {
    hide Genuine, Step, Enabled, Tolerable, Payload, Posted, Read, Landed, Handled, Receive, PrefixWhole, Resumable;
  }

  lemma UpKept(t: Setup, sys: System, a: Act)
    requires Inv(t, sys) && Possible(t, sys, a) && Survives(t, sys, a)
    ensures UpFine(t, SeederWire(t, sys, a), UpAfter(t, sys, a))
  {
    var w := WireOf(sys.seeder.peers[t.client]);
    UpFacts(t, sys, a);
    InvChannels(t, sys);
    assert UpFine(t, w, sys.up);
    hide Possible, Survives, UpAfter, PrefixWhole, Receive, UpFine, Status, Payload, Posted, Read, Landed, Handled, Cut;
    match a {
      case Schedule(now, reqs) =>
        AsksFromLeecher(t, sys, reqs);
        hide Inv, RequestsInRange;
        UpPosted(t, w, sys.up, AsksTo(sys.leecher, reqs, t.server, |reqs|));
      case LeecherTells(m) =>
        hide Inv;
        StatusTravels(t, m);
        UpPosted(t, w, sys.up, [Payload(m)]);
      case UpArrives(n) =>
        hide Inv;
        UpLanded(t, w, sys.up, n);
      case SeederReads =>
        hide Inv;
        UpRead(t, w, sys.up);
      case SeederHandles =>
        hide Inv;
        UpHandled(t, w, sys.up);
      case Reconnect(_, _) =>
        hide Inv;
        UpHandled(t, w, sys.up);
      case _ => hide Inv;
    }
  }

  lemma AsksFromLeecher(t: Setup, sys: System, reqs: seq<BlockRequest>)
    requires Inv(t, sys) && RequestsInRange(sys.leecher, reqs)
    ensures AllUp(t, AsksTo(sys.leecher, reqs, t.server, |reqs|))
  {
    AsksTravel(t, sys.leecher, reqs, |reqs|);
  }

  /** The leecher's receive state after an act. */
  function LeecherWire(t: Setup, sys: System, a: Act): Wire
    requires Linked(t, sys)
  {
    var w := WireOf(sys.leecher.peers[t.server]);
    match a
    case DownArrives(n) => if n <= |sys.down.transit| then w.(inbox := w.inbox + sys.down.transit[..n]) else w
    case LeecherReads => Receive(w).0
    case Reconnect(_, _) => Wire([], false, [], 0)
    case _ => w
  }

  lemma LeecherWireAfter(t: Setup, sys: System, a: Act)
    requires Inv(t, sys) && Possible(t, sys, a) && Survives(t, sys, a)
    ensures var s' := Next(t, sys, a).leecher;
            t.server < |s'.peers| && WireOf(s'.peers[t.server]) == LeecherWire(t, sys, a)
  {
    LeecherSurvives(t, sys, a);
    InvChannels(t, sys);
    LeecherNext(t, sys, a);
    InvLeecher(t, sys);
    hide Inv, Step, Enabled, Flows, AllUp, AllDown, Tolerable, Honest, Possible, Survives, Next, Reopened, Receive,
         LeecherFine, SeederFine;
    var e := LeecherEvent(t, sys, a);
    if a.Reconnect? {
      LeecherRewired(t, sys.leecher, a.leecherNoticed);
    } else if e.Some? {
      LinkKept(t.hash, sys.leecher, e.value, t.server);
    }
  }

  lemma DownKept(t: Setup, sys: System, a: Act)
    requires Inv(t, sys) && Possible(t, sys, a) && Survives(t, sys, a)
    ensures DownFine(t, LeecherWire(t, sys, a), DownAfter(t, sys, a))
  {
    var w := WireOf(sys.leecher.peers[t.server]);
    DownFacts(t, sys, a);
    InvChannels(t, sys);
    InvSeeder(t, sys);
    assert DownFine(t, w, sys.down);
    hide Inv, Possible, Survives, DownAfter, PrefixWhole, Receive, DownFine, Status, Payload, Posted, Read, Landed,
         Handled, Cut, SeederFine, Servable;
    match a {
      case Answer =>
        AnswersTravel(t, sys.seeder, |sys.seeder.pending|);
        DownPosted(t, w, sys.down, AnswersTo(sys.seeder, t.client, |sys.seeder.pending|));
      case SeederTells(m) =>
        StatusTravels(t, m);
        DownPosted(t, w, sys.down, [Payload(m)]);
      case DownArrives(n) => DownLanded(t, w, sys.down, n);
      case LeecherReads => DownRead(t, w, sys.down);
      case LeecherHandles => DownHandled(t, w, sys.down);
      case Reconnect(_, _) => DownHandled(t, w, sys.down);
      case _ =>
    }
  }

  // ---------- no request and no reply is lost ----------

  lemma ReadKeeps(w: Wire, ch: Channel, x: seq<byte>)
    requires Flows(w, ch) && PrefixWhole(w) && [] !in ch.unread && x in ch.unread
    ensures var ch' := Read(ch, Receive(w).1); x in ch'.unread || x in ch'.mail
  {
    ReadFlows(w, ch);
    hide Flows, Receive, PrefixWhole;
    assert ch.unread == [ch.unread[0]] + ch.unread[1..];
  }

  lemma HandledKeeps(ch: Channel, x: seq<byte>)
    requires x in ch.mail
    ensures x == ch.mail[0] || x in Handled(ch).mail
  {
    assert ch.mail == [ch.mail[0]] + ch.mail[1..];
  }

  lemma GotKept(t: Setup, sys: System, a: Act, i: nat, b: nat)
    requires Inv(t, sys) && Possible(t, sys, a) && Survives(t, sys, a) && Got(sys.leecher, i, b)
    requires !FailsAt(t, sys, a, i)
    ensures Got(Next(t, sys, a).leecher, i, b)
  {
    var e := LeecherEvent(t, sys, a);
    LeecherNext(t, sys, a);
    hide LeecherEvent, Inv, Step, HashFails, Possible, Survives, Next, Enabled;
    if a.Reconnect? {
      ReopenedDistance(t, sys.leecher, a.leecherNoticed);
      hide Reopened;
    } else if e.Some? {
      DownloadedStep(t.hash, sys.leecher, e.value, i, b);
    }
  }

  lemma AskMoves(t: Setup, sys: System, a: Act, i: nat, b: nat)
    requires !a.Reconnect? && Inv(t, sys) && Possible(t, sys, a) && Survives(t, sys, a) && IsBlock(t, i, b)
    requires Payload(Ask(t, i, b)) in sys.up.unread || Payload(Ask(t, i, b)) in sys.up.mail
    ensures Located(t, Next(t, sys, a), i, b)
  {
    hide Inv, Payload, Ask, Step, Flows, AllUp, AllDown;
    InvChannels(t, sys);
    var x := Payload(Ask(t, i, b));
    var sys' := Next(t, sys, a);
    AskTravels(t, i, b);
    BlockFits(t, i, b);
    if a.SeederReads? && x in sys.up.unread {
      ReadKeeps(WireOf(sys.seeder.peers[t.client]), sys.up, x);
    } else if a.SeederHandles? && x in sys.up.mail {
      HandledKeeps(sys.up, x);
      if x == sys.up.mail[0] {
        AskFiled(t, sys.seeder, x, i, b);
      }
    }
  }

  lemma AskFiled(t: Setup, s: State, x: seq<byte>, i: nat, b: nat)
    requires Sensible(t) && IsBlock(t, i, b) && Readable(x) && Decode(x) == Known(Ask(t, i, b))
    requires Enabled(s, Deliver(t.client, Decode(x)))
    ensures Filed(t, i, b) in Step(t.hash, s, Deliver(t.client, Decode(x))).pending
  {
    PendingAfter(t.hash, s, Deliver(t.client, Decode(x)));
    BlockFits(t, i, b);
    var queue := s.pending + [Filed(t, i, b)];
    assert queue[|s.pending|] == Filed(t, i, b);
  }

  lemma InvSeeder(t: Setup, sys: System)
    requires Inv(t, sys)
    ensures Sensible(t) && SeederFine(t, sys.seeder)
  {
  }

  lemma FiledMoves(t: Setup, sys: System, a: Act, i: nat, b: nat)
    requires Inv(t, sys) && Possible(t, sys, a) && Survives(t, sys, a) && IsBlock(t, i, b)
    requires Filed(t, i, b) in sys.seeder.pending
    ensures Located(t, Next(t, sys, a), i, b)
  {
    InvSeeder(t, sys);
    ChannelsAfter(t, sys, a);
    hide Inv, Step, Filed, SeederFine, Payload, Reply, Next, Enabled, Ask, Got, Posted, Encode;
    var s := sys.seeder;
    if a.Answer? {
      AnswersTravel(t, s, |s.pending|);
      assert s.pending[..|s.pending|] == s.pending;
      PostedHas(sys.down, AnswersTo(s, t.client, |s.pending|), Payload(Reply(t, i, b)));
    } else {
      PendingStays(t, sys, a, Filed(t, i, b));
    }
  }

  lemma PostedHas(ch: Channel, payloads: seq<seq<byte>>, x: seq<byte>)
    requires x in payloads
    ensures x in Posted(ch, payloads).unread
  {
    hide Encode;
  }

  lemma PendingStays(t: Setup, sys: System, a: Act, r: IncomingBlockRequest)
    requires Possible(t, sys, a) && Survives(t, sys, a) && !a.Answer? && r in sys.seeder.pending
    ensures r in Next(t, sys, a).seeder.pending
  {
    var e := SeederEvent(t, sys, a);
    hide Step, Enabled, UpAfter, DownAfter, Tolerable, Receive, FailsAt;
    if e.Some? {
      PendingAfter(t.hash, sys.seeder, e.value);
    }
  }

  /** What is on the way to the leecher stays on the way until it is handled. */
  lemma DownCarries(t: Setup, sys: System, a: Act, x: seq<byte>)
    requires !a.Reconnect? && Inv(t, sys) && Possible(t, sys, a) && Survives(t, sys, a)
    requires x in sys.down.unread || x in sys.down.mail
    ensures var down := Next(t, sys, a).down;
            x in down.unread || x in down.mail ||
            (a.LeecherHandles? && sys.down.mail != [] && x == sys.down.mail[0])
  {
    InvChannels(t, sys);
    ChannelsAfter(t, sys, a);
    hide Inv, Next, Flows, AllUp, AllDown, Encode, Receive, PrefixWhole, AnswersTo, Tolerable, Enabled;
    if a.LeecherHandles? && x in sys.down.mail {
      HandledKeeps(sys.down, x);
    } else if a.LeecherReads? && x in sys.down.unread {
      ReadKeeps(WireOf(sys.leecher.peers[t.server]), sys.down, x);
    }
  }

  lemma ReplyMoves(t: Setup, sys: System, a: Act, i: nat, b: nat)
    requires Inv(t, sys) && Possible(t, sys, a) && Survives(t, sys, a) && IsBlock(t, i, b)
    requires Payload(Reply(t, i, b)) in sys.down.unread || Payload(Reply(t, i, b)) in sys.down.mail
    requires !FailsAt(t, sys, a, i) && !a.Reconnect?
    ensures Located(t, Next(t, sys, a), i, b)
  {
    InvChannels(t, sys);
    var x := Payload(Reply(t, i, b));
    DownCarries(t, sys, a, x);
    hide Inv, Payload, Reply, Flows, AllUp, AllDown, Next, Possible, Survives, Enabled, FailsAt, Got;
    if a.LeecherHandles? && sys.down.mail != [] && x == sys.down.mail[0] {
      ReplyHandled(t, sys, i, b);
    }
  }

  lemma ReplyHandled(t: Setup, sys: System, i: nat, b: nat)
    requires Inv(t, sys) && Possible(t, sys, LeecherHandles) && Survives(t, sys, LeecherHandles) && IsBlock(t, i, b)
    requires sys.down.mail != [] && sys.down.mail[0] == Payload(Reply(t, i, b))
    requires !FailsAt(t, sys, LeecherHandles, i)
    ensures Got(Next(t, sys, LeecherHandles).leecher, i, b)
  {
    InvLeecher(t, sys);
    InvLinked(t, sys);
    LeecherNext(t, sys, LeecherHandles);
    ReplyTravels(t, i, b);
    PayloadReadable(t, sys.down.mail[0]);
    assert LeecherEvent(t, sys, LeecherHandles) == Some(Deliver(t.server, Known(Reply(t, i, b)))) by {
      hide Payload, Reply, Readable, Decode, IsBlock;
    }
    hide Inv, Payload, Reply, Step, LeecherFine, Decode, HashFails, Next, Got, Possible, Survives, Enabled, Linked,
         LeecherEvent, IsBlock;
    ReplyMarks(t, sys.leecher, i, b);
  }

  lemma InvLinked(t: Setup, sys: System)
    requires Inv(t, sys)
    ensures Sensible(t) && Linked(t, sys)
  {
  }

  lemma ReplyMarks(t: Setup, s: State, i: nat, b: nat)
    requires Sensible(t) && LeecherFine(t, s) && IsBlock(t, i, b)
    requires !HashFails(t.hash, s, Deliver(t.server, Known(Reply(t, i, b))), i)
    ensures var e := Deliver(t.server, Known(Reply(t, i, b)));
            Enabled(s, e) && Got(Step(t.hash, s, e), i, b)
  {
    ReplyIsHonest(t, s, i, b);
    hide Reply, Step, HashFails;
    HonestMarks(t.hash, s, t.server, i, b, t.original, i, b);
  }

  lemma LocatedKept(t: Setup, sys: System, a: Act, i: nat, b: nat)
    requires Inv(t, sys) && Possible(t, sys, a) && Survives(t, sys, a) && Located(t, sys, i, b)
    requires !FailsAt(t, sys, a, i) && !a.Reconnect?
    ensures Located(t, Next(t, sys, a), i, b)
  {
    assert Sensible(t) && IsBlock(t, i, b);
    hide Inv, Possible, Survives, Next, Payload, Ask, Reply, Filed, Got, FailsAt;
    if Got(sys.leecher, i, b) {
      GotKept(t, sys, a, i, b);
    } else if Payload(Ask(t, i, b)) in sys.up.unread || Payload(Ask(t, i, b)) in sys.up.mail {
      AskMoves(t, sys, a, i, b);
    } else if Filed(t, i, b) in sys.seeder.pending {
      FiledMoves(t, sys, a, i, b);
    } else {
      ReplyMoves(t, sys, a, i, b);
    }
  }

  lemma AskedLocated(t: Setup, sys: System, a: Act, i: nat, b: nat)
    requires Inv(t, sys) && Possible(t, sys, a) && Survives(t, sys, a) && (i, b) in Next(t, sys, a).asked
    ensures Located(t, Next(t, sys, a), i, b)
  {
    if (i, b) in sys.asked {
      if a.Schedule? {
        assert !FailsAt(t, sys, a, i);
      } else {
        assert (i, b) in AskedAfter(t, sys, a);
      }
      LocatedKept(t, sys, a, i, b);
    } else {
      AsksTravel(t, sys.leecher, a.reqs, |a.reqs|);
    }
  }

  lemma ChannelsAfter(t: Setup, sys: System, a: Act)
    requires Possible(t, sys, a) && Survives(t, sys, a)
    ensures Next(t, sys, a).up == UpAfter(t, sys, a) && Next(t, sys, a).down == DownAfter(t, sys, a)
  {
  }

  /** The invariant is kept by every act, and neither side panics at it. */
  lemma ActKeeps(t: Setup, sys: System, a: Act)
    requires Inv(t, sys) && Possible(t, sys, a)
    ensures Survives(t, sys, a) && Inv(t, Next(t, sys, a))
  {
    ActSurvives(t, sys, a);
    PartiesKept(t, sys, a);
    SeederWireAfter(t, sys, a);
    LeecherWireAfter(t, sys, a);
    ChannelsAfter(t, sys, a);
    UpKept(t, sys, a);
    DownKept(t, sys, a);
    hide Possible, Survives, Next, Located, UpFine, DownFine, LeecherFine, SeederFine, SeederWire, LeecherWire,
         UpAfter, DownAfter;
    var sys' := Next(t, sys, a);
    forall i: nat, b: nat | (i, b) in sys'.asked ensures Located(t, sys', i, b) {
      AskedLocated(t, sys, a, i, b);
    }
  }

  // ---------- whole runs ----------

  /** The acts can happen one after the other and lead from one system to the other. */
  ghost predicate Run(t: Setup, sys: System, acts: seq<Act>, sys': System)
    decreases |acts|
  {
    if acts == [] then sys' == sys
    else
      Possible(t, sys, acts[0]) && Survives(t, sys, acts[0]) && Run(t, Next(t, sys, acts[0]), acts[1..], sys')
  }

  lemma {:induction false} RunKeeps(t: Setup, sys: System, acts: seq<Act>, sys': System)
    requires Inv(t, sys) && Run(t, sys, acts, sys')
    ensures Inv(t, sys')
    decreases |acts|
  {
    hide Inv, Possible, Survives, Next;
    if acts != [] {
      ActKeeps(t, sys, acts[0]);
      RunKeeps(t, Next(t, sys, acts[0]), acts[1..], sys');
    }
  }

  /** Wherever a run leads, whatever the surroundings do next, neither client panics: every
      message is understood, in range and answerable. */
  lemma NeverPanics(t: Setup, sys: System, acts: seq<Act>, sys': System, a: Act)
    requires Inv(t, sys) && Run(t, sys, acts, sys') && Offered(t, sys', a)
    ensures Survives(t, sys', a)
  {
    RunKeeps(t, sys, acts, sys');
    ActSurvives(t, sys', a);
  }

  /** A direction of the connection is a queue of payloads: sending appends, arriving and
      reading leave it alone, handling takes the first. */
  function Queue(ch: Channel): seq<seq<byte>> { ch.mail + ch.unread }

  lemma PostedQueue(ch: Channel, payloads: seq<seq<byte>>)
    ensures Queue(Posted(ch, payloads)) == Queue(ch) + payloads
  {
  }

  lemma HandledQueue(ch: Channel)
    requires ch.mail != []
    ensures Queue(ch) != [] && Queue(ch)[0] == ch.mail[0] && Queue(Handled(ch)) == Queue(ch)[1..]
  {
  }

  lemma LandedQueue(ch: Channel, k: nat)
    requires k <= |ch.transit|
    ensures Queue(Landed(ch, k)) == Queue(ch)
  {
  }

  lemma CutQueue(ch: Channel)
    ensures Queue(Cut(ch)) == ch.mail && ch.mail <= Queue(ch)
  {
  }

  lemma UpIsQueue(t: Setup, sys: System, a: Act)
    requires Inv(t, sys) && Possible(t, sys, a) && Survives(t, sys, a)
    ensures var before, after := Queue(sys.up), Queue(Next(t, sys, a).up);
            match a
            case Schedule(_, reqs) => after == before + AsksTo(sys.leecher, reqs, t.server, |reqs|)
            case LeecherTells(m) => FieldsFit(m) && after == before + [Payload(m)]
            case SeederHandles =>
              before != [] && after == before[1..] &&
              SeederEvent(t, sys, a) == Some(Deliver(t.client, Decode(before[0])))
            case Reconnect(_, _) => after == sys.up.mail && after <= before
            case _ => after == before
  {
    ChannelsAfter(t, sys, a);
    AllUpFramable(t, sys.up.unread);
    hide LeecherFine, SeederFine, DownFine, Next, Flows, Payload, AllUp, AsksTo, Queue, Posted, Landed, Read, Handled,
         Enabled, Cut, Genuine;
    match a {
      case Schedule(_, reqs) => PostedQueue(sys.up, AsksTo(sys.leecher, reqs, t.server, |reqs|));
      case LeecherTells(m) =>
        StatusFits(t, m);
        PostedQueue(sys.up, [Payload(m)]);
      case UpArrives(n) => LandedQueue(sys.up, n);
      case SeederReads => ReadKeepsQueue(WireOf(sys.seeder.peers[t.client]), sys.up);
      case SeederHandles => HandledQueue(sys.up);
      case Reconnect(_, _) => CutQueue(sys.up);
      case _ =>
    }
  }

  lemma DownIsQueue(t: Setup, sys: System, a: Act)
    requires Inv(t, sys) && Possible(t, sys, a) && Survives(t, sys, a)
    ensures var before, after := Queue(sys.down), Queue(Next(t, sys, a).down);
            match a
            case Answer => after == before + AnswersTo(sys.seeder, t.client, |sys.seeder.pending|)
            case SeederTells(m) => FieldsFit(m) && after == before + [Payload(m)]
            case LeecherHandles =>
              before != [] && after == before[1..] &&
              LeecherEvent(t, sys, a) == Some(Deliver(t.server, Decode(before[0])))
            case Reconnect(_, _) => after == sys.down.mail && after <= before
            case _ => after == before
  {
    ChannelsAfter(t, sys, a);
    AllDownFramable(t, sys.down.unread);
    hide LeecherFine, SeederFine, UpFine, Next, Flows, Payload, AllDown, AnswersTo, Queue, Posted, Landed, Read,
         Handled, Enabled, Cut, Genuine;
    match a {
      case Answer => PostedQueue(sys.down, AnswersTo(sys.seeder, t.client, |sys.seeder.pending|));
      case SeederTells(m) =>
        StatusFits(t, m);
        PostedQueue(sys.down, [Payload(m)]);
      case DownArrives(n) => LandedQueue(sys.down, n);
      case LeecherReads => ReadKeepsQueue(WireOf(sys.leecher.peers[t.server]), sys.down);
      case LeecherHandles => HandledQueue(sys.down);
      case Reconnect(_, _) => CutQueue(sys.down);
      case _ =>
    }
  }

  lemma ReadKeepsQueue(w: Wire, ch: Channel)
    requires Flows(w, ch) && PrefixWhole(w) && [] !in ch.unread
    ensures Queue(Read(ch, Receive(w).1)) == Queue(ch)
  {
    ReadFlows(w, ch);
    hide Flows, Receive, PrefixWhole, Encode;
    if ch.unread != [] {
      FirstMoves(ch.mail, ch.unread);
    }
  }

  lemma FirstMoves(mail: seq<seq<byte>>, unread: seq<seq<byte>>)
    requires unread != []
    ensures (mail + [unread[0]]) + unread[1..] == mail + unread
  {
  }

  // ---------- what the leecher gets ----------

  /** Wherever a run leads, the piece messages the leecher handles are honest deliveries:
      whole original blocks, into the download as it is at that moment. */
  lemma HandlesHonestly(t: Setup, start: System, acts: seq<Act>, sys: System)
    requires Inv(t, start) && Run(t, start, acts, sys) && Offered(t, sys, LeecherHandles)
    ensures Understood(sys.down.mail)
    ensures var e := Deliver(t.server, Decode(sys.down.mail[0]));
            IsPieceMessage(e) ==>
              var i, b := e.m.message.index, e.m.message.offset / BLOCK_SIZE;
              InPieces(sys.leecher, i, b) &&
              BlockStart(sys.leecher, i, b) + BlockAt(sys.leecher, i, b).len <= |t.original| &&
              e == HonestMessage(sys.leecher, t.server, i, b, t.original)
  {
    hide Run, Payload, HonestMessage, Inv;
    RunKeeps(t, start, acts, sys);
    InvChannels(t, sys);
    InvLeecher(t, sys);
    assert DownPayload(t, sys.down.mail[0]);
    hide Offered, DownPayload, LeecherFine, Flows;
    PayloadIsHonest(t, sys.leecher, sys.down.mail[0]);
    PayloadReadable(t, sys.down.mail[0]);
  }

  lemma InvLeecher(t: Setup, sys: System)
    requires Inv(t, sys)
    ensures LeecherFine(t, sys.leecher)
  {
  }

  lemma PayloadReadable(t: Setup, payload: seq<byte>)
    requires Sensible(t) && DownPayload(t, payload)
    ensures Readable(payload)
  {
  }

  lemma PayloadIsHonest(t: Setup, s: State, payload: seq<byte>)
    requires Sensible(t) && LeecherFine(t, s) && DownPayload(t, payload)
    ensures var e := Deliver(t.server, Decode(payload));
            IsPieceMessage(e) ==>
              var i, b := e.m.message.index, e.m.message.offset / BLOCK_SIZE;
              InPieces(s, i, b) && BlockStart(s, i, b) + BlockAt(s, i, b).len <= |t.original| &&
              e == HonestMessage(s, t.server, i, b, t.original)
  {
    var m := Decode(payload).message;
    if m.Piece? {
      ReplyIsHonest(t, s, m.index, m.offset / BLOCK_SIZE);
    }
  }

  /** The act brings the leecher no corrupt data from elsewhere. */
  ghost predicate HonestAct(t: Setup, sys: System, a: Act)
    requires Linked(t, sys)
  {
    LeecherEvent(t, sys, a).Some? ==> Honest(t, sys.leecher, LeecherEvent(t, sys, a).value)
  }

  lemma ReopenedDistance(t: Setup, s: State, noticed: bool)
    requires t.server < |s.peers|
    ensures var s' := Reopened(t.hash, s, t.server, noticed);
            Distance(s', t.original) == Distance(s, t.original) && s'.pieces == s.pieces &&
            forall i, b :: Got(s', i, b) <==> Got(s, i, b)
  {
    var s' := Reopened(t.hash, s, t.server, noticed);
    assert s'.pieces == s.pieces && s'.content == s.content;
    hide Reopened, Debt;
    forall j | 0 <= j < |s.pieces| ensures Debt(s', t.original, j) == Debt(s, t.original, j) {
      SameDebt(s, s', t.original, j);
    }
    SameDebts(s, s', t.original, |s.pieces|);
  }

  lemma SameDebt(s: State, s': State, original: seq<byte>, j: nat)
    requires s'.pieces == s.pieces && s'.content == s.content && j < |s.pieces|
    ensures Debt(s', original, j) == Debt(s, original, j)
  {
  }

  /** Whatever corrupt data the leecher holds, such an act never takes it farther from its end.
      If it brings it no nearer, no check failed and no block was gained or lost. */
  lemma DistanceAfter(t: Setup, sys: System, a: Act)
    requires Inv(t, sys) && Possible(t, sys, a) && Survives(t, sys, a) && HonestAct(t, sys, a)
    ensures var s, s' := sys.leecher, Next(t, sys, a).leecher;
            Distance(s', t.original) <= Distance(s, t.original) &&
            (Distance(s', t.original) == Distance(s, t.original) ==>
               (forall i :: !FailsAt(t, sys, a, i)) && forall i, b :: Got(s', i, b) <==> Got(s, i, b))
  {
    var e := LeecherEvent(t, sys, a);
    LeecherNext(t, sys, a);
    InvLeecher(t, sys);
    hide LeecherEvent, Inv, Step, Recoverable, Distance, HashFails, Possible, Survives, Next, Got, Reopened, Resumable,
         Enabled, DeliversOriginal;
    if a.Reconnect? {
      ReopenedDistance(t, sys.leecher, a.leecherNoticed);
    } else if e.Some? {
      StepDistance(t.hash, sys.leecher, e.value, t.original);
    }
  }

  /** Nearer to the end, or no block lost and none gained. */
  ghost predicate NotFarther(t: Setup, sys: System, sys': System) {
    Distance(sys'.leecher, t.original) <= Distance(sys.leecher, t.original) &&
    (Distance(sys'.leecher, t.original) == Distance(sys.leecher, t.original) ==>
       forall i, b :: Got(sys'.leecher, i, b) <==> Got(sys.leecher, i, b))
  }

  /** Nearer to the end, or no block and no request lost and none gained. */
  ghost predicate Advances(t: Setup, sys: System, sys': System) {
    NotFarther(t, sys, sys') &&
    (Distance(sys'.leecher, t.original) == Distance(sys.leecher, t.original) ==> sys.asked <= sys'.asked)
  }

  lemma ActAdvances(t: Setup, sys: System, a: Act)
    requires Inv(t, sys) && Possible(t, sys, a) && Survives(t, sys, a) && HonestAct(t, sys, a)
    ensures NotFarther(t, sys, Next(t, sys, a))
    ensures !a.Reconnect? ==> Advances(t, sys, Next(t, sys, a))
  {
    DistanceAfter(t, sys, a);
    hide Inv, Possible, Survives, Distance, Got, HonestAct, FailsAt, UpAfter, DownAfter, LeecherAfter, SeederAfter;
  }

  lemma AdvancesOn(t: Setup, sys: System, sys1: System, sys2: System)
    requires Advances(t, sys, sys1) && Advances(t, sys1, sys2)
    ensures Advances(t, sys, sys2)
  {
    hide Distance, Got;
  }

  lemma NotFartherOn(t: Setup, sys: System, sys1: System, sys2: System)
    requires NotFarther(t, sys, sys1) && NotFarther(t, sys1, sys2)
    ensures NotFarther(t, sys, sys2)
  {
    hide Distance, Got;
  }

  /** The act brings the leecher a block it misses. */
  predicate Gain(t: Setup, sys: System, a: Act)
    requires Linked(t, sys)
  {
    var e := LeecherEvent(t, sys, a);
    e.Some? && IsPieceMessage(e.value) &&
    !Got(sys.leecher, e.value.m.message.index, e.value.m.message.offset / BLOCK_SIZE)
  }

  /** Without corrupt data, handling a reply lowers the number of missing blocks by one exactly if
      its block was missing; other acts leave it but for deliveries from other peers. */
  lemma MissingAfter(t: Setup, sys: System, a: Act)
    requires Inv(t, sys) && Possible(t, sys, a) && Survives(t, sys, a) && HonestAct(t, sys, a)
    requires OnTrack(t.hash, sys.leecher, t.original)
    ensures var s, s' := sys.leecher, Next(t, sys, a).leecher;
            OnTrack(t.hash, s', t.original) &&
            MissingBlocks(s') == MissingBlocks(s) - if Gain(t, sys, a) then 1 else 0
  {
    var s := sys.leecher;
    var e := LeecherEvent(t, sys, a);
    LeecherNext(t, sys, a);
    InvChannels(t, sys);
    hide LeecherEvent, Inv, Step, Count, Possible, Survives, Next, Reopened, Enabled, DeliversOriginal, Resumable;
    if a.Reconnect? {
      ReopenedOnTrack(t, s, a.leecherNoticed);
    }
    if e.Some? {
      StepOnTrack(t.hash, s, e.value, t.original);
      hide OnTrack;
      if IsPieceMessage(e.value) {
        PieceMissing(t.hash, s, e.value, t.original);
      } else {
        OthersKeepMissing(t.hash, s, e.value);
      }
    }
  }

  lemma ReopenedOnTrack(t: Setup, s: State, noticed: bool)
    requires OnTrack(t.hash, s, t.original) && Connected(s, t.server)
    requires Resumable(WireOf(s.peers[t.server]), noticed)
    ensures OnTrack(t.hash, Reopened(t.hash, s, t.server, noticed), t.original)
    ensures Reopened(t.hash, s, t.server, noticed).pieces == s.pieces
  {
    ReopenedKeeps(t.hash, s, t.server, noticed);
    hide Reopened, Sound, PieceVerified, Clean, TorrentOf;
  }

  lemma PieceMissing(hash: Hash, s: State, e: Event, original: seq<byte>)
    requires OnTrack(hash, s, original) && Enabled(s, e) && IsPieceMessage(e) && DeliversOriginal(s, e, original)
    ensures var i, b := e.m.message.index, e.m.message.offset / BLOCK_SIZE;
            MissingBlocks(Step(hash, s, e)) == MissingBlocks(s) - if Got(s, i, b) then 0 else 1
  {
    var i, b :| InPieces(s, i, b) && BlockStart(s, i, b) + BlockAt(s, i, b).len <= |original| &&
      e == HonestMessage(s, e.peer, i, b, original);
    HonestAccepted(s, e.peer, i, b, original);
    hide Step, Count, HonestMessage, OnTrack, Enabled, BlockData;
    HonestProgressExact(hash, s, e.peer, i, b, original);
  }

  lemma OthersKeepMissing(hash: Hash, s: State, e: Event)
    requires Enabled(s, e) && !IsPieceMessage(e) && Sound(s)
    ensures MissingBlocks(Step(hash, s, e)) == MissingBlocks(s)
  {
    var s' := Step(hash, s, e);
    OtherEventsKeepContent(hash, s, e);
    hide Step, Count, Sound;
    forall i, b | 0 <= i < |s.pieces| && 0 <= b < |s.pieces[i].blocks|
      ensures Missing()(s.pieces[i].blocks[b]) == Missing()(s'.pieces[i].blocks[b])
    {
      assert SameProgress(s.pieces[i], s'.pieces[i]);
      assert s'.pieces[i].blocks[b].(record := None) == s.pieces[i].blocks[b].(record := None);
    }
    forall i | 0 <= i < |s.pieces| ensures |s.pieces[i].blocks| == |s'.pieces[i].blocks| {
      assert SameProgress(s.pieces[i], s'.pieces[i]);
    }
    CountSame(s.pieces, s'.pieces, Missing(), |s.pieces|);
  }

  ghost function Gains(t: Setup, sys: System, acts: seq<Act>, sys': System): nat
    requires Run(t, sys, acts, sys')
    decreases |acts|
  {
    if acts == [] then 0
    else (if Gain(t, sys, acts[0]) then 1 else 0) + Gains(t, Next(t, sys, acts[0]), acts[1..], sys')
  }

  /** No act of the run brings corrupt data. */
  ghost predicate CleanRun(t: Setup, sys: System, acts: seq<Act>, sys': System)
    decreases |acts|
  {
    if acts == [] then sys' == sys
    else
      Possible(t, sys, acts[0]) && Survives(t, sys, acts[0]) && HonestAct(t, sys, acts[0]) &&
      CleanRun(t, Next(t, sys, acts[0]), acts[1..], sys')
  }

  lemma {:induction false} CleanRunIsRun(t: Setup, sys: System, acts: seq<Act>, sys': System)
    requires CleanRun(t, sys, acts, sys')
    ensures Run(t, sys, acts, sys')
    decreases |acts|
  {
    hide Possible, Survives, Next, HonestAct;
    if acts != [] {
      CleanRunIsRun(t, Next(t, sys, acts[0]), acts[1..], sys');
    }
  }

  /** The connection is not lost. */
  predicate Steady(acts: seq<Act>) { forall k :: 0 <= k < |acts| ==> !acts[k].Reconnect? }

  /** So a run without corrupt data never leads away from the end, however often the connection is
      lost, and loses no request while it is not. */
  lemma {:induction false} CleanRunAdvances(t: Setup, sys: System, acts: seq<Act>, sys': System)
    requires Inv(t, sys) && CleanRun(t, sys, acts, sys')
    ensures Inv(t, sys') && NotFarther(t, sys, sys')
    ensures Steady(acts) ==> Advances(t, sys, sys')
    decreases |acts|
  {
    hide Inv, Possible, Survives, Next, HonestAct, Distance, Got;
    if acts != [] {
      ActKeeps(t, sys, acts[0]);
      ActAdvances(t, sys, acts[0]);
      CleanRunAdvances(t, Next(t, sys, acts[0]), acts[1..], sys');
      NotFartherOn(t, sys, Next(t, sys, acts[0]), sys');
      if Steady(acts) {
        hide Advances, NotFarther;
        AdvancesOn(t, sys, Next(t, sys, acts[0]), sys');
      }
    }
  }

  /** Over a run without corrupt data the number of missing blocks falls by exactly the blocks
      gained: none is lost again and none is counted twice. */
  lemma {:induction false} MissingFalls(t: Setup, sys: System, acts: seq<Act>, sys': System)
    requires Inv(t, sys) && CleanRun(t, sys, acts, sys') && OnTrack(t.hash, sys.leecher, t.original)
    ensures Run(t, sys, acts, sys')
    ensures MissingBlocks(sys'.leecher) == MissingBlocks(sys.leecher) - Gains(t, sys, acts, sys')
    decreases |acts|
  {
    if acts != [] {
      MissingAfter(t, sys, acts[0]);
      ActKeeps(t, sys, acts[0]);
      hide Inv, Possible, Survives, Next, MissingBlocks, LeecherEvent, OnTrack, HonestAct;
      MissingFalls(t, Next(t, sys, acts[0]), acts[1..], sys');
    }
  }

  /** Nothing is under way and the seeder has answered all requests. */
  predicate Quiet(sys: System) {
    sys.up == Channel([], [], []) && sys.down == Channel([], [], []) && sys.seeder.pending == []
  }

  /** Then every block requested since its piece last failed is there. */
  lemma QuietMeansGot(t: Setup, sys: System, i: nat, b: nat)
    requires Inv(t, sys) && Quiet(sys) && (i, b) in sys.asked
    ensures IsBlock(t, i, b) && Got(sys.leecher, i, b)
  {
    assert Located(t, sys, i, b);
  }

  /** Convergence over the wire. However requests, replies, corrupt blocks from elsewhere and
      anything else interleave: once nothing is under way and every block is there or has been
      requested since its piece last failed its check, the leecher holds the seeder's content,
      verified and marked downloaded. */
  lemma ExchangeConverges(t: Setup, sys: System, acts: seq<Act>, sys': System)
    requires Inv(t, sys) && Run(t, sys, acts, sys') && Quiet(sys')
    requires forall i: nat, b: nat :: IsBlock(t, i, b) ==> Got(sys'.leecher, i, b) || (i, b) in sys'.asked
    ensures sys'.leecher.content == sys'.seeder.content == t.original && sys'.leecher.downloaded
    ensures MissingBlocks(sys'.leecher) == 0
    ensures forall i :: 0 <= i < |sys'.leecher.pieces| ==>
              HashMatches(t.hash, sys'.leecher.content, sys'.leecher.pieces[i])
  {
    RunKeeps(t, sys, acts, sys');
    var s := sys'.leecher;
    forall i, b | 0 <= i < |s.pieces| && 0 <= b < |s.pieces[i].blocks| ensures s.pieces[i].blocks[b].downloaded {
      BlockLaid(t, s, i, b);
      if !Got(s, i, b) {
        QuietMeansGot(t, sys', i, b);
      }
    }
    MissingInPieces(s.pieces, |s.pieces|);
    NothingMissingMeansOriginal(t.hash, s, t.original);
  }
}
