/** What a leecher and a seeder of the same torrent send each other, and the way it takes
    (src/peer_protocol.rs, lines 63-113, 133-153, 201-240 and 242-370). */
module Exchange {
  import opened Config
  import opened IoPrimitives
  import opened Storage
  import opened Codec
  import opened Framing
  import opened TorrentState
  import opened Geometry
  import opened Runs
  import opened PeerProtocol
  import opened Rerequest
  import opened Convergence

  /** The torrent both sides have the description of. The leecher is peer `client` of the
      seeder, the seeder is peer `server` of the leecher. */
  datatype Setup = Setup(hash: Hash, original: seq<byte>, pieceLength: nat, n: nat, client: nat, server: nat)

  /** A torrent whose piece numbers and block offsets fit the messages. */
  predicate Sensible(t: Setup) {
    0 < t.n <= U32_RANGE && Cuttable(|t.original|, t.pieceLength, t.n) &&
    forall i :: 0 <= i < t.n ==> PieceLen(|t.original|, t.pieceLength, t.n, i) <= U32_RANGE
  }

  /** A download of that torrent. */
  predicate Laid(t: Setup, s: State) {
    WellFormed(s) && |s.content| == |t.original| && s.pieceLength == t.pieceLength && |s.pieces| == t.n
  }

  // ---------- blocks, requests and replies of a torrent, whatever the state ----------

  predicate IsBlock(t: Setup, i: nat, b: nat) {
    Cuttable(|t.original|, t.pieceLength, t.n) && i < t.n &&
    b < CeilDiv(PieceLen(|t.original|, t.pieceLength, t.n, i), BLOCK_SIZE)
  }

  function At(t: Setup, i: nat, b: nat): nat { i * t.pieceLength + b * BLOCK_SIZE }

  function Len(t: Setup, i: nat, b: nat): nat {
    if At(t, i, b) <= |t.original| then Min(|t.original| - At(t, i, b), BLOCK_SIZE) else 0
  }

  lemma BlockFits(t: Setup, i: nat, b: nat)
    requires Sensible(t) && IsBlock(t, i, b)
    ensures At(t, i, b) + Len(t, i, b) <= |t.original| && 0 < Len(t, i, b) <= BLOCK_SIZE
    ensures i < U32_RANGE && b * BLOCK_SIZE < U32_RANGE && b * BLOCK_SIZE / BLOCK_SIZE == b
  {
    PieceFits(|t.original|, t.pieceLength, t.n, i);
    BlockCount(PieceLen(|t.original|, t.pieceLength, t.n, i));
  }

  function Ask(t: Setup, i: nat, b: nat): (m: Message)
    requires Sensible(t) && IsBlock(t, i, b)
    ensures FieldsFit(m)
  {
    BlockFits(t, i, b);
    Request(i, b * BLOCK_SIZE, Len(t, i, b))
  }

  function Filed(t: Setup, i: nat, b: nat): IncomingBlockRequest {
    IncomingBlockRequest(t.client, b * BLOCK_SIZE, Len(t, i, b), i)
  }

  function Reply(t: Setup, i: nat, b: nat): (m: Message)
    requires Sensible(t) && IsBlock(t, i, b)
    ensures FieldsFit(m)
  {
    BlockFits(t, i, b);
    Piece(i, b * BLOCK_SIZE, t.original[At(t, i, b)..At(t, i, b) + Len(t, i, b)])
  }

  /** Every download of the torrent has these blocks in these places. */
  lemma BlockLaid(t: Setup, s: State, i: nat, b: nat)
    requires Sensible(t) && Laid(t, s)
    ensures InPieces(s, i, b) <==> IsBlock(t, i, b)
    ensures IsBlock(t, i, b) ==>
              BlockAt(s, i, b).offset == b * BLOCK_SIZE && BlockAt(s, i, b).len == Len(t, i, b) &&
              BlockStart(s, i, b) == At(t, i, b)
  {
    if i < |s.pieces| {
      assert PieceShaped(|s.content|, s.pieceLength, |s.pieces|, i, s.pieces[i]);
    }
  }

  lemma RequestIsAsk(t: Setup, s: State, i: nat, b: nat)
    requires Sensible(t) && Laid(t, s) && IsBlock(t, i, b)
    ensures InPieces(s, i, b) && RequestFor(s, i, b) == Ask(t, i, b)
  {
    BlockLaid(t, s, i, b);
    BlockFits(t, i, b);
  }

  /** A request filed at any earlier moment can be served, and the reply is the block. */
  lemma FiledIsServed(t: Setup, seeder: State, i: nat, b: nat)
    requires Sensible(t) && IsBlock(t, i, b)
    requires seeder.content == t.original && seeder.pieceLength == t.pieceLength
    ensures Servable(seeder, Filed(t, i, b)) && ReplyTo(seeder, Filed(t, i, b)) == Reply(t, i, b)
  {
    BlockFits(t, i, b);
  }

  /** Whatever happened in between, the reply is an honest delivery for the leecher as it is now. */
  lemma ReplyIsHonest(t: Setup, leecher: State, i: nat, b: nat)
    requires Sensible(t) && Laid(t, leecher) && IsBlock(t, i, b) && t.server < |leecher.peers|
    ensures InPieces(leecher, i, b) && BlockStart(leecher, i, b) + BlockAt(leecher, i, b).len <= |t.original|
    ensures HonestMessage(leecher, t.server, i, b, t.original) == Deliver(t.server, Known(Reply(t, i, b)))
    ensures Enabled(leecher, Deliver(t.server, Known(Reply(t, i, b))))
  {
    BlockLaid(t, leecher, i, b);
    BlockFits(t, i, b);
    HonestAccepted(leecher, t.server, i, b, t.original);
  }

  // ---------- what travels ----------

  /** Messages about the state of the connection and of the sender. */
  predicate Status(t: Setup, m: Message) {
    match m
    case Unchoke => true
    case Interested => true
    case Have(i) => i < t.n
    case Bitfield(bytes) => |bytes| == CeilDiv(t.n, 8)
    case _ => false
  }

  predicate UpMessage(t: Setup, m: Message)
    requires Sensible(t)
  {
    Status(t, m) ||
    (m.Request? && IsBlock(t, m.piece, m.begin / BLOCK_SIZE) && m == Ask(t, m.piece, m.begin / BLOCK_SIZE))
  }

  /** A seeder's bitfield announces every piece. */
  predicate Announces(t: Setup, m: Message) {
    m.Bitfield? ==> forall i :: 0 <= i < t.n && i / 8 < |m.bytes| ==> HasBit(m.bytes, i)
  }

  predicate DownMessage(t: Setup, m: Message)
    requires Sensible(t)
  {
    (Status(t, m) && Announces(t, m)) ||
    (m.Piece? && IsBlock(t, m.index, m.offset / BLOCK_SIZE) && m == Reply(t, m.index, m.offset / BLOCK_SIZE))
  }

  predicate UpPayload(t: Setup, payload: seq<byte>)
    requires Sensible(t)
  {
    |payload| < U32_RANGE && Readable(payload) && Decode(payload).Known? && UpMessage(t, Decode(payload).message)
  }

  predicate DownPayload(t: Setup, payload: seq<byte>)
    requires Sensible(t)
  {
    |payload| < U32_RANGE && Readable(payload) && Decode(payload).Known? && DownMessage(t, Decode(payload).message)
  }

  lemma StatusFits(t: Setup, m: Message)
    requires Sensible(t) && Status(t, m)
    ensures FieldsFit(m) && |Payload(m)| < U32_RANGE && Readable(Payload(m)) && Decode(Payload(m)) == Known(m)
  {
    DecodePayload(m);
  }

  lemma AskTravels(t: Setup, i: nat, b: nat)
    requires Sensible(t) && IsBlock(t, i, b)
    ensures UpPayload(t, Payload(Ask(t, i, b))) && Decode(Payload(Ask(t, i, b))) == Known(Ask(t, i, b))
  {
    BlockFits(t, i, b);
    DecodePayload(Ask(t, i, b));
  }

  lemma ReplyTravels(t: Setup, i: nat, b: nat)
    requires Sensible(t) && IsBlock(t, i, b)
    ensures DownPayload(t, Payload(Reply(t, i, b))) && Decode(Payload(Reply(t, i, b))) == Known(Reply(t, i, b))
  {
    BlockFits(t, i, b);
    DecodePayload(Reply(t, i, b));
    hide Len, At;
  }

  /** One direction of the connection: bytes written and not yet arrived, payloads read and
      not yet handled, and, for the record, the payloads written and not yet read. */
  datatype Channel = Channel(transit: seq<byte>, unread: seq<seq<byte>>, mail: seq<seq<byte>>)

  function Posted(ch: Channel, payloads: seq<seq<byte>>): Channel {
    ch.(transit := ch.transit + Encode(payloads), unread := ch.unread + payloads)
  }

  function Landed(ch: Channel, k: nat): Channel
    requires k <= |ch.transit|
  {
    ch.(transit := ch.transit[k..])
  }

  /** After a call that returned `r`. */
  function Read(ch: Channel, r: Received): Channel {
    ch.(unread := if FramesOf(r) != [] && ch.unread != [] then ch.unread[1..] else ch.unread,
        mail := if r.Complete? then ch.mail + [r.payload] else ch.mail)
  }

  function Handled(ch: Channel): Channel
    requires ch.mail != []
  {
    ch.(mail := ch.mail[1..])
  }

  /** The bytes on the way and in the receiver are those of the payloads not yet read. */
  predicate Flows(w: Wire, ch: Channel) {
    Ready(w) && !w.closed && Framable(ch.unread) && Pending(w, ch.transit) == Encode(ch.unread)
  }

  lemma PostedFlows(w: Wire, ch: Channel, payloads: seq<seq<byte>>)
    requires Flows(w, ch) && Framable(payloads)
    ensures Flows(w, Posted(ch, payloads))
  {
    EncodeAppend(ch.unread, payloads);
    hide Encode, U32Digits, Ready;
    var start := if w.next == 0 then [] else U32Digits(w.next) + w.buf;
    assert start + w.inbox + (ch.transit + Encode(payloads)) == (start + w.inbox + ch.transit) + Encode(payloads);
  }

  lemma LandedFlows(w: Wire, ch: Channel, k: nat)
    requires Flows(w, ch) && k <= |ch.transit|
    ensures Flows(w.(inbox := w.inbox + ch.transit[..k]), Landed(ch, k))
  {
    ArrivalKept(w, ch.transit[..k], ch.transit[k..]);
    assert ch.transit == ch.transit[..k] + ch.transit[k..];
  }

  /** A call returns the next unread payload or nothing. */
  lemma ReadFlows(w: Wire, ch: Channel)
    requires Flows(w, ch) && PrefixWhole(w) && [] !in ch.unread
    ensures var (w', r) := Receive(w);
            Flows(w', Read(ch, r)) && !r.Keepalive? &&
            (r.Complete? ==> ch.unread != [] && r.payload == ch.unread[0])
  {
    var (w', r) := Receive(w);
    ReadyKept(w);
    NothingLostIff(w, ch.transit);
    assert !w'.closed;
    assert Framable(FramesOf(r));
    hide Encode, Pending, PrefixWhole, Ready, Receive;
    CutUnique(FramesOf(r), Pending(w', ch.transit), ch.unread);
    if FramesOf(r) != [] {
      assert ch.unread[0] == FramesOf(r)[0];
    } else {
      assert ch.unread[0..] == ch.unread;
    }
  }
}
