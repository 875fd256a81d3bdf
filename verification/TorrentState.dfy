/** The state of one download as a value, and what each step of the client does to it.
    The classes in Download.dfy and the methods over them are proved against this module. */
module TorrentState {
  import opened Config
  import opened Wrappers
  import opened IoPrimitives
  import opened Storage
  import opened Codec
  import opened Framing

  type Sha1 = seq<byte>

  /** SHA-1, of which nothing is assumed. */
  type Hash = seq<byte> -> Sha1

  datatype BlockRequestRecord = BlockRequestRecord(peerId: nat, time: nat)

  /** `offset` counts from the start of the piece. */
  datatype Block = Block(downloaded: bool, offset: nat, len: nat, record: Option<BlockRequestRecord>)

  datatype PieceState = PieceState(downloaded: bool, sha: Sha1, blocks: seq<Block>, offset: nat, len: nat)

  datatype PeerState = PeerState(
    stream: Option<Stream>, buf: seq<byte>, nextMessageLength: nat,
    weInterested: bool, weChoked: bool, theyInterested: bool,
    outstanding: int, hasPiece: seq<bool>)

  /** What the framing of incoming bytes sees of a peer. */
  function WireOf(p: PeerState): Wire {
    match p.stream
    case None => Wire([], false, p.buf, p.nextMessageLength)
    case Some(stream) => Wire(stream.inbox, stream.closed, p.buf, p.nextMessageLength)
  }

  function WithWire(p: PeerState, w: Wire): PeerState {
    p.(stream := Some(Stream(w.inbox, w.closed)), buf := w.buf, nextMessageLength := w.next)
  }

  datatype IncomingBlockRequest = IncomingBlockRequest(peerId: nat, begin: nat, length: nat, pieceId: nat)

  datatype BlockRequest = BlockRequest(peerId: nat, pieceId: nat, blockId: nat)

  /** `content` is the flat byte string the files stand for. */
  datatype State = State(
    content: seq<byte>, pieceLength: nat, pieces: seq<PieceState>, peers: seq<PeerState>,
    pending: seq<IncomingBlockRequest>, recent: seq<nat>, downloaded: bool)

  // ---------- pieces and blocks ----------

  predicate AllBlocks(blocks: seq<Block>) {
    forall b :: 0 <= b < |blocks| ==> blocks[b].downloaded
  }

  predicate AllDone(pieces: seq<PieceState>) {
    forall i :: 0 <= i < |pieces| ==> pieces[i].downloaded || AllBlocks(pieces[i].blocks)
  }

  predicate HashMatches(hash: Hash, content: seq<byte>, p: PieceState) {
    p.offset + p.len <= |content| && hash(content[p.offset..p.offset + p.len]) == p.sha
  }

  function MarkBlock(p: PieceState, b: nat): PieceState
    requires b < |p.blocks|
  {
    var blocks := p.blocks[b := p.blocks[b].(downloaded := true)];
    p.(blocks := blocks, downloaded := p.downloaded || AllBlocks(blocks))
  }

  function ResetPiece(p: PieceState): PieceState {
    p.(downloaded := false,
       blocks := seq(|p.blocks|, b requires 0 <= b < |p.blocks| => p.blocks[b].(downloaded := false)))
  }

  /** `on_piece_done`: a completed piece is kept if its hash matches and reset if not. */
  function CheckedPiece(hash: Hash, content: seq<byte>, p: PieceState): PieceState {
    if HashMatches(hash, content, p) then p else ResetPiece(p)
  }

  /** A piece with block `b` marked and, if that completes it, checked against its hash. */
  function FinishedPiece(hash: Hash, content: seq<byte>, p: PieceState, b: nat): PieceState
    requires b < |p.blocks|
  {
    var marked := MarkBlock(p, b);
    if marked.downloaded then CheckedPiece(hash, content, marked) else marked
  }

  /** `Download::set_block_downloaded`. */
  function FinishBlock(hash: Hash, s: State, i: nat, b: nat): State
    requires i < |s.pieces| && b < |s.pieces[i].blocks|
  {
    var p := FinishedPiece(hash, s.content, s.pieces[i], b);
    var pieces := s.pieces[i := p];
    s.(pieces := pieces,
       recent := if p.downloaded then s.recent + [i] else s.recent,
       downloaded := s.downloaded || AllDone(pieces))
  }

  // ---------- request records ----------

  function WithRecord(pieces: seq<PieceState>, i: nat, b: nat, record: Option<BlockRequestRecord>): seq<PieceState>
    requires i < |pieces| && b < |pieces[i].blocks|
  {
    pieces[i := pieces[i].(blocks := pieces[i].blocks[b := pieces[i].blocks[b].(record := record)])]
  }

  function BlockAt(s: State, i: nat, b: nat): Block
    requires i < |s.pieces| && b < |s.pieces[i].blocks|
  {
    s.pieces[i].blocks[b]
  }

  predicate IsRecordOf(record: Option<BlockRequestRecord>, peer: nat) {
    record.Some? && record.value.peerId == peer
  }

  /** A delivery by the very peer the block was requested from settles the request. */
  function SettleRecord(s: State, peer: nat, i: nat, b: nat): State
    requires peer < |s.peers| && i < |s.pieces| && b < |s.pieces[i].blocks|
  {
    if IsRecordOf(BlockAt(s, i, b).record, peer) then
      var p := s.peers[peer];
      s.(pieces := WithRecord(s.pieces, i, b, None),
         peers := s.peers[peer := p.(outstanding := if p.outstanding > 0 then p.outstanding - 1 else p.outstanding)])
    else s
  }

  // ---------- messages ----------

  /** The piece messages `on_piece` survives: any other makes it panic. */
  predicate PieceInRange(s: State, i: nat, begin: nat, data: seq<byte>) {
    i < |s.pieces| && begin / BLOCK_SIZE < |s.pieces[i].blocks| &&
    i * s.pieceLength + begin < |s.content| && i * s.pieceLength + begin + |data| <= |s.content|
  }

  function ReceivePiece(hash: Hash, s: State, peer: nat, i: nat, begin: nat, data: seq<byte>): State
    requires peer < |s.peers| && PieceInRange(s, i, begin, data)
  {
    var written := s.(content := Splice(s.content, i * s.pieceLength + begin, data));
    var settled := SettleRecord(written, peer, i, begin / BLOCK_SIZE);
    FinishBlock(hash, settled, i, begin / BLOCK_SIZE)
  }

  /** The messages `process_message` survives. */
  predicate MessageInRange(s: State, peer: nat, m: Incoming) {
    peer < |s.peers| &&
    match m
    case Known(Have(i)) => i < |s.peers[peer].hasPiece|
    case Known(Bitfield(bytes)) => CeilDiv(|s.pieces|, 8) <= |bytes|
    case Known(Piece(i, begin, data)) => PieceInRange(s, i, begin, data)
    case _ => true
  }

  /** The requests `send_block` survives. */
  predicate Servable(s: State, r: IncomingBlockRequest) {
    var offset := r.pieceId * s.pieceLength + r.begin;
    offset < |s.content| && offset + r.length <= |s.content|
  }

  function WithPeer(s: State, peer: nat, p: PeerState): State
    requires peer < |s.peers|
  {
    s.(peers := s.peers[peer := p])
  }

  /** `process_message`. */
  function ReceiveMessage(hash: Hash, s: State, peer: nat, m: Incoming): State
    requires MessageInRange(s, peer, m)
  {
    var p := s.peers[peer];
    match m
    case Choke => WithPeer(s, peer, p.(weChoked := true))
    case Known(Unchoke) => WithPeer(s, peer, p.(weChoked := false))
    case Known(Interested) => WithPeer(s, peer, p.(theyInterested := true))
    case NotInterested => WithPeer(s, peer, p.(theyInterested := false))
    case Known(Have(i)) => WithPeer(s, peer, p.(hasPiece := p.hasPiece[i := true]))
    case Known(Bitfield(bytes)) => WithPeer(s, peer, p.(hasPiece := BitfieldFlags(bytes, |s.pieces|)))
    case Known(Request(i, begin, length)) =>
      s.(pending := s.pending + [IncomingBlockRequest(peer, begin, length, i)])
    case Known(Piece(i, begin, data)) => ReceivePiece(hash, s, peer, i, begin, data)
    case Unknown => s
  }

  /** A new receiving state of a peer's socket: bytes arrived, were read, or it was closed. */
  function Socket(s: State, peer: nat, w: Wire): State
    requires peer < |s.peers|
  {
    WithPeer(s, peer, WithWire(s.peers[peer], w))
  }

  // ---------- scheduling, expiry, connections ----------

  predicate RequestsInRange(s: State, reqs: seq<BlockRequest>) {
    forall k :: 0 <= k < |reqs| ==>
      reqs[k].peerId < |s.peers| && reqs[k].pieceId < |s.pieces| &&
      reqs[k].blockId < |s.pieces[reqs[k].pieceId].blocks|
  }

  predicate SameShape(pieces: seq<PieceState>, pieces': seq<PieceState>) {
    |pieces| == |pieces'| && forall i :: 0 <= i < |pieces| ==> |pieces[i].blocks| == |pieces'[i].blocks|
  }

  /** The pieces after the first `n` requests were recorded at time `now`. */
  function Recorded(s: State, reqs: seq<BlockRequest>, now: nat, n: nat): (r: seq<PieceState>)
    requires RequestsInRange(s, reqs) && n <= |reqs|
    ensures SameShape(s.pieces, r)
  {
    if n == 0 then s.pieces
    else
      var r := reqs[n - 1];
      WithRecord(Recorded(s, reqs, now, n - 1), r.pieceId, r.blockId, Some(BlockRequestRecord(r.peerId, now)))
  }

  /** How many of the first `n` requests go to `peer`. */
  function RequestsTo(reqs: seq<BlockRequest>, peer: nat, n: nat): nat
    requires n <= |reqs|
  {
    if n == 0 then 0 else RequestsTo(reqs, peer, n - 1) + if reqs[n - 1].peerId == peer then 1 else 0
  }

  function Reserve(peers: seq<PeerState>, reqs: seq<BlockRequest>): (r: seq<PeerState>)
    ensures |r| == |peers|
  {
    seq(|peers|, p requires 0 <= p < |peers| =>
      peers[p].(outstanding := peers[p].outstanding + RequestsTo(reqs, p, |reqs|)))
  }

  /** What `decide_block_requests` leaves behind when it returns `reqs`. */
  function IssueRequests(s: State, reqs: seq<BlockRequest>, now: nat): State
    requires RequestsInRange(s, reqs)
  {
    s.(pieces := Recorded(s, reqs, now, |reqs|),
       peers := Reserve(s.peers, reqs))
  }

  predicate Expired(b: Block, now: nat) {
    b.record.Some? && now - b.record.value.time > REQUEST_EXPIRATION
  }

  function ExpireBlock(b: Block, now: nat): Block {
    if Expired(b, now) then b.(record := None) else b
  }

  function ExpireBlocks(blocks: seq<Block>, now: nat): (r: seq<Block>)
    ensures |r| == |blocks| && forall b :: 0 <= b < |blocks| ==> r[b] == ExpireBlock(blocks[b], now)
  {
    seq(|blocks|, b requires 0 <= b < |blocks| => ExpireBlock(blocks[b], now))
  }

  function ExpiredPiece(p: PieceState, now: nat): PieceState {
    p.(blocks := ExpireBlocks(p.blocks, now))
  }

  function ExpirePieces(pieces: seq<PieceState>, now: nat): (r: seq<PieceState>)
    ensures |r| == |pieces| && forall i :: 0 <= i < |pieces| ==> r[i] == ExpiredPiece(pieces[i], now)
  {
    seq(|pieces|, i requires 0 <= i < |pieces| => ExpiredPiece(pieces[i], now))
  }

  /** No record lies in the future; otherwise `duration_since` panics. */
  predicate RecordsBefore(s: State, now: nat) {
    forall i, b :: 0 <= i < |s.pieces| && 0 <= b < |s.pieces[i].blocks| && BlockAt(s, i, b).record.Some? ==>
      BlockAt(s, i, b).record.value.time <= now
  }

  function Release(peers: seq<PeerState>, pieces: seq<PieceState>, now: nat): (r: seq<PeerState>)
    ensures |r| == |peers|
  {
    seq(|peers|, p requires 0 <= p < |peers| =>
      peers[p].(outstanding := peers[p].outstanding - Count(pieces, ExpiredNaming(p, now), |pieces|)))
  }

  /** `remove_expired_requests`. */
  function RemoveExpired(s: State, now: nat): State {
    s.(pieces := ExpirePieces(s.pieces, now),
       peers := Release(s.peers, s.pieces, now))
  }

  function Disconnected(p: PeerState): PeerState {
    p.(stream := None, buf := [], nextMessageLength := 0, weChoked := true,
       weInterested := false, theyInterested := false, outstanding := 0)
  }

  /** `on_broken_connection`: the counter is cleared, the records are not. */
  function BreakConnection(s: State, peer: nat): State
    requires peer < |s.peers|
  {
    WithPeer(s, peer, Disconnected(s.peers[peer]))
  }

  /** What an attempt to send to a peer leaves behind: a failing write breaks the connection. */
  function AfterSend(s: State, peer: nat, writes: bool): State
    requires peer < |s.peers|
  {
    if s.peers[peer].stream.Some? && !writes then BreakConnection(s, peer) else s
  }

  /** A connection established through `process_new_connections`. */
  function Connect(s: State, peer: nat, stream: Stream): State
    requires peer < |s.peers|
  {
    WithPeer(s, peer, s.peers[peer].(stream := Some(stream), weInterested := true, outstanding := 0))
  }

  function FreshPeer(stream: Option<Stream>, numPieces: nat): PeerState {
    PeerState(stream, [], 0, false, true, false, 0, seq(numPieces, _ => false))
  }

  /** `register_outgoing_peer` and `register_incoming_peer`. */
  function Register(s: State, stream: Option<Stream>): State {
    s.(peers := s.peers + [FreshPeer(stream, |s.pieces|)])
  }

  // ---------- counting blocks ----------

  function CountBlocks(blocks: seq<Block>, f: Block -> bool, n: nat): nat
    requires n <= |blocks|
  {
    if n == 0 then 0 else CountBlocks(blocks, f, n - 1) + if f(blocks[n - 1]) then 1 else 0
  }

  /** How many blocks of the first `n` pieces satisfy `f`. */
  function Count(pieces: seq<PieceState>, f: Block -> bool, n: nat): nat
    requires n <= |pieces|
  {
    if n == 0 then 0 else Count(pieces, f, n - 1) + CountBlocks(pieces[n - 1].blocks, f, |pieces[n - 1].blocks|)
  }

  function Naming(peer: nat): Block -> bool { (b: Block) => IsRecordOf(b.record, peer) }

  function ExpiredNaming(peer: nat, now: nat): Block -> bool {
    (b: Block) => IsRecordOf(b.record, peer) && Expired(b, now)
  }

  function Missing(): Block -> bool { (b: Block) => !b.downloaded }

  /** The records that name `peer`, over all blocks. */
  function RecordsOf(s: State, peer: nat): nat { Count(s.pieces, Naming(peer), |s.pieces|) }

  /** The blocks still to be downloaded. */
  function MissingBlocks(s: State): nat { Count(s.pieces, Missing(), |s.pieces|) }

  lemma {:induction false} CountBlocksSame(blocks: seq<Block>, blocks': seq<Block>, f: Block -> bool, n: nat)
    requires n <= |blocks| && n <= |blocks'|
    requires forall b :: 0 <= b < n ==> f(blocks[b]) == f(blocks'[b])
    ensures CountBlocks(blocks, f, n) == CountBlocks(blocks', f, n)
  {
    if n != 0 {
      CountBlocksSame(blocks, blocks', f, n - 1);
    }
  }

  lemma {:induction false} CountSame(pieces: seq<PieceState>, pieces': seq<PieceState>, f: Block -> bool, n: nat)
    requires n <= |pieces| && SameShape(pieces, pieces')
    requires forall i, b :: 0 <= i < n && 0 <= b < |pieces[i].blocks| ==>
               f(pieces[i].blocks[b]) == f(pieces'[i].blocks[b])
    ensures Count(pieces, f, n) == Count(pieces', f, n)
  {
    if n != 0 {
      CountSame(pieces, pieces', f, n - 1);
      CountBlocksSame(pieces[n - 1].blocks, pieces'[n - 1].blocks, f, |pieces[n - 1].blocks|);
    }
  }

  lemma {:induction false} CountBlocksUpdate(blocks: seq<Block>, b: nat, x: Block, f: Block -> bool, n: nat)
    requires b < n <= |blocks|
    ensures CountBlocks(blocks[b := x], f, n) ==
            CountBlocks(blocks, f, n) - (if f(blocks[b]) then 1 else 0) + (if f(x) then 1 else 0)
  {
    if n - 1 == b {
      CountBlocksSame(blocks, blocks[b := x], f, b);
    } else {
      CountBlocksUpdate(blocks, b, x, f, n - 1);
    }
  }

  /** Changing one piece changes a count by what that piece contributes. */
  lemma {:induction false} CountPieceUpdate(pieces: seq<PieceState>, i: nat, p: PieceState, f: Block -> bool, n: nat)
    requires i < n <= |pieces|
    ensures Count(pieces[i := p], f, n) == Count(pieces, f, n)
              - CountBlocks(pieces[i].blocks, f, |pieces[i].blocks|) + CountBlocks(p.blocks, f, |p.blocks|)
  {
    if n - 1 == i {
      CountPrefix(pieces, pieces[i := p], f, i);
    } else {
      CountPieceUpdate(pieces, i, p, f, n - 1);
    }
  }

  lemma {:induction false} CountPrefix(pieces: seq<PieceState>, pieces': seq<PieceState>, f: Block -> bool, n: nat)
    requires n <= |pieces| && n <= |pieces'|
    requires forall i :: 0 <= i < n ==> pieces[i] == pieces'[i]
    ensures Count(pieces, f, n) == Count(pieces', f, n)
  {
    if n != 0 {
      CountPrefix(pieces, pieces', f, n - 1);
    }
  }

  /** Changing one record changes a count by exactly that block. */
  lemma CountRecordUpdate(pieces: seq<PieceState>, i: nat, b: nat, record: Option<BlockRequestRecord>, f: Block -> bool)
    requires i < |pieces| && b < |pieces[i].blocks|
    ensures var was, becomes := pieces[i].blocks[b], pieces[i].blocks[b].(record := record);
            Count(WithRecord(pieces, i, b, record), f, |pieces|) ==
            Count(pieces, f, |pieces|) - (if f(was) then 1 else 0) + (if f(becomes) then 1 else 0)
  {
    var blocks := pieces[i].blocks;
    var x := blocks[b].(record := record);
    CountBlocksUpdate(blocks, b, x, f, |blocks|);
    CountPieceUpdate(pieces, i, pieces[i].(blocks := blocks[b := x]), f, |pieces|);
  }
}
