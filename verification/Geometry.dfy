/** How `init_pieces` cuts a torrent into pieces and blocks (src/download.rs, lines 466-524). */
module Geometry {
  import opened Config
  import opened Wrappers
  import opened IoPrimitives
  import opened Codec
  import opened Framing
  import opened Storage
  import opened TorrentState

  /** The torrents `init_pieces` survives: the last piece starts inside the content.
      With a declared piece length of zero all pieces before the last are empty. */
  predicate Cuttable(total: nat, pieceLength: nat, n: nat) {
    n >= 1 ==> (n - 1) * pieceLength < total
  }

  /** The last piece takes all that remains. */
  function PieceLen(total: nat, pieceLength: nat, n: nat, i: nat): (r: nat)
    requires Cuttable(total, pieceLength, n) && i < n
  {
    if i == n - 1 then total - (n - 1) * pieceLength else pieceLength
  }

  lemma PieceFits(total: nat, pieceLength: nat, n: nat, i: nat)
    requires Cuttable(total, pieceLength, n) && i < n
    ensures i * pieceLength + PieceLen(total, pieceLength, n, i) <= total
    ensures i < n - 1 ==> i * pieceLength + pieceLength <= (n - 1) * pieceLength < total
  {
    if i < n - 1 {
      assert (i + 1) * pieceLength <= (n - 1) * pieceLength;
    }
  }

  /** A block is cut off at the end of the torrent, not at the end of its piece. */
  function FreshBlock(total: nat, pieceOffset: nat, b: nat, have: bool): Block
    requires pieceOffset + b * BLOCK_SIZE <= total
  {
    Block(have, b * BLOCK_SIZE, Min(total - pieceOffset - b * BLOCK_SIZE, BLOCK_SIZE), None)
  }

  /** Piece `i` and its blocks have the place and size `init_pieces` gives them. */
  predicate PieceShaped(total: nat, pieceLength: nat, n: nat, i: nat, p: PieceState)
    requires Cuttable(total, pieceLength, n) && i < n
  {
    p.offset == i * pieceLength && p.len == PieceLen(total, pieceLength, n, i) &&
    p.offset + p.len <= total &&
    |p.blocks| == CeilDiv(p.len, BLOCK_SIZE) &&
    forall b :: 0 <= b < |p.blocks| ==>
      p.offset + b * BLOCK_SIZE < total &&
      p.blocks[b].offset == b * BLOCK_SIZE &&
      p.blocks[b].len == Min(total - p.offset - b * BLOCK_SIZE, BLOCK_SIZE)
  }

  predicate Shaped(total: nat, pieceLength: nat, pieces: seq<PieceState>) {
    Cuttable(total, pieceLength, |pieces|) &&
    forall i :: 0 <= i < |pieces| ==> PieceShaped(total, pieceLength, |pieces|, i, pieces[i])
  }

  predicate WellFormed(s: State) { Shaped(|s.content|, s.pieceLength, s.pieces) }

  /** One flag per piece, and a receive buffer shorter than the message it is for. */
  predicate PeerSound(s: State, p: PeerState) {
    |p.hasPiece| == |s.pieces| && Ready(WireOf(p))
  }

  /** What every reachable state satisfies whatever the hashes say: the pieces have
      their shape, and all indices stored anywhere are in range. */
  ghost predicate Sound(s: State) {
    WellFormed(s) &&
    (forall p :: 0 <= p < |s.peers| ==> PeerSound(s, s.peers[p])) &&
    (forall k :: 0 <= k < |s.recent| ==> s.recent[k] < |s.pieces|) &&
    (forall k :: 0 <= k < |s.pending| ==> s.pending[k].peerId < |s.peers|) &&
    (forall i, b :: 0 <= i < |s.pieces| && 0 <= b < |s.pieces[i].blocks| && BlockAt(s, i, b).record.Some? ==>
       BlockAt(s, i, b).record.value.peerId < |s.peers|)
  }

  /** Block `b` of piece `i` contains the byte at position `x` of the torrent. */
  predicate Covers(pieces: seq<PieceState>, i: nat, b: nat, x: nat) {
    i < |pieces| && b < |pieces[i].blocks| &&
    var start := pieces[i].offset + pieces[i].blocks[b].offset;
    start <= x < start + pieces[i].blocks[b].len
  }

  /** The length of a piece is a positive amount more than all its blocks but the last. */
  lemma BlockCount(len: nat)
    ensures var n := CeilDiv(len, BLOCK_SIZE);
            (0 < len ==> 0 < n) && (0 < n ==> (n - 1) * BLOCK_SIZE < len) && len <= n * BLOCK_SIZE
  {
  }

  lemma QuotientBelow(x: nat, d: nat, m: nat)
    requires 0 < d && x < m * d
    ensures x / d < m && x / d * d <= x < x / d * d + d
  {
    var q := x / d;
    var spare := if q < m then 0 else q - m;
    assert (m + spare) * d == m * d + spare * d;
  }

  /** The piece that position `x` lies in. */
  lemma PieceOf(total: nat, pieceLength: nat, n: nat, x: nat) returns (i: nat)
    requires Cuttable(total, pieceLength, n) && 0 < n && x < total
    ensures i < n && i * pieceLength <= x < i * pieceLength + PieceLen(total, pieceLength, n, i)
  {
    i := if (n - 1) * pieceLength <= x then n - 1 else x / pieceLength;
    if x < (n - 1) * pieceLength {
      QuotientBelow(x, pieceLength, n - 1);
    }
  }

  /** Every byte lies in some block, whatever the sizes. */
  lemma EveryByteCovered(total: nat, pieceLength: nat, pieces: seq<PieceState>, x: nat) returns (i: nat, b: nat)
    requires Shaped(total, pieceLength, pieces) && pieces != [] && x < total
    ensures Covers(pieces, i, b, x)
    ensures pieces[i].offset <= x < pieces[i].offset + pieces[i].len
  {
    i := PieceOf(total, pieceLength, |pieces|, x);
    assert PieceShaped(total, pieceLength, |pieces|, i, pieces[i]);
    BlockCount(pieces[i].len);
    b := (x - pieces[i].offset) / BLOCK_SIZE;
  }

  /** Where a piece ends the next one starts or the torrent ends. */
  lemma PiecesDisjoint(total: nat, pieceLength: nat, pieces: seq<PieceState>, i: nat, j: nat)
    requires Shaped(total, pieceLength, pieces) && i < j < |pieces|
    ensures pieces[i].offset + pieces[i].len <= pieces[j].offset
  {
    var n := |pieces|;
    assert PieceShaped(total, pieceLength, n, i, pieces[i]) && PieceShaped(total, pieceLength, n, j, pieces[j]);
    hide PieceShaped, Shaped, Cuttable;
    Times(i, j, pieceLength);
  }

  lemma Times(i: nat, j: nat, d: nat)
    requires i < j
    ensures i * d + d <= j * d
  {
    assert (i + 1) * d <= j * d;
  }

  ghost predicate InOnePiece(pieces: seq<PieceState>, x: nat) {
    exists i :: 0 <= i < |pieces| && InPiece(pieces[i], x) &&
      forall j :: 0 <= j < |pieces| && InPiece(pieces[j], x) ==> j == i
  }

  predicate InPiece(p: PieceState, x: nat) { p.offset <= x < p.offset + p.len }

  /** The pieces always partition the torrent. */
  lemma PiecesPartition(total: nat, pieceLength: nat, pieces: seq<PieceState>)
    requires Shaped(total, pieceLength, pieces) && pieces != []
    ensures forall x :: 0 <= x < total <==> 0 <= x && InOnePiece(pieces, x)
  {
    forall x: nat | x < total ensures InOnePiece(pieces, x) {
      var i, b := EveryByteCovered(total, pieceLength, pieces, x);
      assert InPiece(pieces[i], x);
      forall j | 0 <= j < |pieces| && InPiece(pieces[j], x) ensures j == i {
        if i < j {
          PiecesDisjoint(total, pieceLength, pieces, i, j);
        } else if j < i {
          PiecesDisjoint(total, pieceLength, pieces, j, i);
        }
      }
    }
    forall i | 0 <= i < |pieces| ensures pieces[i].offset + pieces[i].len <= total {
      assert PieceShaped(total, pieceLength, |pieces|, i, pieces[i]);
    }
  }

  /** The sizes for which no block sticks out of its piece. */
  predicate Tileable(pieceLength: nat, n: nat) { n <= 1 || pieceLength % BLOCK_SIZE == 0 }

  lemma BlockInPiece(total: nat, pieceLength: nat, pieces: seq<PieceState>, i: nat, b: nat)
    requires Shaped(total, pieceLength, pieces) && Tileable(pieceLength, |pieces|)
    requires i < |pieces| && b < |pieces[i].blocks|
    ensures var x := pieces[i].blocks[b]; 0 < x.len <= BLOCK_SIZE && x.offset + x.len <= pieces[i].len
    ensures b + 1 < |pieces[i].blocks| ==> pieces[i].blocks[b].len == BLOCK_SIZE
    ensures b + 1 == |pieces[i].blocks| ==> pieces[i].blocks[b].offset + pieces[i].blocks[b].len == pieces[i].len
  {
    var p := pieces[i];
    assert PieceShaped(total, pieceLength, |pieces|, i, p);
    BlockCount(p.len);
    if i < |pieces| - 1 {
      PieceFits(total, pieceLength, |pieces|, i);
      assert p.len == pieceLength && pieceLength % BLOCK_SIZE == 0;
      assert |p.blocks| * BLOCK_SIZE == p.len;
    }
  }

  /** The byte at position `x` lies in one block and in no other. */
  ghost predicate ExactlyOnce(pieces: seq<PieceState>, x: nat) {
    exists i, b :: Covers(pieces, i, b, x) &&
      forall i', b' :: Covers(pieces, i', b', x) ==> i' == i && b' == b
  }

  /** The blocks of all pieces partition the torrent exactly when there is a single
      piece or the piece length is a multiple of the block size. */
  lemma BlocksPartitionIff(total: nat, pieceLength: nat, pieces: seq<PieceState>)
    requires Shaped(total, pieceLength, pieces) && pieces != []
    ensures (forall x :: 0 <= x < total ==> ExactlyOnce(pieces, x)) <==> Tileable(pieceLength, |pieces|)
  {
    if Tileable(pieceLength, |pieces|) {
      forall x: nat | x < total ensures ExactlyOnce(pieces, x) {
        var i, b := EveryByteCovered(total, pieceLength, pieces, x);
        forall i', b' | Covers(pieces, i', b', x) ensures i' == i && b' == b {
          CoversUnique(total, pieceLength, pieces, i, b, i', b', x);
        }
      }
    } else {
      Overlap(total, pieceLength, pieces);
      assert !ExactlyOnce(pieces, pieceLength);
    }
  }

  lemma CoversUnique(total: nat, pieceLength: nat, pieces: seq<PieceState>, i: nat, b: nat, i': nat, b': nat, x: nat)
    requires Shaped(total, pieceLength, pieces) && Tileable(pieceLength, |pieces|)
    requires Covers(pieces, i, b, x) && Covers(pieces, i', b', x)
    ensures i == i' && b == b'
  {
    BlockInPiece(total, pieceLength, pieces, i, b);
    BlockInPiece(total, pieceLength, pieces, i', b');
    if i < i' {
      PiecesDisjoint(total, pieceLength, pieces, i, i');
    } else if i' < i {
      PiecesDisjoint(total, pieceLength, pieces, i', i);
    } else {
      assert PieceShaped(total, pieceLength, |pieces|, i, pieces[i]);
    }
  }

  /** Otherwise the first byte of piece 1 lies both in its own first block and in the
      last block of piece 0. */
  lemma Overlap(total: nat, pieceLength: nat, pieces: seq<PieceState>)
    requires Shaped(total, pieceLength, pieces) && !Tileable(pieceLength, |pieces|)
    ensures pieceLength < total
    ensures Covers(pieces, 0, |pieces[0].blocks| - 1, pieceLength) && Covers(pieces, 1, 0, pieceLength)
  {
    var n := |pieces|;
    PieceFits(total, pieceLength, n, 0);
    PieceFits(total, pieceLength, n, 1);
    assert PieceShaped(total, pieceLength, n, 0, pieces[0]);
    assert PieceShaped(total, pieceLength, n, 1, pieces[1]);
    BlockCount(pieces[0].len);
    BlockCount(pieces[1].len);
    assert pieces[0].len == pieceLength && pieceLength != |pieces[0].blocks| * BLOCK_SIZE;
  }

  // ---------- the initial state ----------

  function InitialPiece(hash: Hash, content: seq<byte>, pieceLength: nat, shas: seq<Sha1>, i: nat): (p: PieceState)
    requires Cuttable(|content|, pieceLength, |shas|) && i < |shas|
    ensures PieceShaped(|content|, pieceLength, |shas|, i, p)
  {
    PieceFits(|content|, pieceLength, |shas|, i);
    var offset, len := i * pieceLength, PieceLen(|content|, pieceLength, |shas|, i);
    var have := shas[i] == hash(content[offset..offset + len]);
    BlockCount(len);
    var n := CeilDiv(len, BLOCK_SIZE);
    PieceState(have, shas[i],
      seq(n, b requires 0 <= b < n => FreshBlock(|content|, offset, b, have)), offset, len)
  }

  lemma InitialPieceIs(hash: Hash, content: seq<byte>, pieceLength: nat, shas: seq<Sha1>, i: nat,
                       offset: nat, len: nat, blocks: seq<Block>)
    requires Cuttable(|content|, pieceLength, |shas|) && i < |shas|
    requires offset == i * pieceLength && len == PieceLen(|content|, pieceLength, |shas|, i)
    requires |blocks| == CeilDiv(len, BLOCK_SIZE) && offset + len <= |content|
    requires var have := shas[i] == hash(content[offset..offset + len]);
             forall b :: 0 <= b < |blocks| ==>
               offset + b * BLOCK_SIZE < |content| && blocks[b] == FreshBlock(|content|, offset, b, have)
    ensures var have := shas[i] == hash(content[offset..offset + len]);
            InitialPiece(hash, content, pieceLength, shas, i) == PieceState(have, shas[i], blocks, offset, len)
  {
    hide FreshBlock, PieceLen, CeilDiv;
    assert InitialPiece(hash, content, pieceLength, shas, i).blocks == blocks;
  }

  function InitialPieces(hash: Hash, content: seq<byte>, pieceLength: nat, shas: seq<Sha1>): seq<PieceState>
    requires Cuttable(|content|, pieceLength, |shas|)
  {
    seq(|shas|, i requires 0 <= i < |shas| => InitialPiece(hash, content, pieceLength, shas, i))
  }

  /** What a new download starts from: each piece has the hash of the torrent at its index, it and
      its blocks are marked exactly if the stored bytes have that hash, and nothing is requested,
      queued or connected. */
  lemma InitiallyMarked(hash: Hash, content: seq<byte>, pieceLength: nat, shas: seq<Sha1>, i: nat, b: nat)
    requires Cuttable(|content|, pieceLength, |shas|) && i < |shas|
    ensures var s := InitialState(hash, content, pieceLength, shas);
            s.content == content && s.peers == [] && s.pending == [] && s.recent == [] && |s.pieces| == |shas| &&
            var p := s.pieces[i];
            p.sha == shas[i] && p.offset == i * pieceLength && p.offset + p.len <= |content| &&
            p.len == PieceLen(|content|, pieceLength, |shas|, i) &&
            (p.downloaded <==> hash(content[p.offset..p.offset + p.len]) == shas[i]) &&
            (b < |p.blocks| ==> p.blocks[b].downloaded == p.downloaded && p.blocks[b].record.None?)
  {
    var p := InitialPiece(hash, content, pieceLength, shas, i);
    assert PieceShaped(|content|, pieceLength, |shas|, i, p);
  }

  /** `Download::new`: no peers yet, and a piece counts as downloaded if the stored bytes have its hash. */
  function InitialState(hash: Hash, content: seq<byte>, pieceLength: nat, shas: seq<Sha1>): State
    requires Cuttable(|content|, pieceLength, |shas|)
  {
    var pieces := InitialPieces(hash, content, pieceLength, shas);
    State(content, pieceLength, pieces, [], [], [], AllDone(pieces))
  }
}
