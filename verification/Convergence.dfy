/** A download that receives original blocks, in any order and among anything else, ends with
    the original content (src/peer_protocol.rs, lines 340-370; src/download.rs, lines 451-460
    and 613-638). */
module Convergence {
  import opened Config
  import opened Wrappers
  import opened IoPrimitives
  import opened Storage
  import opened Codec
  import opened TorrentState
  import opened Geometry
  import opened Soundness
  import opened Runs
  import opened Safety
  import opened Rerequest

  /** Where block (i, b) lies in the torrent. */
  function BlockStart(s: State, i: nat, b: nat): nat
    requires InPieces(s, i, b)
  {
    i * s.pieceLength + BlockAt(s, i, b).offset
  }

  /** The bytes of block (i, b) in the original torrent. */
  function BlockData(s: State, i: nat, b: nat, original: seq<byte>): seq<byte>
    requires InPieces(s, i, b) && BlockStart(s, i, b) + BlockAt(s, i, b).len <= |original|
  {
    original[BlockStart(s, i, b)..BlockStart(s, i, b) + BlockAt(s, i, b).len]
  }

  /** Block `b` of the piece has the byte at position `x` of the torrent, inside the piece. A block
      may stick out of its piece; what it holds there counts for the next one. */
  predicate BlockHas(p: PieceState, b: nat, x: nat) {
    b < |p.blocks| && p.offset + p.blocks[b].offset <= x < p.offset + p.blocks[b].offset + p.blocks[b].len &&
    x < p.offset + p.len
  }

  /** Every downloaded block of the piece holds the original bytes. */
  ghost predicate Clean(content: seq<byte>, p: PieceState, original: seq<byte>) {
    forall b: nat, x: nat ::
      BlockHas(p, b, x) && p.blocks[b].downloaded && x < |content| && x < |original| ==> content[x] == original[x]
  }

  function Stored(content: seq<byte>, p: PieceState): seq<byte> {
    if p.offset + p.len <= |content| then content[p.offset..p.offset + p.len] else []
  }

  /** What is marked downloaded is original. */
  predicate Trusted(content: seq<byte>, p: PieceState, original: seq<byte>) {
    p.downloaded ==> Stored(content, p) == Stored(original, p)
  }

  predicate AllTrusted(s: State, original: seq<byte>) {
    |original| == |s.content| && forall i :: 0 <= i < |s.pieces| ==> Trusted(s.content, s.pieces[i], original)
  }

  /** A download of `original` that may hold corrupt data, none of it marked. */
  ghost predicate Recoverable(hash: Hash, s: State, original: seq<byte>) {
    Verified(hash, s) && TorrentOf(hash, s.pieces, original) && AllTrusted(s, original)
  }

  /** If the event makes a piece pass its check, it passes on the original bytes. */
  ghost predicate Unfooled(hash: Hash, s: State, e: Event, original: seq<byte>)
    requires Enabled(s, e)
  {
    match e
    case Deliver(_, Known(Piece(i, _, _))) =>
      i < |Step(hash, s, e).pieces| && Trusted(Step(hash, s, e).content, Step(hash, s, e).pieces[i], original)
    case _ => true
  }

  ghost predicate Agrees(s: State, original: seq<byte>) {
    |original| == |s.content| && forall i :: 0 <= i < |s.pieces| ==> Clean(s.content, s.pieces[i], original)
  }

  /** A download of `original` whose progress is genuine: every downloaded block is original. */
  ghost predicate OnTrack(hash: Hash, s: State, original: seq<byte>) {
    Verified(hash, s) && TorrentOf(hash, s.pieces, original) && Agrees(s, original)
  }

  lemma OnTrackRecoverable(hash: Hash, s: State, original: seq<byte>)
    requires OnTrack(hash, s, original)
    ensures Recoverable(hash, s, original)
  {
    hide TorrentOf, Clean;
    forall i | 0 <= i < |s.pieces| ensures Trusted(s.content, s.pieces[i], original) {
      assert PieceVerified(hash, s.content, s.pieces[i]);
      CleanIsTrusted(s, i, s.content, s.pieces[i], original);
    }
  }

  lemma RecoverableParts(hash: Hash, s: State, original: seq<byte>)
    requires Recoverable(hash, s, original)
    ensures Verified(hash, s) && Sound(s) && WellFormed(s) && |original| == |s.content|
    ensures TorrentOf(hash, s.pieces, original) && AllTrusted(s, original)
  {
  }

  // ---------- blocks and pieces ----------

  lemma BlockInTorrent(s: State, i: nat, b: nat)
    requires WellFormed(s) && InPieces(s, i, b)
    ensures var x := BlockAt(s, i, b);
            x.offset == b * BLOCK_SIZE && x.offset / BLOCK_SIZE == b && 0 < x.len <= BLOCK_SIZE &&
            x.offset < s.pieces[i].len && BlockStart(s, i, b) == s.pieces[i].offset + x.offset &&
            BlockStart(s, i, b) + x.len <= |s.content|
  {
    assert PieceShaped(|s.content|, s.pieceLength, |s.pieces|, i, s.pieces[i]);
    BlockCount(s.pieces[i].len);
  }

  /** Every byte of a piece lies in one of its own blocks. */
  lemma ByteInOwnPiece(s: State, i: nat, x: nat) returns (b: nat)
    requires WellFormed(s) && i < |s.pieces| && s.pieces[i].offset <= x < s.pieces[i].offset + s.pieces[i].len
    ensures BlockHas(s.pieces[i], b, x)
  {
    assert PieceShaped(|s.content|, s.pieceLength, |s.pieces|, i, s.pieces[i]);
    BlockCount(s.pieces[i].len);
    b := (x - s.pieces[i].offset) / BLOCK_SIZE;
  }

  /** A clean piece with all its blocks is original. */
  lemma FullAndClean(s: State, i: nat, content: seq<byte>, p: PieceState, original: seq<byte>)
    requires Sound(s) && i < |s.pieces| && SameLayout(s.pieces[i], p) && |content| == |s.content| == |original|
    requires AllBlocks(p.blocks) && Clean(content, p, original)
    ensures p.offset + p.len <= |content| && Stored(content, p) == Stored(original, p)
  {
    PieceInside(s, i);
    forall x: nat | p.offset <= x < p.offset + p.len ensures content[x] == original[x] {
      var b := ByteInOwnPiece(s, i, x);
      assert BlockHas(p, b, x);
    }
  }

  /** So a clean piece may be marked once it has all its blocks. */
  lemma CleanIsTrusted(s: State, i: nat, content: seq<byte>, p: PieceState, original: seq<byte>)
    requires Sound(s) && i < |s.pieces| && SameLayout(s.pieces[i], p) && |content| == |s.content| == |original|
    requires Clean(content, p, original) && (p.blocks != [] && p.downloaded ==> AllBlocks(p.blocks))
    ensures Trusted(content, p, original)
  {
    if p.blocks == [] {
      assert PieceShaped(|s.content|, s.pieceLength, |s.pieces|, i, s.pieces[i]);
      BlockCount(p.len);
    } else if p.downloaded {
      FullAndClean(s, i, content, p, original);
    }
  }

  /** What is marked downloaded is original, whatever else the download holds. */
  lemma MarkedIsOriginal(hash: Hash, s: State, original: seq<byte>, i: nat)
    requires Recoverable(hash, s, original) && i < |s.pieces| && s.pieces[i].downloaded
    ensures s.pieces[i].offset + s.pieces[i].len <= |s.content|
    ensures Stored(s.content, s.pieces[i]) == Stored(original, s.pieces[i])
  {
    PieceInside(s, i);
    assert Trusted(s.content, s.pieces[i], original);
  }

  // ---------- honest deliveries ----------

  /** The message that delivers block (i, b) of the original. */
  function HonestMessage(s: State, peer: nat, i: nat, b: nat, original: seq<byte>): Event
    requires InPieces(s, i, b) && BlockStart(s, i, b) + BlockAt(s, i, b).len <= |original|
  {
    Deliver(peer, Known(Piece(i, BlockAt(s, i, b).offset, BlockData(s, i, b, original))))
  }

  /** The event delivers some block of the original, whole and from its start. */
  ghost predicate DeliversOriginal(s: State, e: Event, original: seq<byte>) {
    exists i, b :: InPieces(s, i, b) && BlockStart(s, i, b) + BlockAt(s, i, b).len <= |original| && e.Deliver? &&
      e == HonestMessage(s, e.peer, i, b, original)
  }

  lemma HonestAccepted(s: State, peer: nat, i: nat, b: nat, original: seq<byte>)
    requires WellFormed(s) && InPieces(s, i, b) && peer < |s.peers|
    requires BlockStart(s, i, b) + BlockAt(s, i, b).len <= |original| == |s.content|
    ensures var e := HonestMessage(s, peer, i, b, original);
            Enabled(s, e) && e.m.message.index == i && e.m.message.offset / BLOCK_SIZE == b
  {
    BlockInTorrent(s, i, b);
  }

  /** Every byte is as it was, or original. */
  predicate Closer(before: seq<byte>, after: seq<byte>, original: seq<byte>) {
    |before| == |after| == |original| &&
    forall x :: 0 <= x < |after| ==> after[x] == before[x] || after[x] == original[x]
  }

  /** An original block writes original bytes, also where it sticks out of its piece. */
  lemma HonestWrites(hash: Hash, s: State, peer: nat, i: nat, b: nat, original: seq<byte>)
    requires WellFormed(s) && InPieces(s, i, b) && peer < |s.peers|
    requires BlockStart(s, i, b) + BlockAt(s, i, b).len <= |original| == |s.content|
    ensures var e := HonestMessage(s, peer, i, b, original);
            Enabled(s, e) &&
            var s' := Step(hash, s, e);
            s'.content == Splice(s.content, BlockStart(s, i, b), BlockData(s, i, b, original)) &&
            Closer(s.content, s'.content, original) &&
            forall x: nat :: BlockHas(s.pieces[i], b, x) && x < |original| ==> s'.content[x] == original[x]
  {
    HonestAccepted(s, peer, i, b, original);
    BlockInTorrent(s, i, b);
    var e := HonestMessage(s, peer, i, b, original);
    ReceivePieceParts(hash, s, peer, i, BlockAt(s, i, b).offset, BlockData(s, i, b, original));
    var content := Step(hash, s, e).content;
    hide Step, Splice, WellFormed, Enabled;
    forall x: nat | x < |content|
      ensures content[x] == if BlockStart(s, i, b) <= x < BlockStart(s, i, b) + BlockAt(s, i, b).len
                            then original[x] else s.content[x]
    {
      SplicedByte(s.content, BlockStart(s, i, b), original, BlockAt(s, i, b).len, x);
    }
  }

  lemma SplicedByte(s: seq<byte>, start: nat, original: seq<byte>, len: nat, x: nat)
    requires |s| == |original| && start + len <= |s| && x < |s|
    ensures Splice(s, start, original[start..start + len])[x] == if start <= x < start + len then original[x] else s[x]
  {
    SplicedAt(s, start, original[start..start + len], x);
  }

  lemma OriginalStays(before: seq<byte>, after: seq<byte>, p: PieceState, original: seq<byte>)
    requires Closer(before, after, original) && Stored(before, p) == Stored(original, p)
    ensures Stored(after, p) == Stored(original, p)
  {
    if p.offset + p.len <= |before| {
      forall x: nat | p.offset <= x < p.offset + p.len ensures after[x] == original[x] {
        SliceByte(before, original, p.offset, p.offset + p.len, x);
      }
    }
  }

  lemma SliceByte(s: seq<byte>, t: seq<byte>, from: nat, to: nat, x: nat)
    requires from <= x < to <= |s| && to <= |t| && s[from..to] == t[from..to]
    ensures s[x] == t[x]
  {
    assert s[x] == s[from..to][x - from] && t[x] == t[from..to][x - from];
  }

  /** Marked pieces are original already, so an original block leaves them as they are. */
  lemma HonestKeepsMarked(hash: Hash, s: State, peer: nat, i: nat, b: nat, original: seq<byte>)
    requires Recoverable(hash, s, original) && InPieces(s, i, b) && peer < |s.peers|
    requires BlockStart(s, i, b) + BlockAt(s, i, b).len <= |original|
    ensures var e := HonestMessage(s, peer, i, b, original); Enabled(s, e) && KeepsMarked(hash, s, e)
  {
    HonestWrites(hash, s, peer, i, b, original);
    BlockInTorrent(s, i, b);
    var content := Splice(s.content, BlockStart(s, i, b), BlockData(s, i, b, original));
    hide Step, Enabled, Splice, Trusted;
    forall j | 0 <= j < |s.pieces| && s.pieces[j].downloaded ensures HashMatches(hash, content, s.pieces[j]) {
      MarkedIsOriginal(hash, s, original, j);
      OriginalStays(s.content, content, s.pieces[j], original);
      assert PieceVerified(hash, s.content, s.pieces[j]);
    }
  }

  lemma OthersDownloaded(hash: Hash, s: State, i: nat, b: nat)
    requires Verified(hash, s) && InPieces(s, i, b) && MarkBlock(s.pieces[i], b).downloaded
    ensures forall c :: 0 <= c < |s.pieces[i].blocks| && c != b ==> s.pieces[i].blocks[c].downloaded
  {
    var p := s.pieces[i];
    assert PieceVerified(hash, s.content, p);
    forall c | 0 <= c < |p.blocks| && c != b ensures p.blocks[c].downloaded {
      assert MarkBlock(p, b).blocks[c] == p.blocks[c];
    }
  }

  /** When the bytes left behind are original the check cannot fail. */
  lemma OriginalPasses(hash: Hash, s: State, e: Event, i: nat, content: seq<byte>, original: seq<byte>)
    requires Sound(s) && TorrentOf(hash, s.pieces, original) && |original| == |s.content| && i < |s.pieces|
    requires IsPieceMessage(e) && e.m.message.index == i && MessageInRange(s, e.peer, e.m)
    requires content == Splice(s.content, i * s.pieceLength + e.m.message.offset, e.m.message.data)
    requires Stored(content, s.pieces[i]) == Stored(original, s.pieces[i])
    ensures !HashFails(hash, s, e, i)
  {
    PieceInside(s, i);
    hide Splice, MarkBlock;
  }

  /** With all other blocks of a clean piece in place, writing block (i, b) makes it original. */
  lemma HonestMakesOriginal(hash: Hash, s: State, peer: nat, i: nat, b: nat, original: seq<byte>)
    requires Recoverable(hash, s, original) && InPieces(s, i, b) && peer < |s.peers|
    requires BlockStart(s, i, b) + BlockAt(s, i, b).len <= |original|
    requires Clean(s.content, s.pieces[i], original) && MarkBlock(s.pieces[i], b).downloaded
    ensures Stored(Splice(s.content, BlockStart(s, i, b), BlockData(s, i, b, original)), s.pieces[i]) ==
            Stored(original, s.pieces[i])
  {
    RecoverableParts(hash, s, original);
    hide Recoverable, Sound, WellFormed, AllTrusted, Verified, TorrentOf, Step, Splice, Enabled, Clean, BlockData,
         HonestMessage, MarkBlock, BlockHas, Closer;
    var p := s.pieces[i];
    HonestWrites(hash, s, peer, i, b, original);
    OthersDownloaded(hash, s, i, b);
    var content := Splice(s.content, BlockStart(s, i, b), BlockData(s, i, b, original));
    MarkedFull(p, b);
    MarkedClean(s.content, content, p, b, original);
    FullAndClean(s, i, content, MarkBlock(p, b), original);
  }

  /** So an original block never makes the check of a clean piece fail. */
  lemma HonestNeverFails(hash: Hash, s: State, peer: nat, i: nat, b: nat, original: seq<byte>)
    requires Recoverable(hash, s, original) && InPieces(s, i, b) && peer < |s.peers|
    requires BlockStart(s, i, b) + BlockAt(s, i, b).len <= |original|
    requires Clean(s.content, s.pieces[i], original)
    ensures !HashFails(hash, s, HonestMessage(s, peer, i, b, original), i)
  {
    HonestAccepted(s, peer, i, b, original);
    BlockInTorrent(s, i, b);
    var content := Splice(s.content, BlockStart(s, i, b), BlockData(s, i, b, original));
    var e := HonestMessage(s, peer, i, b, original);
    hide Splice, Trusted, Clean, BlockData;
    if MarkBlock(s.pieces[i], b).downloaded {
      HonestMakesOriginal(hash, s, peer, i, b, original);
      OriginalPasses(hash, s, e, i, content, original);
    }
  }

  lemma MarkedFull(p: PieceState, b: nat)
    requires b < |p.blocks| && forall c :: 0 <= c < |p.blocks| && c != b ==> p.blocks[c].downloaded
    ensures AllBlocks(MarkBlock(p, b).blocks) && SameLayout(p, MarkBlock(p, b))
  {
  }

  /** Nor does one that is there already. */
  lemma RepeatNeverFails(hash: Hash, s: State, peer: nat, i: nat, b: nat, original: seq<byte>)
    requires Recoverable(hash, s, original) && InPieces(s, i, b) && peer < |s.peers|
    requires BlockStart(s, i, b) + BlockAt(s, i, b).len <= |original|
    requires BlockAt(s, i, b).downloaded
    ensures !HashFails(hash, s, HonestMessage(s, peer, i, b, original), i)
  {
    HonestWrites(hash, s, peer, i, b, original);
    BlockInTorrent(s, i, b);
    var content := Splice(s.content, BlockStart(s, i, b), BlockData(s, i, b, original));
    var e := HonestMessage(s, peer, i, b, original);
    hide Step, Splice, Enabled, Trusted;
    if MarkBlock(s.pieces[i], b).downloaded {
      OthersDownloaded(hash, s, i, b);
      AllThereIsMarked(hash, s, i, b);
      MarkedIsOriginal(hash, s, original, i);
      OriginalStays(s.content, content, s.pieces[i], original);
      OriginalPasses(hash, s, e, i, content, original);
    }
  }

  lemma MarkedClean(before: seq<byte>, after: seq<byte>, p: PieceState, b: nat, original: seq<byte>)
    requires Clean(before, p, original) && Closer(before, after, original) && b < |p.blocks|
    requires forall x: nat :: BlockHas(p, b, x) && x < |original| ==> after[x] == original[x]
    ensures Clean(after, MarkBlock(p, b), original)
  {
    var marked := MarkBlock(p, b);
    forall c: nat, x: nat | BlockHas(marked, c, x) && marked.blocks[c].downloaded && x < |after|
      ensures after[x] == original[x]
    {
      assert BlockHas(p, c, x);
    }
  }

  lemma AllThereIsMarked(hash: Hash, s: State, i: nat, b: nat)
    requires Verified(hash, s) && InPieces(s, i, b)
    requires forall c :: 0 <= c < |s.pieces[i].blocks| && c != b ==> s.pieces[i].blocks[c].downloaded
    requires BlockAt(s, i, b).downloaded
    ensures s.pieces[i].downloaded
  {
    assert PieceVerified(hash, s.content, s.pieces[i]);
  }

  /** A delivery of an original block marks that block and changes no other mark, or it makes
      its piece fail the check and unmarks all of it. */
  lemma HonestMarks(hash: Hash, s: State, peer: nat, i: nat, b: nat, original: seq<byte>, j: nat, c: nat)
    requires Recoverable(hash, s, original) && InPieces(s, i, b) && peer < |s.peers| && InPieces(s, j, c)
    requires BlockStart(s, i, b) + BlockAt(s, i, b).len <= |original|
    ensures var e := HonestMessage(s, peer, i, b, original);
            Enabled(s, e) && InPieces(Step(hash, s, e), j, c) &&
            BlockAt(Step(hash, s, e), j, c).downloaded ==
              if j != i then BlockAt(s, j, c).downloaded
              else !HashFails(hash, s, e, i) && (BlockAt(s, j, c).downloaded || c == b)
  {
    HonestAccepted(s, peer, i, b, original);
    hide HashFails, Recoverable, Step, BlockData, Enabled;
    var e := HonestMessage(s, peer, i, b, original);
    if j == i {
      NamedPieceStep(hash, s, e, i, c);
    } else {
      OtherPieceStep(hash, s, e, j, c);
    }
  }

  lemma HonestKeepsClean(hash: Hash, s: State, peer: nat, i: nat, b: nat, original: seq<byte>, j: nat)
    requires Recoverable(hash, s, original) && InPieces(s, i, b) && peer < |s.peers| && j < |s.pieces|
    requires BlockStart(s, i, b) + BlockAt(s, i, b).len <= |original|
    requires Clean(s.content, s.pieces[j], original) ||
             (j == i && HashFails(hash, s, HonestMessage(s, peer, i, b, original), i))
    ensures var e := HonestMessage(s, peer, i, b, original);
            Enabled(s, e) &&
            var s' := Step(hash, s, e);
            |s'.pieces| == |s.pieces| && Clean(s'.content, s'.pieces[j], original)
  {
    HonestWrites(hash, s, peer, i, b, original);
    var e := HonestMessage(s, peer, i, b, original);
    var s' := Step(hash, s, e);
    StepKeepsLayout(hash, s, e);
    assert SameLayout(s.pieces[j], s'.pieces[j]);
    hide Step, Recoverable, Enabled, HashFails, HonestMessage, BlockData;
    forall c: nat, x: nat | BlockHas(s'.pieces[j], c, x) && s'.pieces[j].blocks[c].downloaded && x < |s'.content|
      ensures s'.content[x] == original[x]
    {
      assert BlockHas(s.pieces[j], c, x);
      HonestMarks(hash, s, peer, i, b, original, j, c);
      assert BlockAt(s', j, c) == s'.pieces[j].blocks[c] && BlockAt(s, j, c) == s.pieces[j].blocks[c];
    }
  }

  /** An original block fools no check of a clean piece. */
  lemma HonestUnfooled(hash: Hash, s: State, peer: nat, i: nat, b: nat, original: seq<byte>)
    requires Recoverable(hash, s, original) && InPieces(s, i, b) && peer < |s.peers|
    requires BlockStart(s, i, b) + BlockAt(s, i, b).len <= |original|
    requires Clean(s.content, s.pieces[i], original)
    ensures var e := HonestMessage(s, peer, i, b, original);
            Enabled(s, e) && Unfooled(hash, s, e, original)
  {
    HonestKeepsClean(hash, s, peer, i, b, original, i);
    HonestKeepsMarked(hash, s, peer, i, b, original);
    var e := HonestMessage(s, peer, i, b, original);
    var s' := Step(hash, s, e);
    StepVerifiedIff(hash, s, e);
    StepKeepsLayout(hash, s, e);
    RecoverableParts(hash, s, original);
    StepKeepsSize(hash, s, e);
    hide Step, Enabled, Recoverable, KeepsMarked, Clean, HonestMessage, BlockData, Sound;
    assert PieceVerified(hash, s'.content, s'.pieces[i]);
    CleanIsTrusted(s, i, s'.content, s'.pieces[i], original);
  }

  /** Nor is a check fooled that fails. */
  lemma FailedUnfooled(hash: Hash, s: State, e: Event, i: nat, original: seq<byte>)
    requires Verified(hash, s) && Enabled(s, e) && HashFails(hash, s, e, i)
    ensures Unfooled(hash, s, e, original)
  {
    var m := e.m.message;
    var b := m.offset / BLOCK_SIZE;
    ReceivePieceParts(hash, s, e.peer, m.index, m.offset, m.data);
    var s' := Step(hash, s, e);
    hide Step, Splice, Verified;
    var record :| s'.pieces[i] == FinishedPiece(hash, s'.content, WithRecord(s.pieces, i, b, record)[i], b);
    FailedIsReset(hash, s'.content, s.pieces, i, b, record);
  }

  lemma FailedIsReset(hash: Hash, content: seq<byte>, pieces: seq<PieceState>, i: nat, b: nat,
                      record: Option<BlockRequestRecord>)
    requires i < |pieces| && b < |pieces[i].blocks|
    requires MarkBlock(pieces[i], b).downloaded && !HashMatches(hash, content, pieces[i])
    ensures !FinishedPiece(hash, content, WithRecord(pieces, i, b, record)[i], b).downloaded
  {
    var p, q := pieces[i], WithRecord(pieces, i, b, record)[i];
    assert forall c :: 0 <= c < |p.blocks| ==>
      MarkBlock(p, b).blocks[c].downloaded == MarkBlock(q, b).blocks[c].downloaded;
    assert AllBlocks(MarkBlock(p, b).blocks) ==> AllBlocks(MarkBlock(q, b).blocks);
  }

  /** A check that is fooled is a collision: stored bytes other than the original ones, with
      their hash. */
  lemma FooledIsCollision(hash: Hash, s: State, e: Event, original: seq<byte>)
    requires Recoverable(hash, s, original) && Enabled(s, e) && !Unfooled(hash, s, e, original)
    requires DeliversOriginal(s, e, original) || Contained(s, e)
    ensures IsPieceMessage(e) && e.m.message.index < |Step(hash, s, e).pieces|
    ensures var p := Step(hash, s, e).pieces[e.m.message.index];
            var stored := Stored(Step(hash, s, e).content, p);
            stored != Stored(original, p) && |stored| == |Stored(original, p)| &&
            hash(stored) == hash(Stored(original, p))
  {
    var s' := Step(hash, s, e);
    ToleratedKeepsMarked(hash, s, e, original);
    StepVerifiedIff(hash, s, e);
    StepKeepsLayout(hash, s, e);
    StepKeepsSize(hash, s, e);
    FooledMarked(hash, s, e, original);
    hide Step, Enabled, KeepsMarked, Contained, DeliversOriginal, Verified, Sound;
    TorrentOfKept(hash, s.pieces, s'.pieces, original);
    hide Recoverable;
    MarkedMatches(hash, s', original, e.m.message.index);
  }

  lemma FooledMarked(hash: Hash, s: State, e: Event, original: seq<byte>)
    requires Enabled(s, e) && !Unfooled(hash, s, e, original)
    ensures IsPieceMessage(e) && e.m.message.index < |Step(hash, s, e).pieces|
    ensures var p := Step(hash, s, e).pieces[e.m.message.index];
            p.downloaded && Stored(Step(hash, s, e).content, p) != Stored(original, p)
  {
    StepKeepsPieceLength(hash, s, e);
    hide Step;
  }

  lemma MarkedMatches(hash: Hash, s: State, original: seq<byte>, i: nat)
    requires Verified(hash, s) && TorrentOf(hash, s.pieces, original) && |original| == |s.content|
    requires i < |s.pieces| && s.pieces[i].downloaded
    ensures |Stored(s.content, s.pieces[i])| == |Stored(original, s.pieces[i])|
    ensures hash(Stored(s.content, s.pieces[i])) == hash(Stored(original, s.pieces[i]))
  {
    PieceInside(s, i);
    assert PieceVerified(hash, s.content, s.pieces[i]);
  }

  lemma ToleratedKeepsMarked(hash: Hash, s: State, e: Event, original: seq<byte>)
    requires Recoverable(hash, s, original) && Enabled(s, e)
    requires DeliversOriginal(s, e, original) || Contained(s, e)
    ensures KeepsMarked(hash, s, e)
  {
    if DeliversOriginal(s, e, original) {
      var i, b :| InPieces(s, i, b) && BlockStart(s, i, b) + BlockAt(s, i, b).len <= |original| &&
        e == HonestMessage(s, e.peer, i, b, original);
      HonestKeepsMarked(hash, s, e.peer, i, b, original);
    } else {
      ContainedKeepsMarked(hash, s, e);
    }
  }

  /** Recoverability survives original blocks, and corrupt ones that overlap no other marked
      piece, if and only if no check is fooled. */
  lemma StepRecoverable(hash: Hash, s: State, e: Event, original: seq<byte>)
    requires Recoverable(hash, s, original) && Enabled(s, e)
    requires IsPieceMessage(e) ==> DeliversOriginal(s, e, original) || Contained(s, e)
    ensures Recoverable(hash, Step(hash, s, e), original) <==> Unfooled(hash, s, e, original)
  {
    var s' := Step(hash, s, e);
    RecoverableParts(hash, s, original);
    hide Step, Enabled, KeepsMarked, Trusted, Contained, DeliversOriginal, Unfooled, Verified, Sound;
    StepVerifiedIff(hash, s, e);
    StepKeepsLayout(hash, s, e);
    TorrentOfKept(hash, s.pieces, s'.pieces, original);
    hide AllTrusted, TorrentOf;
    if IsPieceMessage(e) {
      ToleratedKeepsMarked(hash, s, e, original);
      if Unfooled(hash, s, e, original) {
        PieceKeepsTrust(hash, s, e, original);
      } else {
        FooledNotTrusted(hash, s, e, original);
      }
    } else {
      OthersKeepTrust(hash, s, e, original);
      OthersHarmless(hash, s, e, original);
    }
  }

  lemma OthersHarmless(hash: Hash, s: State, e: Event, original: seq<byte>)
    requires Enabled(s, e) && !IsPieceMessage(e)
    ensures KeepsMarked(hash, s, e) && Unfooled(hash, s, e, original)
  {
    hide Step;
  }

  lemma FooledNotTrusted(hash: Hash, s: State, e: Event, original: seq<byte>)
    requires Enabled(s, e) && !Unfooled(hash, s, e, original)
    ensures !AllTrusted(Step(hash, s, e), original)
  {
    var m := e.m.message;
    ReceivePieceParts(hash, s, e.peer, m.index, m.offset, m.data);
    hide Trusted, Splice;
  }

  lemma StepKeepsSize(hash: Hash, s: State, e: Event)
    requires Enabled(s, e)
    ensures |Step(hash, s, e).content| == |s.content|
  {
  }

  lemma PieceKeepsTrust(hash: Hash, s: State, e: Event, original: seq<byte>)
    requires Recoverable(hash, s, original) && Enabled(s, e) && IsPieceMessage(e)
    requires (DeliversOriginal(s, e, original) || Contained(s, e)) && Unfooled(hash, s, e, original)
    ensures AllTrusted(Step(hash, s, e), original)
  {
    var s' := Step(hash, s, e);
    var m := e.m.message;
    StepKeepsSize(hash, s, e);
    ReceivePieceParts(hash, s, e.peer, m.index, m.offset, m.data);
    assert |s'.pieces| == |s.pieces| && forall j :: 0 <= j < |s.pieces| && j != m.index ==> s'.pieces[j] == s.pieces[j];
    assert Trusted(s'.content, s'.pieces[m.index], original);
    hide Step, Trusted, Unfooled;
    forall j | 0 <= j < |s'.pieces| ensures Trusted(s'.content, s'.pieces[j], original) {
      if j != m.index && s.pieces[j].downloaded {
        OtherStaysOriginal(hash, s, e, original, j);
      }
      if j != m.index && !s.pieces[j].downloaded {
        UnmarkedTrusted(s'.content, s'.pieces[j], original);
      }
    }
  }

  lemma UnmarkedTrusted(content: seq<byte>, p: PieceState, original: seq<byte>)
    requires !p.downloaded
    ensures Trusted(content, p, original)
  {
  }

  lemma OtherStaysOriginal(hash: Hash, s: State, e: Event, original: seq<byte>, j: nat)
    requires Recoverable(hash, s, original) && Enabled(s, e) && IsPieceMessage(e)
    requires DeliversOriginal(s, e, original) || Contained(s, e)
    requires j < |s.pieces| && j != e.m.message.index && s.pieces[j].downloaded
    ensures Trusted(Step(hash, s, e).content, s.pieces[j], original)
  {
    MarkedIsOriginal(hash, s, original, j);
    RecoverableParts(hash, s, original);
    hide Recoverable, Sound, Verified, AllTrusted, TorrentOf, Trusted;
    if DeliversOriginal(s, e, original) {
      HonestCloser(hash, s, e, original);
      hide Step, Enabled;
      OriginalStays(s.content, Step(hash, s, e).content, s.pieces[j], original);
    } else {
      ContainedStays(hash, s, e, j);
      hide Step, Enabled;
    }
    MarkedTrusted(Step(hash, s, e).content, s.pieces[j], original);
  }

  lemma MarkedTrusted(content: seq<byte>, p: PieceState, original: seq<byte>)
    requires Stored(content, p) == Stored(original, p)
    ensures Trusted(content, p, original)
  {
  }

  lemma HonestCloser(hash: Hash, s: State, e: Event, original: seq<byte>)
    requires WellFormed(s) && Enabled(s, e) && DeliversOriginal(s, e, original) && |original| == |s.content|
    ensures Closer(s.content, Step(hash, s, e).content, original)
  {
    var i, b :| InPieces(s, i, b) && BlockStart(s, i, b) + BlockAt(s, i, b).len <= |original| &&
      e == HonestMessage(s, e.peer, i, b, original);
    PeerOf(s, e);
    hide Enabled, Step, Closer, HonestMessage;
    HonestWrites(hash, s, e.peer, i, b, original);
  }

  lemma ContainedStays(hash: Hash, s: State, e: Event, j: nat)
    requires Sound(s) && Enabled(s, e) && IsPieceMessage(e) && Contained(s, e)
    requires j < |s.pieces| && j != e.m.message.index && s.pieces[j].downloaded
    ensures Stored(Step(hash, s, e).content, s.pieces[j]) == Stored(s.content, s.pieces[j])
  {
    var m := e.m.message;
    ReceivePieceParts(hash, s, e.peer, m.index, m.offset, m.data);
    StepKeepsSize(hash, s, e);
    OtherPiecesUntouched(s, m.index, m.offset, m.data, j);
    hide Splice, Sound;
  }

  lemma OthersKeepTrust(hash: Hash, s: State, e: Event, original: seq<byte>)
    requires Sound(s) && AllTrusted(s, original) && Enabled(s, e) && !IsPieceMessage(e)
    ensures AllTrusted(Step(hash, s, e), original)
    ensures forall i :: 0 <= i < |s.pieces| ==>
              (Clean(s.content, s.pieces[i], original) <==>
               Clean(Step(hash, s, e).content, Step(hash, s, e).pieces[i], original))
  {
    OtherEventsKeepContent(hash, s, e);
    var s' := Step(hash, s, e);
    hide Step, Trusted, SameProgress;
    forall i | 0 <= i < |s.pieces|
      ensures Trusted(s'.content, s'.pieces[i], original)
      ensures Clean(s.content, s.pieces[i], original) <==> Clean(s'.content, s'.pieces[i], original)
    {
      ProgressKeepsTrust(s.content, s.pieces[i], s'.pieces[i], original);
    }
  }

  lemma ProgressKeepsTrust(content: seq<byte>, p: PieceState, p': PieceState, original: seq<byte>)
    requires SameProgress(p, p')
    ensures Clean(content, p, original) <==> Clean(content, p', original)
    ensures Trusted(content, p, original) ==> Trusted(content, p', original)
  {
    assert p'.offset == p.offset && p'.len == p.len && p'.downloaded == p.downloaded;
    assert forall b: nat, x: nat :: BlockHas(p, b, x) <==> BlockHas(p', b, x);
    assert forall b: nat :: b < |p.blocks| ==> p.blocks[b].downloaded == p'.blocks[b].downloaded;
    assert Stored(content, p') == Stored(content, p) && Stored(original, p') == Stored(original, p);
  }

  lemma OnTrackUnfooled(hash: Hash, s: State, e: Event, original: seq<byte>)
    requires OnTrack(hash, s, original) && Enabled(s, e)
    requires IsPieceMessage(e) ==> DeliversOriginal(s, e, original)
    ensures Unfooled(hash, s, e, original)
  {
    OnTrackRecoverable(hash, s, original);
    if IsPieceMessage(e) {
      var i, b :| InPieces(s, i, b) && BlockStart(s, i, b) + BlockAt(s, i, b).len <= |original| &&
        e == HonestMessage(s, e.peer, i, b, original);
      PeerOf(s, e);
      hide Step, Enabled, Recoverable, Unfooled, HonestMessage, Clean, Verified, TorrentOf;
      HonestUnfooled(hash, s, e.peer, i, b, original);
    } else {
      OthersHarmless(hash, s, e, original);
    }
  }

  lemma StepOnTrack(hash: Hash, s: State, e: Event, original: seq<byte>)
    requires OnTrack(hash, s, original) && Enabled(s, e)
    requires IsPieceMessage(e) ==> DeliversOriginal(s, e, original)
    ensures OnTrack(hash, Step(hash, s, e), original)
  {
    var s' := Step(hash, s, e);
    OnTrackRecoverable(hash, s, original);
    OnTrackUnfooled(hash, s, e, original);
    StepRecoverable(hash, s, e, original);
    StepKeepsPieceLength(hash, s, e);
    StepKeepsSize(hash, s, e);
    hide Step, Enabled, Verified, Clean, TorrentOf, Trusted, Unfooled;
    if IsPieceMessage(e) {
      var i, b :| InPieces(s, i, b) && BlockStart(s, i, b) + BlockAt(s, i, b).len <= |original| &&
        e == HonestMessage(s, e.peer, i, b, original);
      hide HonestMessage;
      forall j | 0 <= j < |s.pieces| ensures Clean(s'.content, s'.pieces[j], original) {
        HonestKeepsClean(hash, s, e.peer, i, b, original, j);
      }
    } else {
      OthersKeepTrust(hash, s, e, original);
    }
  }

  lemma StepKeepsPieceLength(hash: Hash, s: State, e: Event)
    requires Enabled(s, e)
    ensures Step(hash, s, e).pieceLength == s.pieceLength && |Step(hash, s, e).pieces| == |s.pieces|
  {
  }

  predicate Got(s: State, i: nat, b: nat) { InPieces(s, i, b) && BlockAt(s, i, b).downloaded }

  // ---------- how far a download is from its end ----------

  lemma {:induction false} MissingIn(blocks: seq<Block>, n: nat)
    requires n <= |blocks|
    ensures CountBlocks(blocks, Missing(), n) == 0 <==> forall b :: 0 <= b < n ==> blocks[b].downloaded
  {
    if n != 0 {
      MissingIn(blocks, n - 1);
    }
  }

  lemma {:induction false} MissingInPieces(pieces: seq<PieceState>, n: nat)
    requires n <= |pieces|
    ensures Count(pieces, Missing(), n) == 0 <==> forall i :: 0 <= i < n ==> AllBlocks(pieces[i].blocks)
  {
    if n != 0 {
      MissingInPieces(pieces, n - 1);
      MissingIn(pieces[n - 1].blocks, |pieces[n - 1].blocks|);
    }
  }

  /** The blocks of a piece still to be delivered: those missing, and once more all of them if
      it holds corrupt data and so will fail its check. */
  ghost function Debt(s: State, original: seq<byte>, i: nat): nat
    requires i < |s.pieces|
  {
    CountBlocks(s.pieces[i].blocks, Missing(), |s.pieces[i].blocks|) +
    if Clean(s.content, s.pieces[i], original) then 0 else |s.pieces[i].blocks|
  }

  ghost function DebtTo(s: State, original: seq<byte>, n: nat): nat
    requires n <= |s.pieces|
  {
    if n == 0 then 0 else DebtTo(s, original, n - 1) + Debt(s, original, n - 1)
  }

  ghost function Distance(s: State, original: seq<byte>): nat { DebtTo(s, original, |s.pieces|) }

  /** Without corrupt data that is the number of missing blocks. */
  lemma {:induction false} DebtIsMissing(s: State, original: seq<byte>, n: nat)
    requires n <= |s.pieces|
    ensures Count(s.pieces, Missing(), n) <= DebtTo(s, original, n)
    ensures Agrees(s, original) ==> Count(s.pieces, Missing(), n) == DebtTo(s, original, n)
  {
    if n != 0 {
      DebtIsMissing(s, original, n - 1);
    }
  }

  lemma {:induction false} CountWithin(blocks: seq<Block>, n: nat)
    requires n <= |blocks|
    ensures CountBlocks(blocks, Missing(), n) <= n
  {
    if n != 0 {
      CountWithin(blocks, n - 1);
    }
  }

  lemma {:induction false} CountSome(blocks: seq<Block>, b: nat, n: nat)
    requires b < n <= |blocks| && !blocks[b].downloaded
    ensures 0 < CountBlocks(blocks, Missing(), n)
  {
    if b != n - 1 {
      CountSome(blocks, b, n - 1);
    }
  }

  /** A piece stays clean, and a failed check makes it so. */
  lemma HonestCleans(hash: Hash, s: State, peer: nat, i: nat, b: nat, original: seq<byte>, j: nat)
    requires Recoverable(hash, s, original) && InPieces(s, i, b) && peer < |s.peers| && j < |s.pieces|
    requires BlockStart(s, i, b) + BlockAt(s, i, b).len <= |original|
    ensures var e := HonestMessage(s, peer, i, b, original);
            Enabled(s, e) &&
            var s' := Step(hash, s, e);
            |s'.pieces| == |s.pieces| &&
            (Clean(s.content, s.pieces[j], original) || (j == i && HashFails(hash, s, e, i)) ==>
               Clean(s'.content, s'.pieces[j], original))
  {
    HonestAccepted(s, peer, i, b, original);
    var e := HonestMessage(s, peer, i, b, original);
    StepKeepsPieceLength(hash, s, e);
    hide Step, Enabled, Recoverable, HashFails, Clean, HonestMessage;
    if Clean(s.content, s.pieces[j], original) || (j == i && HashFails(hash, s, e, i)) {
      HonestKeepsClean(hash, s, peer, i, b, original, j);
    }
  }

  /** An original block lowers the debt of its piece by at least one if it was missing, and
      raises no debt. */
  lemma HonestDebt(hash: Hash, s: State, peer: nat, i: nat, b: nat, original: seq<byte>, j: nat)
    requires Recoverable(hash, s, original) && InPieces(s, i, b) && peer < |s.peers| && j < |s.pieces|
    requires BlockStart(s, i, b) + BlockAt(s, i, b).len <= |original|
    ensures var e := HonestMessage(s, peer, i, b, original);
            Enabled(s, e) &&
            var s' := Step(hash, s, e);
            |s'.pieces| == |s.pieces| &&
            Debt(s', original, j) <= Debt(s, original, j) - if j == i && !BlockAt(s, i, b).downloaded then 1 else 0
  {
    HonestAccepted(s, peer, i, b, original);
    HonestCleans(hash, s, peer, i, b, original, j);
    var e := HonestMessage(s, peer, i, b, original);
    var s' := Step(hash, s, e);
    StepKeepsLayout(hash, s, e);
    assert SameLayout(s.pieces[j], s'.pieces[j]);
    if j == i && HashFails(hash, s, e, i) {
      if BlockAt(s, i, b).downloaded {
        RepeatNeverFails(hash, s, peer, i, b, original);
      } else {
        HonestNeverFailsIfClean(hash, s, peer, i, b, original);
        CountSome(s.pieces[i].blocks, b, |s.pieces[i].blocks|);
        CountWithin(s'.pieces[i].blocks, |s'.pieces[i].blocks|);
      }
    } else {
      HonestCounts(hash, s, peer, i, b, original, j);
    }
  }

  lemma HonestNeverFailsIfClean(hash: Hash, s: State, peer: nat, i: nat, b: nat, original: seq<byte>)
    requires Recoverable(hash, s, original) && InPieces(s, i, b) && peer < |s.peers|
    requires BlockStart(s, i, b) + BlockAt(s, i, b).len <= |original|
    requires HashFails(hash, s, HonestMessage(s, peer, i, b, original), i)
    ensures !Clean(s.content, s.pieces[i], original)
  {
    if Clean(s.content, s.pieces[i], original) {
      HonestNeverFails(hash, s, peer, i, b, original);
    }
  }

  /** Without a failed check the count of a piece drops exactly by the block delivered to it. */
  lemma HonestCounts(hash: Hash, s: State, peer: nat, i: nat, b: nat, original: seq<byte>, j: nat)
    requires Recoverable(hash, s, original) && InPieces(s, i, b) && peer < |s.peers| && j < |s.pieces|
    requires BlockStart(s, i, b) + BlockAt(s, i, b).len <= |original|
    requires j == i ==> !HashFails(hash, s, HonestMessage(s, peer, i, b, original), i)
    ensures var e := HonestMessage(s, peer, i, b, original);
            Enabled(s, e) &&
            var s' := Step(hash, s, e);
            |s'.pieces| == |s.pieces| && |s'.pieces[j].blocks| == |s.pieces[j].blocks| &&
            CountBlocks(s'.pieces[j].blocks, Missing(), |s'.pieces[j].blocks|) ==
            CountBlocks(s.pieces[j].blocks, Missing(), |s.pieces[j].blocks|) -
            if j == i && !BlockAt(s, i, b).downloaded then 1 else 0
  {
    HonestAccepted(s, peer, i, b, original);
    var e := HonestMessage(s, peer, i, b, original);
    var s' := Step(hash, s, e);
    StepKeepsLayout(hash, s, e);
    assert SameLayout(s.pieces[j], s'.pieces[j]);
    hide Recoverable, Step, Enabled, HonestMessage, HashFails;
    var blocks := s.pieces[j].blocks;
    var after := if j == i then blocks[b := blocks[b].(downloaded := true)] else blocks;
    forall c | 0 <= c < |blocks| ensures Missing()(after[c]) == Missing()(s'.pieces[j].blocks[c]) {
      HonestMarks(hash, s, peer, i, b, original, j, c);
      assert BlockAt(s', j, c) == s'.pieces[j].blocks[c] && BlockAt(s, j, c) == blocks[c];
    }
    CountBlocksSame(after, s'.pieces[j].blocks, Missing(), |blocks|);
    if j == i {
      CountBlocksUpdate(blocks, b, after[b], Missing(), |blocks|);
    }
  }

  lemma {:induction false} DebtsFall(s: State, s': State, original: seq<byte>, i: nat, drop: nat, n: nat)
    requires n <= |s.pieces| == |s'.pieces|
    requires forall j :: 0 <= j < |s.pieces| ==>
               Debt(s', original, j) <= Debt(s, original, j) - if j == i then drop else 0
    ensures DebtTo(s', original, n) <= DebtTo(s, original, n) - if i < n then drop else 0
  {
    hide Debt;
    if n != 0 {
      DebtsFall(s, s', original, i, drop, n - 1);
    }
  }

  /** Progress: an original block never takes a download farther from its end, and brings it
      nearer if the block was missing, whatever corrupt data the download holds. */
  lemma HonestProgress(hash: Hash, s: State, peer: nat, i: nat, b: nat, original: seq<byte>)
    requires Recoverable(hash, s, original) && InPieces(s, i, b) && peer < |s.peers|
    requires BlockStart(s, i, b) + BlockAt(s, i, b).len <= |original|
    ensures var e := HonestMessage(s, peer, i, b, original);
            Enabled(s, e) &&
            var s' := Step(hash, s, e);
            Distance(s', original) <= Distance(s, original) - if BlockAt(s, i, b).downloaded then 0 else 1
  {
    RecoverableParts(hash, s, original);
    HonestAccepted(s, peer, i, b, original);
    var e := HonestMessage(s, peer, i, b, original);
    var s' := Step(hash, s, e);
    StepKeepsPieceLength(hash, s, e);
    hide Recoverable, Verified, Sound, TorrentOf, AllTrusted, WellFormed, Step, Enabled, HonestMessage, Debt;
    var drop := if BlockAt(s, i, b).downloaded then 0 else 1;
    forall j | 0 <= j < |s.pieces| ensures Debt(s', original, j) <= Debt(s, original, j) - if j == i then drop else 0 {
      HonestDebt(hash, s, peer, i, b, original, j);
    }
    DebtsFall(s, s', original, i, drop, |s.pieces|);
  }

  /** Other events leave it where it is. */
  lemma OtherDistance(hash: Hash, s: State, e: Event, original: seq<byte>)
    requires Recoverable(hash, s, original) && Enabled(s, e) && !IsPieceMessage(e)
    ensures Distance(Step(hash, s, e), original) == Distance(s, original)
  {
    var s' := Step(hash, s, e);
    OtherEventsKeepContent(hash, s, e);
    OthersKeepTrust(hash, s, e, original);
    hide Step, Enabled, Clean, Recoverable, CountBlocks, Trusted;
    forall j | 0 <= j < |s.pieces| ensures Debt(s', original, j) == Debt(s, original, j) {
      assert SameProgress(s.pieces[j], s'.pieces[j]);
      ProgressMissing(s.pieces[j], s'.pieces[j]);
    }
    SameDebts(s, s', original, |s.pieces|);
  }

  lemma {:induction false} SameDebts(s: State, s': State, original: seq<byte>, n: nat)
    requires n <= |s.pieces| == |s'.pieces|
    requires forall j :: 0 <= j < |s.pieces| ==> Debt(s', original, j) == Debt(s, original, j)
    ensures DebtTo(s', original, n) == DebtTo(s, original, n)
  {
    hide Debt;
    if n != 0 {
      SameDebts(s, s', original, n - 1);
    }
  }

  lemma ProgressMissing(p: PieceState, p': PieceState)
    requires SameProgress(p, p')
    ensures |p'.blocks| == |p.blocks|
    ensures CountBlocks(p'.blocks, Missing(), |p'.blocks|) == CountBlocks(p.blocks, Missing(), |p.blocks|)
  {
    forall b | 0 <= b < |p.blocks| ensures Missing()(p.blocks[b]) == Missing()(p'.blocks[b]) {
      assert p'.blocks[b].(record := None) == p.blocks[b].(record := None);
    }
    CountBlocksSame(p.blocks, p'.blocks, Missing(), |p.blocks|);
  }

  lemma PeerOf(s: State, e: Event)
    requires Enabled(s, e) && e.Deliver?
    ensures e.peer < |s.peers|
  {
  }

  /** Over a step without corrupt data the distance does not rise, and if it does not fall
      either, no check failed and no block was gained or lost. */
  lemma StepDistance(hash: Hash, s: State, e: Event, original: seq<byte>)
    requires Recoverable(hash, s, original) && Enabled(s, e)
    requires IsPieceMessage(e) ==> DeliversOriginal(s, e, original)
    ensures var s' := Step(hash, s, e);
            Distance(s', original) <= Distance(s, original) &&
            (Distance(s', original) == Distance(s, original) ==>
               (forall i :: !HashFails(hash, s, e, i)) && forall i, b :: Got(s', i, b) <==> Got(s, i, b))
  {
    if IsPieceMessage(e) {
      var i, b :| InPieces(s, i, b) && BlockStart(s, i, b) + BlockAt(s, i, b).len <= |original| &&
        e == HonestMessage(s, e.peer, i, b, original);
      PeerOf(s, e);
      hide Recoverable, Step, Enabled, HonestMessage, BlockData, Distance, HashFails, Got;
      HonestProgress(hash, s, e.peer, i, b, original);
      if BlockAt(s, i, b).downloaded {
        RepeatChangesNothing(hash, s, e.peer, i, b, original);
      }
    } else {
      OtherDistance(hash, s, e, original);
      OtherGot(hash, s, e);
    }
  }

  /** A block that is there already changes no mark. */
  lemma RepeatChangesNothing(hash: Hash, s: State, peer: nat, i: nat, b: nat, original: seq<byte>)
    requires Recoverable(hash, s, original) && InPieces(s, i, b) && peer < |s.peers|
    requires BlockStart(s, i, b) + BlockAt(s, i, b).len <= |original| && BlockAt(s, i, b).downloaded
    ensures var e := HonestMessage(s, peer, i, b, original);
            Enabled(s, e) && (forall j :: !HashFails(hash, s, e, j)) &&
            forall j, c :: Got(Step(hash, s, e), j, c) <==> Got(s, j, c)
  {
    HonestAccepted(s, peer, i, b, original);
    RepeatNeverFails(hash, s, peer, i, b, original);
    var e := HonestMessage(s, peer, i, b, original);
    var s' := Step(hash, s, e);
    assert forall j :: !HashFails(hash, s, e, j);
    StepKeepsLayout(hash, s, e);
    hide Recoverable, Step, Enabled, HonestMessage, BlockData, HashFails;
    forall j: nat, c: nat ensures Got(s', j, c) <==> Got(s, j, c) {
      if j < |s.pieces| {
        assert SameLayout(s.pieces[j], s'.pieces[j]);
      }
      if InPieces(s, j, c) {
        HonestMarks(hash, s, peer, i, b, original, j, c);
      }
    }
  }

  lemma OtherGot(hash: Hash, s: State, e: Event)
    requires Sound(s) && Enabled(s, e) && !IsPieceMessage(e)
    ensures forall i, b :: Got(Step(hash, s, e), i, b) <==> Got(s, i, b)
  {
    OtherEventsKeepContent(hash, s, e);
    var s' := Step(hash, s, e);
    hide Step, Enabled, Sound;
    forall i: nat, b: nat ensures Got(s', i, b) <==> Got(s, i, b) {
      if i < |s.pieces| {
        assert SameProgress(s.pieces[i], s'.pieces[i]);
      }
      if InPieces(s, i, b) {
        assert s'.pieces[i].blocks[b].(record := None) == s.pieces[i].blocks[b].(record := None);
      }
    }
  }

  /** Without corrupt data the count of missing blocks drops by one exactly when the block was missing. */
  lemma HonestProgressExact(hash: Hash, s: State, peer: nat, i: nat, b: nat, original: seq<byte>)
    requires OnTrack(hash, s, original) && InPieces(s, i, b) && peer < |s.peers|
    requires BlockStart(s, i, b) + BlockAt(s, i, b).len <= |original|
    ensures var e := HonestMessage(s, peer, i, b, original);
            Enabled(s, e) &&
            MissingBlocks(Step(hash, s, e)) == MissingBlocks(s) - if BlockAt(s, i, b).downloaded then 0 else 1
  {
    OnTrackRecoverable(hash, s, original);
    HonestNeverFails(hash, s, peer, i, b, original);
    HonestAccepted(s, peer, i, b, original);
    var e := HonestMessage(s, peer, i, b, original);
    StepKeepsLayout(hash, s, e);
    var s' := Step(hash, s, e);
    hide OnTrack, Recoverable, Step, Enabled, HonestMessage, HashFails;
    var blocks := s.pieces[i].blocks;
    var marked := blocks[b := blocks[b].(downloaded := true)];
    var pieces := s.pieces[i := s.pieces[i].(blocks := marked)];
    forall j, c | 0 <= j < |pieces| && 0 <= c < |pieces[j].blocks|
      ensures Missing()(pieces[j].blocks[c]) == Missing()(s'.pieces[j].blocks[c])
    {
      HonestMarks(hash, s, peer, i, b, original, j, c);
    }
    CountSame(pieces, s'.pieces, Missing(), |pieces|);
    CountPieceUpdate(s.pieces, i, pieces[i], Missing(), |s.pieces|);
    CountBlocksUpdate(blocks, b, marked[b], Missing(), |blocks|);
  }

  // ---------- whole downloads ----------

  /** A downloaded block stays so through everything but corrupt data and failed checks. */
  lemma StepKeepsDownloaded(hash: Hash, s: State, e: Event, original: seq<byte>, j: nat, c: nat)
    requires Recoverable(hash, s, original) && Enabled(s, e) && InPieces(s, j, c)
    requires IsPieceMessage(e) ==> DeliversOriginal(s, e, original) && !HashFails(hash, s, e, j)
    ensures InPieces(Step(hash, s, e), j, c)
    ensures BlockAt(s, j, c).downloaded ==> BlockAt(Step(hash, s, e), j, c).downloaded
  {
    if IsPieceMessage(e) {
      var i, b :| InPieces(s, i, b) && BlockStart(s, i, b) + BlockAt(s, i, b).len <= |original| &&
        e == HonestMessage(s, e.peer, i, b, original);
      HonestMarks(hash, s, e.peer, i, b, original, j, c);
    } else {
      OtherEventsKeepContent(hash, s, e);
      assert SameProgress(s.pieces[j], Step(hash, s, e).pieces[j]);
    }
  }

  /** A fresh download is on track unless a stored piece collides with the original. */
  lemma InitiallyOnTrack(hash: Hash, content: seq<byte>, pieceLength: nat, shas: seq<Sha1>, original: seq<byte>)
    requires Cuttable(|content|, pieceLength, |shas|)
    requires var s := InitialState(hash, content, pieceLength, shas);
             TorrentOf(hash, s.pieces, original) && Separates(hash, s, original)
    ensures OnTrack(hash, InitialState(hash, content, pieceLength, shas), original)
  {
    var s := InitialState(hash, content, pieceLength, shas);
    InitiallyVerified(hash, content, pieceLength, shas);
    forall i | 0 <= i < |s.pieces| ensures Clean(s.content, s.pieces[i], original) {
      InitialPieceClean(hash, content, pieceLength, shas, original, i);
    }
  }

  lemma InitialPieceClean(hash: Hash, content: seq<byte>, pieceLength: nat, shas: seq<Sha1>,
                          original: seq<byte>, i: nat)
    requires Cuttable(|content|, pieceLength, |shas|) && i < |shas|
    requires var s := InitialState(hash, content, pieceLength, shas);
             TorrentOf(hash, s.pieces, original) && Separates(hash, s, original) && Verified(hash, s)
    ensures Clean(content, InitialPiece(hash, content, pieceLength, shas, i), original)
  {
    var s := InitialState(hash, content, pieceLength, shas);
    assert s.content == content && |s.pieces| == |shas| &&
           s.pieces[i] == InitialPiece(hash, content, pieceLength, shas, i);
    InitialBlocks(hash, content, pieceLength, shas, i);
    hide InitialState, InitialPiece;
    VerifiedIsClean(hash, s, original, i);
  }

  /** A piece not found on disk has no block yet. */
  lemma InitialBlocks(hash: Hash, content: seq<byte>, pieceLength: nat, shas: seq<Sha1>, i: nat)
    requires Cuttable(|content|, pieceLength, |shas|) && i < |shas|
    ensures var p := InitialPiece(hash, content, pieceLength, shas, i);
            forall b :: 0 <= b < |p.blocks| ==> p.blocks[b].downloaded == p.downloaded
  {
  }

  lemma VerifiedIsClean(hash: Hash, s: State, original: seq<byte>, i: nat)
    requires Verified(hash, s) && TorrentOf(hash, s.pieces, original) && Separates(hash, s, original)
    requires i < |s.pieces|
    requires forall b :: 0 <= b < |s.pieces[i].blocks| ==>
               s.pieces[i].blocks[b].downloaded == s.pieces[i].downloaded
    ensures Clean(s.content, s.pieces[i], original)
  {
    var p := s.pieces[i];
    PieceInside(s, i);
    assert PieceVerified(hash, s.content, p);
    if p.downloaded {
      assert s.content[p.offset..p.offset + p.len] == original[p.offset..p.offset + p.len];
      hide Verified, Sound, Separates, TorrentOf;
      forall b: nat, x: nat | BlockHas(p, b, x) && x < |s.content| ensures s.content[x] == original[x] {
        SliceByte(s.content, original, p.offset, p.offset + p.len, x);
      }
    }
  }

  /** With no block missing, all pieces are verified, the flag is set and the content is the
      original: a corrupt piece would have failed its check. */
  lemma NothingMissingMeansOriginal(hash: Hash, s: State, original: seq<byte>)
    requires Recoverable(hash, s, original) && s.pieces != [] && MissingBlocks(s) == 0
    ensures s.content == original && s.downloaded
    ensures forall i :: 0 <= i < |s.pieces| ==> HashMatches(hash, s.content, s.pieces[i])
    ensures forall i :: 0 <= i < |s.pieces| && s.pieces[i].blocks != [] ==> s.pieces[i].downloaded
  {
    RecoverableParts(hash, s, original);
    MissingInPieces(s.pieces, |s.pieces|);
    assert AllDone(s.pieces) && s.downloaded;
    forall i | 0 <= i < |s.pieces| && s.pieces[i].blocks != [] ensures s.pieces[i].downloaded {
      assert PieceVerified(hash, s.content, s.pieces[i]);
    }
    hide Recoverable, AllTrusted, Verified, Sound, MissingBlocks, Count, AllDone;
    forall x: nat | x < |s.content| ensures s.content[x] == original[x] {
      ByteIsOriginal(hash, s, original, x);
    }
    forall i | 0 <= i < |s.pieces| ensures HashMatches(hash, s.content, s.pieces[i]) {
      PieceInside(s, i);
    }
  }

  lemma ByteIsOriginal(hash: Hash, s: State, original: seq<byte>, x: nat)
    requires Recoverable(hash, s, original) && s.pieces != [] && x < |s.content|
    requires forall i :: 0 <= i < |s.pieces| && s.pieces[i].blocks != [] ==> s.pieces[i].downloaded
    ensures x < |original| && s.content[x] == original[x]
  {
    RecoverableParts(hash, s, original);
    var i, b := EveryByteCovered(|s.content|, s.pieceLength, s.pieces, x);
    hide Recoverable, AllTrusted, Verified, Sound, TorrentOf;
    MarkedIsOriginal(hash, s, original, i);
    SliceByte(s.content, original, s.pieces[i].offset, s.pieces[i].offset + s.pieces[i].len, x);
  }

  /** Block (i, b) is delivered by some event from moment `from` on and before moment `to`. */
  ghost predicate DeliveredWithin(states: seq<State>, events: seq<Event>, from: nat, to: nat, i: nat, b: nat,
                                  original: seq<byte>) {
    exists k :: from <= k < to && k < |events| && k < |states| && InPieces(states[k], i, b) && events[k].Deliver? &&
      BlockStart(states[k], i, b) + BlockAt(states[k], i, b).len <= |original| &&
      events[k] == HonestMessage(states[k], events[k].peer, i, b, original)
  }

  ghost predicate HonestRun(hash: Hash, states: seq<State>, events: seq<Event>, original: seq<byte>) {
    Trace(hash, states, events) && OnTrack(hash, states[0], original) &&
    forall k :: 0 <= k < |events| && IsPieceMessage(events[k]) ==> DeliversOriginal(states[k], events[k], original)
  }

  lemma {:induction false} AlwaysOnTrack(hash: Hash, states: seq<State>, events: seq<Event>, n: nat,
                                         original: seq<byte>)
    requires HonestRun(hash, states, events, original) && n < |states|
    ensures OnTrack(hash, states[n], original) && |states[n].pieces| == |states[0].pieces|
  {
    hide OnTrack, Step, Enabled;
    if n != 0 {
      AlwaysOnTrack(hash, states, events, n - 1, original);
      StepOnTrack(hash, states[n - 1], events[n - 1], original);
      StepKeepsPieceLength(hash, states[n - 1], events[n - 1]);
    }
  }

  /** On a run without corrupt data no check fails. */
  lemma OnTrackNeverFails(hash: Hash, s: State, e: Event, original: seq<byte>, j: nat)
    requires OnTrack(hash, s, original) && Enabled(s, e)
    requires IsPieceMessage(e) ==> DeliversOriginal(s, e, original)
    ensures !HashFails(hash, s, e, j)
  {
    OnTrackRecoverable(hash, s, original);
    if IsPieceMessage(e) && e.m.message.index == j {
      var i, b :| InPieces(s, i, b) && BlockStart(s, i, b) + BlockAt(s, i, b).len <= |original| &&
        e == HonestMessage(s, e.peer, i, b, original);
      HonestNeverFails(hash, s, e.peer, i, b, original);
    }
  }

  /** A block is downloaded at moment `n` if it was at the start or was delivered since. */
  lemma {:induction false} DeliveredStays(hash: Hash, states: seq<State>, events: seq<Event>, n: nat,
                                          i: nat, b: nat, original: seq<byte>)
    requires HonestRun(hash, states, events, original) && n < |states| && InPieces(states[0], i, b)
    ensures InPieces(states[n], i, b)
    ensures BlockAt(states[0], i, b).downloaded || DeliveredWithin(states, events, 0, n, i, b, original) ==>
              BlockAt(states[n], i, b).downloaded
  {
    hide OnTrack, Recoverable, Step, HashFails;
    if n != 0 {
      DeliveredStays(hash, states, events, n - 1, i, b, original);
      AlwaysOnTrack(hash, states, events, n - 1, original);
      var s, e := states[n - 1], events[n - 1];
      OnTrackRecoverable(hash, s, original);
      OnTrackNeverFails(hash, s, e, original, i);
      StepKeepsDownloaded(hash, s, e, original, i, b);
      if DeliveredWithin(states, events, 0, n, i, b, original) &&
         !DeliveredWithin(states, events, 0, n - 1, i, b, original) {
        HonestMarks(hash, s, e.peer, i, b, original, i, b);
      }
    }
  }

  /** Convergence. Let a download start on track and receive, in any order, with repeats
      and interleaved with anything else that can happen, only original blocks. Once every
      block missing at the start has been delivered, the content is the original, every
      piece is verified, and the download is marked downloaded. */
  lemma Converges(hash: Hash, states: seq<State>, events: seq<Event>, n: nat, original: seq<byte>)
    requires HonestRun(hash, states, events, original) && n < |states| && states[0].pieces != []
    requires forall i, b :: InPieces(states[0], i, b) ==>
               BlockAt(states[0], i, b).downloaded || DeliveredWithin(states, events, 0, n, i, b, original)
    ensures states[n].content == original && states[n].downloaded && MissingBlocks(states[n]) == 0
    ensures forall i :: 0 <= i < |states[n].pieces| ==> HashMatches(hash, states[n].content, states[n].pieces[i])
  {
    AlwaysOnTrack(hash, states, events, n, original);
    var s := states[n];
    OnTrackRecoverable(hash, s, original);
    hide OnTrack, Recoverable;
    forall i, b | 0 <= i < |s.pieces| && 0 <= b < |s.pieces[i].blocks| ensures s.pieces[i].blocks[b].downloaded {
      SameBlocks(hash, states, events, n, i, b);
      DeliveredStays(hash, states, events, n, i, b, original);
      assert BlockAt(s, i, b).downloaded;
    }
    MissingInPieces(s.pieces, |s.pieces|);
    NothingMissingMeansOriginal(hash, states[n], original);
  }

  lemma {:induction false} SameBlocks(hash: Hash, states: seq<State>, events: seq<Event>, n: nat, i: nat, b: nat)
    requires Trace(hash, states, events) && n < |states| && Sound(states[0])
    ensures Sound(states[n])
    ensures InPieces(states[n], i, b) <==> InPieces(states[0], i, b)
  {
    if n != 0 {
      SameBlocks(hash, states, events, n - 1, i, b);
      StepSound(hash, states[n - 1], events[n - 1]);
      StepKeepsLayout(hash, states[n - 1], events[n - 1]);
    }
  }

  // ---------- recovery from corrupt data ----------

  /** A download that may hold corrupt data, and from then on receives only original blocks, none
      of which makes a corrupt piece pass its check. */
  ghost predicate RecoveringRun(hash: Hash, states: seq<State>, events: seq<Event>, original: seq<byte>) {
    Trace(hash, states, events) && Recoverable(hash, states[0], original) &&
    forall k :: 0 <= k < |events| ==>
      (IsPieceMessage(events[k]) ==> DeliversOriginal(states[k], events[k], original)) &&
      Unfooled(hash, states[k], events[k], original)
  }

  lemma {:induction false} AlwaysRecoverable(hash: Hash, states: seq<State>, events: seq<Event>, n: nat,
                                             original: seq<byte>)
    requires RecoveringRun(hash, states, events, original) && n < |states|
    ensures Recoverable(hash, states[n], original) && |states[n].pieces| == |states[0].pieces|
  {
    hide Recoverable, Step, Enabled;
    if n != 0 {
      AlwaysRecoverable(hash, states, events, n - 1, original);
      StepRecoverable(hash, states[n - 1], events[n - 1], original);
      StepKeepsPieceLength(hash, states[n - 1], events[n - 1]);
    }
  }

  /** What one event does to a piece: it stays clean, and while it is not, it gets every block
      delivered and keeps those it has. */
  lemma RecoveringStep(hash: Hash, s: State, e: Event, original: seq<byte>, i: nat)
    requires Recoverable(hash, s, original) && Enabled(s, e) && i < |s.pieces|
    requires IsPieceMessage(e) ==> DeliversOriginal(s, e, original)
    ensures var s' := Step(hash, s, e);
            |s'.pieces| == |s.pieces| && |s'.pieces[i].blocks| == |s.pieces[i].blocks| &&
            (Clean(s.content, s.pieces[i], original) ==> Clean(s'.content, s'.pieces[i], original)) &&
            (Clean(s.content, s.pieces[i], original) || !Clean(s'.content, s'.pieces[i], original) ==>
               forall b :: Got(s, i, b) ==> Got(s', i, b))
  {
    var s' := Step(hash, s, e);
    StepKeepsLayout(hash, s, e);
    assert SameLayout(s.pieces[i], s'.pieces[i]);
    hide Step, Enabled, Clean, Trusted, Verified, TorrentOf;
    if IsPieceMessage(e) {
      var j, c :| InPieces(s, j, c) && BlockStart(s, j, c) + BlockAt(s, j, c).len <= |original| &&
        e == HonestMessage(s, e.peer, j, c, original);
      HonestAccepted(s, e.peer, j, c, original);
      PeerOf(s, e);
      HonestCleans(hash, s, e.peer, j, c, original, i);
      if j == i && Clean(s.content, s.pieces[i], original) {
        HonestNeverFails(hash, s, e.peer, i, c, original);
      }
      forall b | Got(s, i, b) && (Clean(s.content, s.pieces[i], original) || !Clean(s'.content, s'.pieces[i], original))
        ensures Got(s', i, b)
      {
        HonestMarks(hash, s, e.peer, j, c, original, i, b);
      }
    } else {
      OthersKeepTrust(hash, s, e, original);
      forall b | Got(s, i, b) ensures Got(s', i, b) {
        StepKeepsDownloaded(hash, s, e, original, i, b);
      }
    }
  }

  /** A block delivered to a piece is there afterwards, unless its delivery revealed corrupt data. */
  lemma DeliveredIsGot(hash: Hash, s: State, peer: nat, i: nat, b: nat, original: seq<byte>)
    requires Recoverable(hash, s, original) && InPieces(s, i, b) && peer < |s.peers|
    requires BlockStart(s, i, b) + BlockAt(s, i, b).len <= |original|
    ensures var e := HonestMessage(s, peer, i, b, original);
            Enabled(s, e) &&
            var s' := Step(hash, s, e);
            |s'.pieces| == |s.pieces| &&
            (Clean(s.content, s.pieces[i], original) || !Clean(s'.content, s'.pieces[i], original) ==> Got(s', i, b))
  {
    HonestCleans(hash, s, peer, i, b, original, i);
    HonestMarks(hash, s, peer, i, b, original, i, b);
    if Clean(s.content, s.pieces[i], original) {
      HonestNeverFails(hash, s, peer, i, b, original);
    }
  }

  /** After `n` events piece `i` is clean, or has all blocks that were delivered to it. */
  lemma {:induction false} FirstPass(hash: Hash, states: seq<State>, events: seq<Event>, n: nat,
                                     i: nat, original: seq<byte>)
    requires RecoveringRun(hash, states, events, original) && n < |states| && i < |states[0].pieces|
    ensures Recoverable(hash, states[n], original) && i < |states[n].pieces|
    ensures |states[n].pieces[i].blocks| == |states[0].pieces[i].blocks|
    ensures Clean(states[n].content, states[n].pieces[i], original) ||
            forall b :: DeliveredWithin(states, events, 0, n, i, b, original) ==> Got(states[n], i, b)
  {
    AlwaysRecoverable(hash, states, events, n, original);
    if n != 0 {
      hide Recoverable, Clean, Step, Enabled, Got;
      FirstPass(hash, states, events, n - 1, i, original);
      var s, e, s' := states[n - 1], events[n - 1], states[n];
      RecoveringStep(hash, s, e, original, i);
      if !Clean(s'.content, s'.pieces[i], original) {
        forall b | DeliveredWithin(states, events, 0, n, i, b, original) ensures Got(s', i, b) {
          if !DeliveredWithin(states, events, 0, n - 1, i, b, original) {
            PeerOf(s, e);
            DeliveredIsGot(hash, s, e.peer, i, b, original);
          }
        }
      }
    }
  }

  /** From a clean moment on the piece stays clean and keeps every block delivered to it. */
  lemma {:induction false} SecondPass(hash: Hash, states: seq<State>, events: seq<Event>, m: nat, n: nat,
                                      i: nat, original: seq<byte>)
    requires RecoveringRun(hash, states, events, original) && m <= n < |states|
    requires i < |states[m].pieces| && Clean(states[m].content, states[m].pieces[i], original)
    ensures Recoverable(hash, states[n], original) && i < |states[n].pieces|
    ensures Clean(states[n].content, states[n].pieces[i], original)
    ensures forall b :: DeliveredWithin(states, events, m, n, i, b, original) ==> Got(states[n], i, b)
  {
    hide Recoverable, Clean, Step, Enabled, Got;
    AlwaysRecoverable(hash, states, events, n, original);
    if m < n {
      SecondPass(hash, states, events, m, n - 1, i, original);
      var s, e, s' := states[n - 1], events[n - 1], states[n];
      RecoveringStep(hash, s, e, original, i);
      forall b | DeliveredWithin(states, events, m, n, i, b, original) ensures Got(s', i, b) {
        if !DeliveredWithin(states, events, m, n - 1, i, b, original) {
          PeerOf(s, e);
          DeliveredIsGot(hash, s, e.peer, i, b, original);
        }
      }
    }
  }

  /** A piece that has all its blocks is marked, so it is original and clean. */
  lemma FullIsClean(hash: Hash, s: State, i: nat, original: seq<byte>)
    requires Recoverable(hash, s, original) && i < |s.pieces| && AllBlocks(s.pieces[i].blocks)
    ensures Clean(s.content, s.pieces[i], original)
  {
    var p := s.pieces[i];
    if p.blocks != [] {
      assert PieceVerified(hash, s.content, p);
      MarkedIsOriginal(hash, s, original, i);
      hide Recoverable;
      forall b: nat, x: nat | BlockHas(p, b, x) && x < |s.content| && x < |original|
        ensures s.content[x] == original[x]
      {
        SliceByte(s.content, original, p.offset, p.offset + p.len, x);
      }
    }
  }

  /** Recovery. Whatever corrupt data a download holds, it is complete once every block of the
      original has arrived twice: in one pass over all blocks and, after that, in another. The
      first pass makes every corrupt piece fail its check, the second fills the pieces again. */
  lemma TwoPassesSuffice(hash: Hash, states: seq<State>, events: seq<Event>, m: nat, n: nat, original: seq<byte>)
    requires RecoveringRun(hash, states, events, original) && m <= n < |states| && states[0].pieces != []
    requires forall i, b :: InPieces(states[0], i, b) ==>
               DeliveredWithin(states, events, 0, m, i, b, original) &&
               DeliveredWithin(states, events, m, n, i, b, original)
    ensures states[n].content == original && states[n].downloaded && MissingBlocks(states[n]) == 0
    ensures forall i :: 0 <= i < |states[n].pieces| ==> HashMatches(hash, states[n].content, states[n].pieces[i])
  {
    AlwaysRecoverable(hash, states, events, n, original);
    var s := states[n];
    hide Recoverable, Clean;
    forall i | 0 <= i < |s.pieces| ensures AllBlocks(s.pieces[i].blocks) {
      PassFills(hash, states, events, m, n, i, original);
    }
    MissingInPieces(s.pieces, |s.pieces|);
    NothingMissingMeansOriginal(hash, s, original);
  }

  lemma PassFills(hash: Hash, states: seq<State>, events: seq<Event>, m: nat, n: nat, i: nat, original: seq<byte>)
    requires RecoveringRun(hash, states, events, original) && m <= n < |states| && i < |states[0].pieces|
    requires forall b :: InPieces(states[0], i, b) ==>
               DeliveredWithin(states, events, 0, m, i, b, original) &&
               DeliveredWithin(states, events, m, n, i, b, original)
    ensures i < |states[n].pieces| && AllBlocks(states[n].pieces[i].blocks)
  {
    hide Recoverable, Clean;
    FirstPass(hash, states, events, m, i, original);
    FirstPass(hash, states, events, n, i, original);
    if !Clean(states[m].content, states[m].pieces[i], original) {
      forall b | 0 <= b < |states[m].pieces[i].blocks| ensures states[m].pieces[i].blocks[b].downloaded {
        assert InPieces(states[0], i, b);
        assert Got(states[m], i, b);
      }
      FullIsClean(hash, states[m], i, original);
    }
    SecondPass(hash, states, events, m, n, i, original);
    forall b | 0 <= b < |states[n].pieces[i].blocks| ensures states[n].pieces[i].blocks[b].downloaded {
      assert InPieces(states[0], i, b);
      assert Got(states[n], i, b);
    }
  }

  /** A new download of one piece that found anything but the original on disk, and whose first
      block was then delivered corrupt. */
  lemma CorruptStart(hash: Hash, original: seq<byte>, found: seq<byte>, bad: seq<byte>) returns (s: State)
    requires |original| == |found| == 2 * BLOCK_SIZE && |bad| == BLOCK_SIZE && hash(found) != hash(original)
    ensures Recoverable(hash, s, original) && s.content == bad + found[BLOCK_SIZE..]
    ensures |s.pieces| == |s.peers| == 1 && |s.pieces[0].blocks| == 2
    ensures Got(s, 0, 0) && !Got(s, 0, 1) && s.pieces[0].offset == 0 && s.pieces[0].len == |original|
  {
    var joined := FreshWith(hash, original, found);
    var e := Deliver(0, Known(Piece(0, 0, bad)));
    s := Step(hash, joined, e);
    FirstHalf(found, bad);
    FirstBlockMarked(hash, joined, e, bad);
    hide Verified, Step, Clean, HashMatches, Splice;
    TorrentOfKept(hash, joined.pieces, s.pieces, original);
  }

  lemma FirstHalf(s: seq<byte>, data: seq<byte>)
    requires |s| == 2 * BLOCK_SIZE && |data| == BLOCK_SIZE
    ensures Splice(s, 0, data) == data + s[BLOCK_SIZE..]
  {
  }

  /** A new download of one piece of two blocks, with one peer and nothing marked. */
  lemma FreshWith(hash: Hash, original: seq<byte>, content: seq<byte>) returns (s: State)
    requires |original| == |content| == 2 * BLOCK_SIZE && hash(content) != hash(original)
    ensures Verified(hash, s) && TorrentOf(hash, s.pieces, original) && s.content == content
    ensures |s.pieces| == |s.peers| == 1 && |s.pieces[0].blocks| == 2 && s.pieceLength == |content|
    ensures s.pieces[0].offset == 0 && s.pieces[0].len == |content|
    ensures !s.pieces[0].blocks[0].downloaded && !s.pieces[0].blocks[1].downloaded
  {
    var shas := [hash(original)];
    var start := InitialState(hash, content, |content|, shas);
    assert content[0..|content|] == content && original[0..|original|] == original;
    InitiallyVerified(hash, content, |content|, shas);
    StepVerifiedIff(hash, start, Join(None));
    assert PieceShaped(|content|, |content|, 1, 0, start.pieces[0]);
    assert start.pieces[0] == InitialPiece(hash, content, |content|, shas, 0);
    s := Register(start, None);
  }

  /** Delivering the first block, whatever the data, writes and marks it. */
  lemma FirstBlockMarked(hash: Hash, s: State, e: Event, data: seq<byte>)
    requires Verified(hash, s) && |s.pieces| == |s.peers| == 1 && |s.pieces[0].blocks| == 2
    requires |s.content| == s.pieceLength == 2 * BLOCK_SIZE && s.pieces[0].offset == 0
    requires s.pieces[0].len == |s.content|
    requires !s.pieces[0].blocks[0].downloaded && !s.pieces[0].blocks[1].downloaded
    requires e == Deliver(0, Known(Piece(0, 0, data))) && |data| == BLOCK_SIZE
    ensures Enabled(s, e) &&
            var s' := Step(hash, s, e);
            Verified(hash, s') && s'.content == Splice(s.content, 0, data) && |s'.pieces| == |s'.peers| == 1 &&
            !s'.pieces[0].downloaded && |s'.pieces[0].blocks| == 2 && Got(s', 0, 0) && !Got(s', 0, 1) &&
            SameLayout(s.pieces[0], s'.pieces[0])
  {
    assert PieceInRange(s, 0, 0, data);
    ReceivePieceParts(hash, s, 0, 0, 0, data);
    StepKeepsLayout(hash, s, e);
    OnePeerStays(hash, s, e);
    assert KeepsMarked(hash, s, e);
    StepVerifiedIff(hash, s, e);
    assert !MarkBlock(s.pieces[0], 0).blocks[1].downloaded;
    assert !HashFails(hash, s, e, 0) by {
      assert PieceVerified(hash, s.content, s.pieces[0]);
    }
    NamedPieceStep(hash, s, e, 0, 0);
    NamedPieceStep(hash, s, e, 0, 1);
    hide Step, Splice, HashFails;
    var s' := Step(hash, s, e);
    assert PieceVerified(hash, s'.content, s'.pieces[0]);
    assert !BlockAt(s', 0, 1).downloaded;
  }

  /** The second block completes the piece, whose first block is still corrupt. */
  lemma CorruptionShows(hash: Hash, s: State, original: seq<byte>, found: seq<byte>, bad: seq<byte>)
    requires |original| == |found| == 2 * BLOCK_SIZE && |bad| == BLOCK_SIZE
    requires hash(bad + original[BLOCK_SIZE..]) != hash(original)
    requires Recoverable(hash, s, original) && s.content == bad + found[BLOCK_SIZE..]
    requires |s.pieces| == |s.peers| == 1 && |s.pieces[0].blocks| == 2
    requires Got(s, 0, 0) && !Got(s, 0, 1) && s.pieces[0].offset == 0 && s.pieces[0].len == |original|
    ensures BlockStart(s, 0, 1) + BlockAt(s, 0, 1).len <= |original|
    ensures HashFails(hash, s, HonestMessage(s, 0, 0, 1, original), 0)
  {
    BlockInTorrent(s, 0, 1);
    assert PieceShaped(|s.content|, s.pieceLength, 1, 0, s.pieces[0]);
    HonestAccepted(s, 0, 0, 1, original);
    ShaOfWhole(hash, s, original);
    hide Recoverable, Splice;
    SecondHalf(bad, found, original);
    assert MarkBlock(s.pieces[0], 1).downloaded by {
      assert AllBlocks(MarkBlock(s.pieces[0], 1).blocks);
    }
  }

  lemma SecondHalf(bad: seq<byte>, found: seq<byte>, original: seq<byte>)
    requires |original| == |found| == 2 * BLOCK_SIZE && |bad| == BLOCK_SIZE
    ensures var s := Splice(bad + found[BLOCK_SIZE..], BLOCK_SIZE, original[BLOCK_SIZE..BLOCK_SIZE + BLOCK_SIZE]);
            s == bad + original[BLOCK_SIZE..] && s[0..2 * BLOCK_SIZE] == s
  {
  }

  lemma ShaOfWhole(hash: Hash, s: State, original: seq<byte>)
    requires TorrentOf(hash, s.pieces, original) && |s.pieces| == 1
    requires s.pieces[0].offset == 0 && s.pieces[0].len == |original|
    ensures s.pieces[0].sha == hash(original)
  {
    assert original[0..|original|] == original;
  }

  lemma OneMissing(s: State)
    requires |s.pieces| == 1 && |s.pieces[0].blocks| == 2 && Got(s, 0, 0) && !Got(s, 0, 1)
    ensures MissingBlocks(s) == 1
  {
    var blocks := s.pieces[0].blocks;
    assert CountBlocks(blocks, Missing(), 0) == 0 && CountBlocks(blocks, Missing(), 1) == 0;
    assert CountBlocks(blocks, Missing(), 2) == 1;
    assert Count(s.pieces, Missing(), 0) == 0;
  }

  /** One pass is not enough, whatever was found on disk. A torrent of one piece with two blocks,
      the first delivered corrupt: when the second arrives the check fails and both are
      dropped, and the first block alone does not complete the piece. */
  lemma OnePassFails(hash: Hash, original: seq<byte>, found: seq<byte>, bad: seq<byte>)
    returns (states: seq<State>, events: seq<Event>)
    requires |original| == |found| == 2 * BLOCK_SIZE && |bad| == BLOCK_SIZE
    requires hash(found) != hash(original) && hash(bad + original[BLOCK_SIZE..]) != hash(original)
    ensures RecoveringRun(hash, states, events, original) && |events| == 2 && MissingBlocks(states[2]) == 1
    ensures |states[0].pieces| == 1 && |states[0].pieces[0].blocks| == 2
    ensures states[0].content == bad + found[BLOCK_SIZE..]
    ensures DeliveredWithin(states, events, 0, 2, 0, 0, original)
    ensures DeliveredWithin(states, events, 0, 2, 0, 1, original)
  {
    var s := CorruptStart(hash, original, found, bad);
    RecoverableParts(hash, s, original);
    CorruptionShows(hash, s, original, found, bad);
    hide Recoverable, HashFails, Step, Splice, HonestMessage, MissingBlocks;
    hide Clean, Enabled, Got, RecoveringRun, DeliveredWithin;
    var s1 := HonestOne(hash, s, 0, 1, original);
    HonestOneMarks(hash, s, 1, original, 0);
    HonestOneMarks(hash, s, 1, original, 1);
    var s2 := HonestOne(hash, s1, 0, 0, original);
    HonestOneMarks(hash, s1, 0, original, 0);
    HonestOneMarks(hash, s1, 0, original, 1);
    HonestNeverFails(hash, s1, 0, 0, 0, original);
    OneMissing(s2);
    states, events := [s, s1, s2], [HonestMessage(s, 0, 0, 1, original), HonestMessage(s1, 0, 0, 0, original)];
    TwoEvents(hash, states, events, original);
  }

  lemma HonestOne(hash: Hash, s: State, i: nat, b: nat, original: seq<byte>) returns (s': State)
    requires Recoverable(hash, s, original) && |s.peers| == 1 && |s.pieces| == 1 && |s.pieces[0].blocks| == 2
    requires i == 0 && b < 2
    requires BlockStart(s, 0, b) + BlockAt(s, 0, b).len <= |original|
    requires Clean(s.content, s.pieces[0], original) || HashFails(hash, s, HonestMessage(s, 0, 0, b, original), 0)
    ensures BlockStart(s, i, b) + BlockAt(s, i, b).len <= |original|
    ensures var e := HonestMessage(s, 0, i, b, original); Enabled(s, e) && s' == Step(hash, s, e)
    ensures Unfooled(hash, s, HonestMessage(s, 0, i, b, original), original)
    ensures Recoverable(hash, s', original) && |s'.peers| == 1 && |s'.pieces| == 1 && |s'.pieces[0].blocks| == 2
  {
    BlockInTorrent(s, i, b);
    hide Recoverable, BlockData;
    var e := HonestMessage(s, 0, i, b, original);
    HonestAccepted(s, 0, i, b, original);
    OnePeerStays(hash, s, e);
    assert e.peer == 0 && DeliversOriginal(s, e, original);
    if HashFails(hash, s, e, 0) {
      FailedUnfooled(hash, s, e, 0, original);
    } else {
      HonestUnfooled(hash, s, 0, 0, b, original);
    }
    hide Step, Enabled, HonestMessage, DeliversOriginal, Contained, Unfooled;
    s' := Step(hash, s, e);
    StepRecoverable(hash, s, e, original);
    SameBlocksAfter(hash, s, e, original);
  }

  lemma HonestOneMarks(hash: Hash, s: State, b: nat, original: seq<byte>, c: nat)
    requires Recoverable(hash, s, original) && |s.peers| == 1 && |s.pieces| == 1 && |s.pieces[0].blocks| == 2
    requires b < 2 && c < 2 && BlockStart(s, 0, b) + BlockAt(s, 0, b).len <= |original|
    ensures var e := HonestMessage(s, 0, 0, b, original);
            Enabled(s, e) &&
            (Got(Step(hash, s, e), 0, c) <==> !HashFails(hash, s, e, 0) && (Got(s, 0, c) || c == b)) &&
            |Step(hash, s, e).pieces| == 1 &&
            (HashFails(hash, s, e, 0) ==> Clean(Step(hash, s, e).content, Step(hash, s, e).pieces[0], original))
  {
    hide Recoverable, HashFails, Step, Clean, Trusted, HonestMessage, Enabled;
    HonestMarks(hash, s, 0, 0, b, original, 0, c);
    HonestCleans(hash, s, 0, 0, b, original, 0);
  }

  lemma SameBlocksAfter(hash: Hash, s: State, e: Event, original: seq<byte>)
    requires Recoverable(hash, s, original) && Enabled(s, e) && |s.pieces| == 1
    ensures var s' := Step(hash, s, e); |s'.pieces| == 1 && |s'.pieces[0].blocks| == |s.pieces[0].blocks|
  {
    StepKeepsLayout(hash, s, e);
    hide Recoverable, Step, Enabled;
    assert SameLayout(s.pieces[0], Step(hash, s, e).pieces[0]);
  }

  lemma OnePeerStays(hash: Hash, s: State, e: Event)
    requires Enabled(s, e) && e.Deliver?
    ensures |Step(hash, s, e).peers| == |s.peers|
  {
  }

  lemma TwoEvents(hash: Hash, states: seq<State>, events: seq<Event>, original: seq<byte>)
    requires |states| == 3 && |events| == 2 && Recoverable(hash, states[0], original)
    requires InPieces(states[0], 0, 1) && BlockStart(states[0], 0, 1) + BlockAt(states[0], 0, 1).len <= |original|
    requires InPieces(states[1], 0, 0) && BlockStart(states[1], 0, 0) + BlockAt(states[1], 0, 0).len <= |original|
    requires events[0] == HonestMessage(states[0], 0, 0, 1, original)
    requires events[1] == HonestMessage(states[1], 0, 0, 0, original)
    requires Enabled(states[0], events[0]) && states[1] == Step(hash, states[0], events[0])
    requires Enabled(states[1], events[1]) && states[2] == Step(hash, states[1], events[1])
    requires Unfooled(hash, states[0], events[0], original) && Unfooled(hash, states[1], events[1], original)
    ensures RecoveringRun(hash, states, events, original)
    ensures DeliveredWithin(states, events, 0, 2, 0, 0, original)
    ensures DeliveredWithin(states, events, 0, 2, 0, 1, original)
  {
    hide Recoverable, Step, Enabled, Unfooled;
    assert DeliversOriginal(states[0], events[0], original) && DeliversOriginal(states[1], events[1], original);
  }
}
