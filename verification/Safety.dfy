/** "Downloaded" means verified, over every run and in spite of corrupt, duplicate,
    misaligned or late data (src/download.rs, lines 451-460 and 613-638). */
module Safety {
  import opened Config
  import opened Wrappers
  import opened IoPrimitives
  import opened Storage
  import opened Codec
  import opened TorrentState
  import opened Geometry
  import opened Soundness
  import opened Runs

  /** Marked downloaded exactly when there are blocks and all of them are there, and then
      the stored bytes have the hash. (An empty piece may be marked too, by its hash.) */
  predicate PieceVerified(hash: Hash, content: seq<byte>, p: PieceState) {
    (p.blocks != [] ==> (p.downloaded <==> AllBlocks(p.blocks))) && (p.downloaded ==> HashMatches(hash, content, p))
  }

  ghost predicate Verified(hash: Hash, s: State) {
    Sound(s) &&
    (forall i :: 0 <= i < |s.pieces| ==> PieceVerified(hash, s.content, s.pieces[i])) &&
    (AllDone(s.pieces) ==> s.downloaded)
  }

  lemma InitiallyVerified(hash: Hash, content: seq<byte>, pieceLength: nat, shas: seq<Sha1>)
    requires Cuttable(|content|, pieceLength, |shas|)
    ensures Verified(hash, InitialState(hash, content, pieceLength, shas))
  {
    var s := InitialState(hash, content, pieceLength, shas);
    InitialStateSound(hash, content, pieceLength, shas);
    forall i | 0 <= i < |s.pieces| ensures PieceVerified(hash, s.content, s.pieces[i]) {
      InitialPieceVerified(hash, content, pieceLength, shas, i);
    }
  }

  lemma InitialPieceVerified(hash: Hash, content: seq<byte>, pieceLength: nat, shas: seq<Sha1>, i: nat)
    requires Cuttable(|content|, pieceLength, |shas|) && i < |shas|
    ensures PieceVerified(hash, content, InitialPiece(hash, content, pieceLength, shas, i))
  {
    var p := InitialPiece(hash, content, pieceLength, shas, i);
    PieceFits(|content|, pieceLength, |shas|, i);
    if p.blocks != [] {
      assert p.blocks[0].downloaded == p.downloaded;
    }
  }

  /** The data of a piece message stays inside the piece it names. */
  predicate StaysInside(s: State, i: nat, begin: nat, data: seq<byte>)
    requires i < |s.pieces|
  {
    begin + |data| <= s.pieces[i].len
  }

  /** The data of a piece message overlaps no other piece that is marked downloaded. */
  predicate Undisturbing(s: State, i: nat, begin: nat, data: seq<byte>) {
    data == [] ||
    forall j :: 0 <= j < |s.pieces| && j != i && s.pieces[j].downloaded ==>
      var from, to := i * s.pieceLength + begin, i * s.pieceLength + begin + |data|;
      to <= s.pieces[j].offset || s.pieces[j].offset + s.pieces[j].len <= from
  }

  /** Data that stays inside its piece overlaps no other piece, marked or not. */
  lemma InsideUndisturbing(s: State, i: nat, begin: nat, data: seq<byte>)
    requires WellFormed(s) && i < |s.pieces| && StaysInside(s, i, begin, data)
    ensures Undisturbing(s, i, begin, data)
  {
    assert PieceShaped(|s.content|, s.pieceLength, |s.pieces|, i, s.pieces[i]);
    forall j | 0 <= j < |s.pieces| && j != i
      ensures i * s.pieceLength + begin + |data| <= s.pieces[j].offset ||
              s.pieces[j].offset + s.pieces[j].len <= i * s.pieceLength + begin
    {
      if i < j {
        PiecesDisjoint(|s.content|, s.pieceLength, s.pieces, i, j);
      } else {
        PiecesDisjoint(|s.content|, s.pieceLength, s.pieces, j, i);
      }
    }
  }

  /** Such data changes no byte of another piece that is marked. */
  lemma OtherPiecesUntouched(s: State, i: nat, begin: nat, data: seq<byte>, j: nat)
    requires Sound(s) && PieceInRange(s, i, begin, data) && Undisturbing(s, i, begin, data)
    requires j < |s.pieces| && j != i && s.pieces[j].downloaded
    ensures var p := s.pieces[j];
            p.offset + p.len <= |s.content| &&
            Splice(s.content, i * s.pieceLength + begin, data)[p.offset..p.offset + p.len] ==
            s.content[p.offset..p.offset + p.len]
  {
    PieceInside(s, j);
    EmptyWritesNothing(s.content, i * s.pieceLength + begin);
    ReadAfterWrite(s.content, i * s.pieceLength + begin, data, s.pieces[j].offset, s.pieces[j].len);
  }

  lemma EmptyWritesNothing(s: seq<byte>, offset: nat)
    requires offset <= |s|
    ensures Splice(s, offset, []) == s
  {
  }

  /** The effect of a piece message on the named piece: its block is marked, its record
      possibly settled, and the hash decides whether a full piece stays. */
  lemma NamedPieceVerified(hash: Hash, content: seq<byte>, p: PieceState, b: nat)
    requires p.blocks != [] ==> (p.downloaded <==> AllBlocks(p.blocks))
    requires b < |p.blocks| && p.offset + p.len <= |content|
    ensures PieceVerified(hash, content, FinishedPiece(hash, content, p, b))
  {
    var marked := MarkBlock(p, b);
    assert marked.downloaded <==> AllBlocks(marked.blocks);
    assert !ResetPiece(marked).blocks[0].downloaded;
  }

  lemma ReceivePieceParts(hash: Hash, s: State, peer: nat, i: nat, begin: nat, data: seq<byte>)
    requires peer < |s.peers| && PieceInRange(s, i, begin, data)
    ensures var s' := ReceivePiece(hash, s, peer, i, begin, data);
            var b := begin / BLOCK_SIZE;
            s'.content == Splice(s.content, i * s.pieceLength + begin, data) &&
            |s'.pieces| == |s.pieces| &&
            (forall j :: 0 <= j < |s.pieces| && j != i ==> s'.pieces[j] == s.pieces[j]) &&
            (exists record ::
               s'.pieces[i] == FinishedPiece(hash, s'.content, WithRecord(s.pieces, i, b, record)[i], b)) &&
            (s'.downloaded == (s.downloaded || AllDone(s'.pieces)))
  {
    var b := begin / BLOCK_SIZE;
    var written := s.(content := Splice(s.content, i * s.pieceLength + begin, data));
    var record := if IsRecordOf(BlockAt(s, i, b).record, peer) then None else BlockAt(s, i, b).record;
    var blocks := s.pieces[i].blocks;
    assert blocks[b := blocks[b].(record := blocks[b].record)] == blocks;
    assert SettleRecord(written, peer, i, b).pieces[i] == WithRecord(s.pieces, i, b, record)[i];
  }

  /** After the write of a piece message, every other marked piece still has its hash. */
  ghost predicate MarkedStillMatch(hash: Hash, s: State, i: nat, begin: nat, data: seq<byte>)
    requires i * s.pieceLength + begin <= |s.content|
  {
    forall j :: 0 <= j < |s.pieces| && j != i && s.pieces[j].downloaded ==>
      HashMatches(hash, Splice(s.content, i * s.pieceLength + begin, data), s.pieces[j])
  }

  /** Whatever the data, the invariant survives a piece message if and only if the other
      marked pieces still have their hash: the named piece takes care of itself. */
  lemma ReceiveVerifiedIff(hash: Hash, s: State, peer: nat, i: nat, begin: nat, data: seq<byte>)
    requires Verified(hash, s) && peer < |s.peers| && PieceInRange(s, i, begin, data)
    ensures Verified(hash, ReceivePiece(hash, s, peer, i, begin, data)) <==> MarkedStillMatch(hash, s, i, begin, data)
  {
    var s' := ReceivePiece(hash, s, peer, i, begin, data);
    ReceivePieceSound(hash, s, peer, i, begin, data);
    ReceivePieceParts(hash, s, peer, i, begin, data);
    NamedStaysVerified(hash, s, peer, i, begin, data);
    hide Verified, Sound, ReceivePiece, FinishedPiece, Splice, HashMatches, PieceInRange;
    OthersDecide(hash, s, s', i);
  }

  /** With the named piece verified and the other pieces kept, the hashes of the others decide. */
  lemma OthersDecide(hash: Hash, s: State, s': State, i: nat)
    requires Verified(hash, s) && Sound(s') && i < |s.pieces| == |s'.pieces|
    requires forall j :: 0 <= j < |s.pieces| && j != i ==> s'.pieces[j] == s.pieces[j]
    requires PieceVerified(hash, s'.content, s'.pieces[i]) && (AllDone(s'.pieces) ==> s'.downloaded)
    ensures Verified(hash, s') <==>
            forall j :: 0 <= j < |s.pieces| && j != i && s.pieces[j].downloaded ==>
              HashMatches(hash, s'.content, s.pieces[j])
  {
    hide Sound, HashMatches, AllDone, AllBlocks;
    forall j | 0 <= j < |s.pieces| && j != i
      ensures PieceVerified(hash, s'.content, s'.pieces[j]) <==>
              (s.pieces[j].downloaded ==> HashMatches(hash, s'.content, s.pieces[j]))
    {
      assert PieceVerified(hash, s.content, s.pieces[j]);
    }
  }

  lemma NamedStaysVerified(hash: Hash, s: State, peer: nat, i: nat, begin: nat, data: seq<byte>)
    requires Verified(hash, s) && peer < |s.peers| && PieceInRange(s, i, begin, data)
    ensures var s' := ReceivePiece(hash, s, peer, i, begin, data);
            |s'.pieces| == |s.pieces| && PieceVerified(hash, s'.content, s'.pieces[i])
  {
    var s' := ReceivePiece(hash, s, peer, i, begin, data);
    var b := begin / BLOCK_SIZE;
    ReceivePieceParts(hash, s, peer, i, begin, data);
    PieceInside(s, i);
    assert PieceVerified(hash, s.content, s.pieces[i]);
    hide Verified, ReceivePiece, Splice;
    var record :| s'.pieces[i] == FinishedPiece(hash, s'.content, WithRecord(s.pieces, i, b, record)[i], b);
    RecordsDoNotMatter(hash, s.content, s.pieces, i, b, record);
    hide FinishedPiece, HashMatches;
    NamedPieceVerified(hash, s'.content, WithRecord(s.pieces, i, b, record)[i], b);
  }

  /** A caller can see beforehand that this holds: the data overlaps no other marked piece. */
  lemma UndisturbingMatches(hash: Hash, s: State, i: nat, begin: nat, data: seq<byte>)
    requires Verified(hash, s) && PieceInRange(s, i, begin, data) && Undisturbing(s, i, begin, data)
    ensures MarkedStillMatch(hash, s, i, begin, data)
  {
    forall j | 0 <= j < |s.pieces| && j != i && s.pieces[j].downloaded
      ensures HashMatches(hash, Splice(s.content, i * s.pieceLength + begin, data), s.pieces[j])
    {
      OtherPiecesUntouched(s, i, begin, data, j);
      assert PieceVerified(hash, s.content, s.pieces[j]);
    }
  }

  lemma RecordsDoNotMatter(hash: Hash, content: seq<byte>, pieces: seq<PieceState>, i: nat, b: nat,
                            record: Option<BlockRequestRecord>)
    requires i < |pieces| && b < |pieces[i].blocks| && PieceVerified(hash, content, pieces[i])
    ensures PieceVerified(hash, content, WithRecord(pieces, i, b, record)[i])
  {
    var blocks := pieces[i].blocks;
    var blocks' := WithRecord(pieces, i, b, record)[i].blocks;
    assert forall c :: 0 <= c < |blocks| ==> blocks'[c].downloaded == blocks[c].downloaded;
  }

  /** Piece messages overlap no marked piece but the one they name. */
  predicate Contained(s: State, e: Event) {
    match e
    case Deliver(_, Known(Piece(i, begin, data))) => Undisturbing(s, i, begin, data)
    case _ => true
  }

  /** Piece messages leave the hashes of all marked pieces but the one they name intact. */
  ghost predicate KeepsMarked(hash: Hash, s: State, e: Event)
    requires Enabled(s, e)
  {
    match e
    case Deliver(_, Known(Piece(i, begin, data))) => MarkedStillMatch(hash, s, i, begin, data)
    case _ => true
  }

  lemma ContainedKeepsMarked(hash: Hash, s: State, e: Event)
    requires Verified(hash, s) && Enabled(s, e) && Contained(s, e)
    ensures KeepsMarked(hash, s, e)
  {
    if IsPieceMessage(e) {
      UndisturbingMatches(hash, s, e.m.message.index, e.m.message.offset, e.m.message.data);
    }
  }

  /** Exactly the steps that break no other marked piece keep the invariant. */
  lemma StepVerifiedIff(hash: Hash, s: State, e: Event)
    requires Verified(hash, s) && Enabled(s, e)
    ensures Verified(hash, Step(hash, s, e)) <==> KeepsMarked(hash, s, e)
  {
    var s' := Step(hash, s, e);
    if IsPieceMessage(e) {
      ReceiveVerifiedIff(hash, s, e.peer, e.m.message.index, e.m.message.offset, e.m.message.data);
    } else {
      StepSound(hash, s, e);
      OtherEventsKeepContent(hash, s, e);
      hide Sound, Step;
      forall i | 0 <= i < |s'.pieces| ensures PieceVerified(hash, s'.content, s'.pieces[i]) {
        SameProgressVerified(hash, s.content, s.pieces[i], s'.pieces[i]);
      }
    }
  }

  lemma SameProgressVerified(hash: Hash, content: seq<byte>, p: PieceState, p': PieceState)
    requires PieceVerified(hash, content, p) && SameProgress(p, p')
    ensures PieceVerified(hash, content, p')
    ensures AllBlocks(p'.blocks) == AllBlocks(p.blocks)
  {
    assert forall b :: 0 <= b < |p.blocks| ==> p'.blocks[b].downloaded == p.blocks[b].downloaded;
  }

  /** Over every run in which no piece message overlaps a marked piece other than its own,
      a piece that is marked downloaded has the right hash at every moment. */
  lemma {:induction false} AlwaysVerified(hash: Hash, states: seq<State>, events: seq<Event>, n: nat)
    requires Trace(hash, states, events) && n < |states| && Verified(hash, states[0])
    requires forall k :: 0 <= k < n ==> Contained(states[k], events[k])
    ensures Verified(hash, states[n])
  {
    if n != 0 {
      AlwaysVerified(hash, states, events, n - 1);
      ContainedKeepsMarked(hash, states[n - 1], events[n - 1]);
      StepVerifiedIff(hash, states[n - 1], events[n - 1]);
    }
  }

  /** The runs that are verified throughout are exactly those whose every piece message
      leaves the hashes of the other marked pieces intact. */
  lemma {:induction false} AlwaysVerifiedIff(hash: Hash, states: seq<State>, events: seq<Event>, n: nat)
    requires Trace(hash, states, events) && n < |states| && Verified(hash, states[0])
    ensures (forall k :: 0 <= k <= n ==> Verified(hash, states[k])) <==>
            (forall k :: 0 <= k < n ==> Enabled(states[k], events[k]) && KeepsMarked(hash, states[k], events[k]))
  {
    hide Verified, Enabled, KeepsMarked, Step;
    if n != 0 {
      AlwaysVerifiedIff(hash, states, events, n - 1);
      assert Enabled(states[n - 1], events[n - 1]) && states[n] == Step(hash, states[n - 1], events[n - 1]);
      if Verified(hash, states[n - 1]) {
        StepVerifiedIff(hash, states[n - 1], events[n - 1]);
      }
    }
  }

  // ---------- exactly which shapes of piece messages are safe ----------

  /** A message for piece `i` with `len` bytes from `begin` is accepted for a torrent of this geometry. */
  predicate ShapeAccepted(total: nat, pieceLength: nat, n: nat, i: nat, begin: nat, len: nat)
    requires Cuttable(total, pieceLength, n)
  {
    i < n && begin / BLOCK_SIZE < CeilDiv(PieceLen(total, pieceLength, n, i), BLOCK_SIZE) &&
    i * pieceLength + begin < total && i * pieceLength + begin + len <= total
  }

  /** Whatever the state, the sender and the data: the invariant survives. */
  ghost predicate ShapeSafe(hash: Hash, total: nat, pieceLength: nat, n: nat, i: nat, begin: nat, len: nat) {
    forall s: State, peer: nat, data: seq<byte> ::
      Verified(hash, s) && |s.content| == total && s.pieceLength == pieceLength && |s.pieces| == n &&
      peer < |s.peers| && |data| == len && PieceInRange(s, i, begin, data) ==>
        Verified(hash, ReceivePiece(hash, s, peer, i, begin, data))
  }

  function PieceBytes(content: seq<byte>, pieceLength: nat, n: nat, j: nat): seq<byte>
    requires Cuttable(|content|, pieceLength, n) && j < n
  {
    PieceFits(|content|, pieceLength, n, j);
    content[j * pieceLength..j * pieceLength + PieceLen(|content|, pieceLength, n, j)]
  }

  /** The content after a message for piece `i`. */
  function Written(content: seq<byte>, pieceLength: nat, i: nat, begin: nat, data: seq<byte>): (r: seq<byte>)
    requires i * pieceLength + begin <= |content|
    ensures |r| == |content|
  {
    Splice(content, i * pieceLength + begin, data)
  }

  /** The message for piece `i` gives piece `j` bytes with a different hash. */
  predicate TellsApart(hash: Hash, content: seq<byte>, pieceLength: nat, n: nat,
                       i: nat, begin: nat, data: seq<byte>, j: nat)
    requires Cuttable(|content|, pieceLength, n) && j < n && i * pieceLength + begin <= |content|
  {
    hash(PieceBytes(content, pieceLength, n, j)) !=
    hash(PieceBytes(Written(content, pieceLength, i, begin, data), pieceLength, n, j))
  }

  /** The hash never notices such a write in another piece. */
  ghost predicate Unnoticed(hash: Hash, total: nat, pieceLength: nat, n: nat, i: nat, begin: nat, len: nat)
    requires Cuttable(total, pieceLength, n) && i * pieceLength + begin <= total
  {
    forall content: seq<byte>, data: seq<byte>, j: nat ::
      |content| == total && |data| == len && j < n && j != i ==>
        !TellsApart(hash, content, pieceLength, n, i, begin, data, j)
  }

  /** The source does not check that a message stays inside its piece. For every hash
      function, a shape is safe if and only if the hash never notices what it writes
      into other pieces. */
  lemma ShapeSafeIff(hash: Hash, total: nat, pieceLength: nat, n: nat, i: nat, begin: nat, len: nat)
    requires Cuttable(total, pieceLength, n) && ShapeAccepted(total, pieceLength, n, i, begin, len)
    ensures ShapeSafe(hash, total, pieceLength, n, i, begin, len) <==>
            Unnoticed(hash, total, pieceLength, n, i, begin, len)
  {
    if Unnoticed(hash, total, pieceLength, n, i, begin, len) {
      forall s: State, peer: nat, data: seq<byte> |
        Verified(hash, s) && |s.content| == total && s.pieceLength == pieceLength && |s.pieces| == n &&
        peer < |s.peers| && |data| == len && PieceInRange(s, i, begin, data)
        ensures Verified(hash, ReceivePiece(hash, s, peer, i, begin, data))
      {
        UnnoticedMatches(hash, s, i, begin, data);
        ReceiveVerifiedIff(hash, s, peer, i, begin, data);
      }
    } else {
      var content: seq<byte>, data: seq<byte>, j: nat :| |content| == total && |data| == len && j < n && j != i &&
        TellsApart(hash, content, pieceLength, n, i, begin, data, j);
      NoticedBreaks(hash, content, pieceLength, n, i, begin, data, j);
    }
  }

  lemma UnnoticedMatches(hash: Hash, s: State, i: nat, begin: nat, data: seq<byte>)
    requires Verified(hash, s) && PieceInRange(s, i, begin, data)
    requires Unnoticed(hash, |s.content|, s.pieceLength, |s.pieces|, i, begin, |data|)
    ensures MarkedStillMatch(hash, s, i, begin, data)
  {
    forall j | 0 <= j < |s.pieces| && j != i && s.pieces[j].downloaded
      ensures HashMatches(hash, Splice(s.content, i * s.pieceLength + begin, data), s.pieces[j])
    {
      assert PieceVerified(hash, s.content, s.pieces[j]);
      assert PieceShaped(|s.content|, s.pieceLength, |s.pieces|, j, s.pieces[j]);
      assert !TellsApart(hash, s.content, s.pieceLength, |s.pieces|, i, begin, data, j);
    }
  }

  /** A download that holds `content`, all of it verified, with one peer. */
  lemma HeldState(hash: Hash, content: seq<byte>, pieceLength: nat, n: nat) returns (s: State)
    requires Cuttable(|content|, pieceLength, n)
    ensures Verified(hash, s) && s.content == content && s.pieceLength == pieceLength
    ensures |s.pieces| == n && |s.peers| == 1
    ensures forall j :: 0 <= j < n ==> s.pieces[j].downloaded
  {
    var shas := seq(n, k requires 0 <= k < n => hash(PieceBytes(content, pieceLength, n, k)));
    var start := InitialState(hash, content, pieceLength, shas);
    InitiallyVerified(hash, content, pieceLength, shas);
    StepVerifiedIff(hash, start, Join(None));
    s := Register(start, None);
    forall j | 0 <= j < n ensures s.pieces[j].downloaded {
      HeldPiece(hash, content, pieceLength, shas, j);
    }
  }

  lemma HeldPiece(hash: Hash, content: seq<byte>, pieceLength: nat, shas: seq<Sha1>, j: nat)
    requires Cuttable(|content|, pieceLength, |shas|) && j < |shas|
    requires shas[j] == hash(PieceBytes(content, pieceLength, |shas|, j))
    ensures InitialPiece(hash, content, pieceLength, shas, j).downloaded
  {
  }

  /** Where the hash does notice, a late message breaks a marked piece that stays marked. */
  lemma NoticedBreaks(hash: Hash, content: seq<byte>, pieceLength: nat, n: nat,
                      i: nat, begin: nat, data: seq<byte>, j: nat)
    requires Cuttable(|content|, pieceLength, n) && ShapeAccepted(|content|, pieceLength, n, i, begin, |data|)
    requires j < n && j != i && TellsApart(hash, content, pieceLength, n, i, begin, data, j)
    ensures !ShapeSafe(hash, |content|, pieceLength, n, i, begin, |data|)
  {
    var s := HeldState(hash, content, pieceLength, n);
    AcceptedShape(s, i, begin, data);
    WriteNoticed(hash, s, i, begin, data, j);
    hide Verified, TellsApart, MarkedStillMatch;
    ReceiveVerifiedIff(hash, s, 0, i, begin, data);
  }

  lemma AcceptedShape(s: State, i: nat, begin: nat, data: seq<byte>)
    requires Sound(s) && ShapeAccepted(|s.content|, s.pieceLength, |s.pieces|, i, begin, |data|)
    ensures PieceInRange(s, i, begin, data)
  {
    assert PieceShaped(|s.content|, s.pieceLength, |s.pieces|, i, s.pieces[i]);
  }

  lemma WriteNoticed(hash: Hash, s: State, i: nat, begin: nat, data: seq<byte>, j: nat)
    requires Verified(hash, s) && i * s.pieceLength + begin <= |s.content|
    requires j < |s.pieces| && j != i && s.pieces[j].downloaded
    requires TellsApart(hash, s.content, s.pieceLength, |s.pieces|, i, begin, data, j)
    ensures !MarkedStillMatch(hash, s, i, begin, data)
  {
    assert PieceShaped(|s.content|, s.pieceLength, |s.pieces|, j, s.pieces[j]);
    assert PieceVerified(hash, s.content, s.pieces[j]);
    var p := s.pieces[j];
    var content := Written(s.content, s.pieceLength, i, begin, data);
    assert Cuttable(|content|, s.pieceLength, |s.pieces|);
    hide Verified, Splice, AllBlocks, PieceBytes, HashMatches, PieceLen, Cuttable;
    HashSeesBytes(hash, s.content, s.pieceLength, |s.pieces|, j, p);
    HashSeesBytes(hash, content, s.pieceLength, |s.pieces|, j, p);
    assert !HashMatches(hash, content, p);
  }

  lemma HashSeesBytes(hash: Hash, content: seq<byte>, pieceLength: nat, n: nat, j: nat, p: PieceState)
    requires Cuttable(|content|, pieceLength, n) && j < n
    requires p.offset == j * pieceLength && p.len == PieceLen(|content|, pieceLength, n, j)
    ensures HashMatches(hash, content, p) <==> hash(PieceBytes(content, pieceLength, n, j)) == p.sha
  {
    PieceFits(|content|, pieceLength, n, j);
  }

  /** Messages that stay inside their piece, or carry nothing, are safe for every hash. */
  lemma InsideIsSafe(hash: Hash, total: nat, pieceLength: nat, n: nat, i: nat, begin: nat, len: nat)
    requires Cuttable(total, pieceLength, n) && ShapeAccepted(total, pieceLength, n, i, begin, len)
    requires len == 0 || begin + len <= PieceLen(total, pieceLength, n, i)
    ensures ShapeSafe(hash, total, pieceLength, n, i, begin, len)
  {
    forall s: State, peer: nat, data: seq<byte> |
      Verified(hash, s) && |s.content| == total && s.pieceLength == pieceLength && |s.pieces| == n &&
      peer < |s.peers| && |data| == len && PieceInRange(s, i, begin, data)
      ensures Verified(hash, ReceivePiece(hash, s, peer, i, begin, data))
    {
      assert PieceShaped(total, pieceLength, n, i, s.pieces[i]);
      if len != 0 {
        InsideUndisturbing(s, i, begin, data);
      }
      UndisturbingMatches(hash, s, i, begin, data);
      ReceiveVerifiedIff(hash, s, peer, i, begin, data);
    }
  }

  function Ones(n: nat): seq<byte> { seq(n, _ => 1) }

  /** Any other message of ones changes some other piece of an all-zero torrent. */
  lemma SpillReaches(total: nat, pieceLength: nat, n: nat, i: nat, begin: nat, len: nat) returns (j: nat)
    requires Cuttable(total, pieceLength, n) && ShapeAccepted(total, pieceLength, n, i, begin, len)
    requires len != 0 && PieceLen(total, pieceLength, n, i) < begin + len
    ensures j < n && j != i
    ensures PieceBytes(Zeros(total), pieceLength, n, j) !=
            PieceBytes(Written(Zeros(total), pieceLength, i, begin, Ones(len)), pieceLength, n, j)
  {
    var x := i * pieceLength + begin + len - 1;
    j := SpilledPiece(total, pieceLength, n, i, begin, len);
    hide ShapeAccepted;
    var before, after := Zeros(total), Written(Zeros(total), pieceLength, i, begin, Ones(len));
    OnesShow(total, i * pieceLength + begin, len);
    hide Splice, PieceLen, Cuttable, Ones, Zeros;
    assert after == Splice(before, i * pieceLength + begin, Ones(len));
    hide Written;
    PiecesDiffer(before, after, pieceLength, n, j, x);
  }

  /** The last byte of such a message lies in another piece. */
  lemma SpilledPiece(total: nat, pieceLength: nat, n: nat, i: nat, begin: nat, len: nat) returns (j: nat)
    requires Cuttable(total, pieceLength, n) && ShapeAccepted(total, pieceLength, n, i, begin, len)
    requires len != 0 && PieceLen(total, pieceLength, n, i) < begin + len
    ensures j < n && j != i && i * pieceLength + begin + len <= total
    ensures var x := i * pieceLength + begin + len - 1;
            j * pieceLength <= x < j * pieceLength + PieceLen(total, pieceLength, n, j)
  {
    j := PieceOf(total, pieceLength, n, i * pieceLength + begin + len - 1);
    hide PieceLen, Cuttable;
  }

  lemma OnesShow(total: nat, at: nat, len: nat)
    requires len != 0 && at + len <= total
    ensures Splice(Zeros(total), at, Ones(len))[at + len - 1] != Zeros(total)[at + len - 1]
  {
    SplicedAt(Zeros(total), at, Ones(len), at + len - 1);
  }

  lemma PiecesDiffer(s: seq<byte>, t: seq<byte>, pieceLength: nat, n: nat, j: nat, x: nat)
    requires |s| == |t| && Cuttable(|s|, pieceLength, n) && j < n
    requires j * pieceLength <= x < j * pieceLength + PieceLen(|s|, pieceLength, n, j) && x < |s| && s[x] != t[x]
    ensures PieceBytes(s, pieceLength, n, j) != PieceBytes(t, pieceLength, n, j)
  {
    PieceFits(|s|, pieceLength, n, j);
    SlicesDiffer(s, t, j * pieceLength, j * pieceLength + PieceLen(|s|, pieceLength, n, j), x);
  }

  lemma SlicesDiffer(s: seq<byte>, t: seq<byte>, from: nat, to: nat, x: nat)
    requires from <= x < to <= |s| && to <= |t| && s[x] != t[x]
    ensures s[from..to] != t[from..to]
  {
    assert s[from..to][x - from] == s[x] && t[from..to][x - from] == t[x];
  }

  /** So for a hash that tells these two concrete strings apart, the safe messages are
      exactly those that stay inside their piece or carry nothing. */
  lemma SafeIffInside(hash: Hash, total: nat, pieceLength: nat, n: nat, i: nat, begin: nat, len: nat, j: nat)
    requires Cuttable(total, pieceLength, n) && ShapeAccepted(total, pieceLength, n, i, begin, len)
    requires len != 0 && PieceLen(total, pieceLength, n, i) < begin + len ==>
               j < n && j != i && TellsApart(hash, Zeros(total), pieceLength, n, i, begin, Ones(len), j)
    ensures ShapeSafe(hash, total, pieceLength, n, i, begin, len) <==>
            len == 0 || begin + len <= PieceLen(total, pieceLength, n, i)
  {
    if len == 0 || begin + len <= PieceLen(total, pieceLength, n, i) {
      InsideIsSafe(hash, total, pieceLength, n, i, begin, len);
    } else {
      NoticedBreaks(hash, Zeros(total), pieceLength, n, i, begin, Ones(len), j);
    }
  }

  // ---------- completion ----------

  /** On this state, equal hashes mean equal pieces: no collision between stored and original. */
  predicate Separates(hash: Hash, s: State, original: seq<byte>) {
    |original| == |s.content| &&
    forall i :: 0 <= i < |s.pieces| && s.pieces[i].offset + s.pieces[i].len <= |s.content| ==>
      var from, to := s.pieces[i].offset, s.pieces[i].offset + s.pieces[i].len;
      hash(s.content[from..to]) == hash(original[from..to]) ==> s.content[from..to] == original[from..to]
  }

  /** The torrent was made from `original`. */
  predicate TorrentOf(hash: Hash, pieces: seq<PieceState>, original: seq<byte>) {
    forall i :: 0 <= i < |pieces| && pieces[i].offset + pieces[i].len <= |original| ==>
      pieces[i].sha == hash(original[pieces[i].offset..pieces[i].offset + pieces[i].len])
  }

  /** A piece with blocks is done by its flag or by its blocks; both mean verified. */
  lemma AllDoneMeansVerified(hash: Hash, s: State, i: nat)
    requires Verified(hash, s) && AllDone(s.pieces) && i < |s.pieces| && s.pieces[i].blocks != []
    ensures s.pieces[i].downloaded && HashMatches(hash, s.content, s.pieces[i])
  {
    assert PieceVerified(hash, s.content, s.pieces[i]);
  }

  /** When every piece is done the stored content is the original, byte for byte. */
  lemma DoneMeansOriginal(hash: Hash, s: State, original: seq<byte>)
    requires Verified(hash, s) && AllDone(s.pieces) && s.pieces != []
    requires TorrentOf(hash, s.pieces, original) && Separates(hash, s, original)
    ensures s.content == original
  {
    forall x | 0 <= x < |original| ensures s.content[x] == original[x] {
      var i, b := EveryByteCovered(|s.content|, s.pieceLength, s.pieces, x);
      AllDoneMeansVerified(hash, s, i);
      PieceInside(s, i);
      var from, to := s.pieces[i].offset, s.pieces[i].offset + s.pieces[i].len;
      assert s.content[from..to] == original[from..to];
      assert s.content[x] == s.content[from..to][x - from];
      assert original[x] == original[from..to][x - from];
    }
  }

  /** The flag rises only when all blocks are there, and absent a collision it rises on the
      original content if and only if the message that raised it left the hashes of the other
      marked pieces intact. */
  lemma FlagRisesOnOriginal(hash: Hash, s: State, e: Event, original: seq<byte>)
    requires Verified(hash, s) && Enabled(s, e) && s.pieces != []
    requires !s.downloaded && Step(hash, s, e).downloaded
    requires TorrentOf(hash, s.pieces, original) && Separates(hash, Step(hash, s, e), original)
    ensures AllDone(Step(hash, s, e).pieces)
    ensures Step(hash, s, e).content == original <==> KeepsMarked(hash, s, e)
  {
    var s' := Step(hash, s, e);
    StepVerifiedIff(hash, s, e);
    FlagStep(hash, s, e);
    StepKeepsLayout(hash, s, e);
    if s'.content == original {
      OriginalKeepsMarked(hash, s, e, original);
    }
    hide Step, Verified, Separates, TorrentOf, AllDone, Enabled, KeepsMarked;
    TorrentOfKept(hash, s.pieces, s'.pieces, original);
    if KeepsMarked(hash, s, e) {
      DoneMeansOriginal(hash, s', original);
    }
  }

  lemma OriginalKeepsMarked(hash: Hash, s: State, e: Event, original: seq<byte>)
    requires Sound(s) && Enabled(s, e) && TorrentOf(hash, s.pieces, original) && Step(hash, s, e).content == original
    ensures KeepsMarked(hash, s, e)
  {
    if IsPieceMessage(e) {
      var m := e.m.message;
      ReceivePieceParts(hash, s, e.peer, m.index, m.offset, m.data);
      forall j | 0 <= j < |s.pieces| && j != m.index && s.pieces[j].downloaded
        ensures HashMatches(hash, original, s.pieces[j])
      {
        PieceInside(s, j);
      }
    }
  }

  /** Where it does not: of two pieces of one block each the second is marked. A message for the
      first that carries its right bytes and then wrong ones completes the first piece, leaves
      the second marked, and raises the flag over wrong content, without any collision. */
  lemma FlagRisesOnWrong(hash: Hash, original: seq<byte>, found: seq<byte>, wrong: seq<byte>)
    returns (s: State, e: Event)
    requires |original| == 2 * BLOCK_SIZE && |found| == |wrong| == BLOCK_SIZE
    requires hash(found) != hash(original[..BLOCK_SIZE]) && hash(wrong) != hash(original[BLOCK_SIZE..])
    ensures Verified(hash, s) && Enabled(s, e) && !s.downloaded && Step(hash, s, e).downloaded
    ensures TorrentOf(hash, s.pieces, original) && Separates(hash, Step(hash, s, e), original)
    ensures Step(hash, s, e).content == original[..BLOCK_SIZE] + wrong != original
  {
    var data := original[..BLOCK_SIZE] + wrong;
    Halves(original, wrong, data);
    hide Verified, TorrentOf, Separates, ReceivePiece, Step, Enabled, PieceInRange;
    s := HalfFound(hash, original, found);
    e := Deliver(0, Known(Piece(0, 0, data)));
    FirstPieceDone(hash, s, data);
    PieceStep(hash, s, 0, 0, 0, data);
    var s' := Step(hash, s, e);
    VerifiedSound(hash, s);
    LayoutOfTwo(hash, s, e);
    TwoPiecesSeparate(hash, s, original);
    TwoPiecesSeparate(hash, s', original);
  }

  lemma PieceStep(hash: Hash, s: State, peer: nat, i: nat, begin: nat, data: seq<byte>)
    requires peer < |s.peers| && PieceInRange(s, i, begin, data)
    ensures var e := Deliver(peer, Known(Piece(i, begin, data)));
            Enabled(s, e) && Step(hash, s, e) == ReceivePiece(hash, s, peer, i, begin, data)
  {
  }

  lemma VerifiedSound(hash: Hash, s: State)
    requires Verified(hash, s)
    ensures Sound(s)
  {
  }

  lemma Halves(original: seq<byte>, wrong: seq<byte>, data: seq<byte>)
    requires |original| == 2 * BLOCK_SIZE && |wrong| == BLOCK_SIZE && data == original[..BLOCK_SIZE] + wrong
    ensures data[0..BLOCK_SIZE] == data[..BLOCK_SIZE] == original[..BLOCK_SIZE] && data[BLOCK_SIZE..] == wrong
    ensures data == original ==> wrong == original[BLOCK_SIZE..]
  {
  }

  lemma LayoutOfTwo(hash: Hash, s: State, e: Event)
    requires Sound(s) && Enabled(s, e) && |s.pieces| == 2
    ensures var s' := Step(hash, s, e);
            |s'.pieces| == 2 && forall k :: 0 <= k < 2 ==>
              s'.pieces[k].offset == s.pieces[k].offset && s'.pieces[k].len == s.pieces[k].len &&
              s'.pieces[k].sha == s.pieces[k].sha
  {
    StepKeepsLayout(hash, s, e);
  }

  /** Over two pieces of one block each: what the torrent was made from, and what does not collide. */
  lemma TwoPiecesSeparate(hash: Hash, s: State, original: seq<byte>)
    requires |s.content| == |original| == 2 * BLOCK_SIZE && |s.pieces| == 2
    requires forall k :: 0 <= k < 2 ==> s.pieces[k].offset == k * BLOCK_SIZE && s.pieces[k].len == BLOCK_SIZE
    requires s.pieces[0].sha == hash(original[..BLOCK_SIZE]) && s.pieces[1].sha == hash(original[BLOCK_SIZE..])
    ensures TorrentOf(hash, s.pieces, original)
    ensures (s.content[..BLOCK_SIZE] == original[..BLOCK_SIZE] || hash(s.content[..BLOCK_SIZE]) != s.pieces[0].sha) &&
            (s.content[BLOCK_SIZE..] == original[BLOCK_SIZE..] || hash(s.content[BLOCK_SIZE..]) != s.pieces[1].sha) ==>
              Separates(hash, s, original)
  {
    assert original[0..BLOCK_SIZE] == original[..BLOCK_SIZE] && s.content[0..BLOCK_SIZE] == s.content[..BLOCK_SIZE];
    assert original[BLOCK_SIZE..2 * BLOCK_SIZE] == original[BLOCK_SIZE..];
    assert s.content[BLOCK_SIZE..2 * BLOCK_SIZE] == s.content[BLOCK_SIZE..];
  }

  /** A new download with one peer whose second piece was found on disk and whose first was not. */
  lemma HalfFound(hash: Hash, original: seq<byte>, found: seq<byte>) returns (s: State)
    requires |original| == 2 * BLOCK_SIZE && |found| == BLOCK_SIZE
    requires hash(found) != hash(original[..BLOCK_SIZE])
    ensures Verified(hash, s) && s.content == found + original[BLOCK_SIZE..] && s.pieceLength == BLOCK_SIZE
    ensures |s.pieces| == 2 && |s.peers| == 1 && !s.downloaded
    ensures forall k :: 0 <= k < 2 ==> s.pieces[k].offset == k * BLOCK_SIZE && s.pieces[k].len == BLOCK_SIZE
    ensures s.pieces[0].sha == hash(original[..BLOCK_SIZE]) && s.pieces[1].sha == hash(original[BLOCK_SIZE..])
    ensures !s.pieces[0].downloaded && s.pieces[1].downloaded
  {
    var content := found + original[BLOCK_SIZE..];
    var shas := [hash(original[..BLOCK_SIZE]), hash(original[BLOCK_SIZE..])];
    var start := InitialState(hash, content, BLOCK_SIZE, shas);
    InitiallyVerified(hash, content, BLOCK_SIZE, shas);
    StepVerifiedIff(hash, start, Join(None));
    assert content[0..BLOCK_SIZE] == found && content[BLOCK_SIZE..2 * BLOCK_SIZE] == original[BLOCK_SIZE..];
    assert start.pieces[0] == InitialPiece(hash, content, BLOCK_SIZE, shas, 0);
    assert start.pieces[1] == InitialPiece(hash, content, BLOCK_SIZE, shas, 1);
    assert !start.pieces[0].downloaded && !start.pieces[0].blocks[0].downloaded;
    s := Register(start, None);
  }

  lemma FirstPieceDone(hash: Hash, s: State, data: seq<byte>)
    requires Verified(hash, s) && |s.content| == |data| == 2 * BLOCK_SIZE && s.pieceLength == BLOCK_SIZE
    requires |s.pieces| == 2 && |s.peers| == 1 && s.pieces[1].downloaded && !s.downloaded
    requires s.pieces[0].sha == hash(data[0..BLOCK_SIZE])
    ensures PieceInRange(s, 0, 0, data)
    ensures ReceivePiece(hash, s, 0, 0, 0, data).downloaded && ReceivePiece(hash, s, 0, 0, 0, data).content == data
  {
    var p := s.pieces[0];
    assert PieceShaped(2 * BLOCK_SIZE, BLOCK_SIZE, 2, 0, p);
    ReceivePieceParts(hash, s, 0, 0, 0, data);
    var s' := ReceivePiece(hash, s, 0, 0, 0, data);
    assert s'.content == data;
    var record :| s'.pieces[0] == FinishedPiece(hash, s'.content, WithRecord(s.pieces, 0, 0, record)[0], 0);
    assert MarkBlock(WithRecord(s.pieces, 0, 0, record)[0], 0).downloaded;
    assert s'.pieces[1] == s.pieces[1];
    assert AllDone(s'.pieces);
  }

  lemma TorrentOfKept(hash: Hash, pieces: seq<PieceState>, pieces': seq<PieceState>, original: seq<byte>)
    requires |pieces'| == |pieces| && forall i :: 0 <= i < |pieces| ==> SameLayout(pieces[i], pieces'[i])
    requires TorrentOf(hash, pieces, original)
    ensures TorrentOf(hash, pieces', original)
  {
    forall i | 0 <= i < |pieces'| && pieces'[i].offset + pieces'[i].len <= |original|
      ensures pieces'[i].sha == hash(original[pieces'[i].offset..pieces'[i].offset + pieces'[i].len])
    {
      assert SameLayout(pieces[i], pieces'[i]);
    }
  }

  /** No event changes where pieces lie, how long they are or what hash they should have. */
  lemma StepKeepsLayout(hash: Hash, s: State, e: Event)
    requires Sound(s) && Enabled(s, e)
    ensures var s' := Step(hash, s, e);
            |s'.pieces| == |s.pieces| && forall i :: 0 <= i < |s.pieces| ==> SameLayout(s.pieces[i], s'.pieces[i])
  {
    if IsPieceMessage(e) {
      var m := e.m.message;
      ReceivePieceParts(hash, s, e.peer, m.index, m.offset, m.data);
      FinishedPieceLayout(hash, s, e.peer, m.index, m.offset, m.data);
    } else {
      OtherEventsKeepContent(hash, s, e);
      hide Step;
      forall i | 0 <= i < |s.pieces| ensures SameLayout(s.pieces[i], Step(hash, s, e).pieces[i]) {
        ProgressLayout(s.pieces[i], Step(hash, s, e).pieces[i]);
      }
    }
  }

  lemma ProgressLayout(p: PieceState, p': PieceState)
    requires SameProgress(p, p')
    ensures SameLayout(p, p')
  {
    assert forall b :: 0 <= b < |p.blocks| ==>
      p'.blocks[b].offset == p.blocks[b].offset && p'.blocks[b].len == p.blocks[b].len;
  }

  lemma FinishedPieceLayout(hash: Hash, s: State, peer: nat, i: nat, begin: nat, data: seq<byte>)
    requires peer < |s.peers| && PieceInRange(s, i, begin, data)
    ensures var s' := ReceivePiece(hash, s, peer, i, begin, data);
            SameLayout(s.pieces[i], s'.pieces[i])
  {
    ReceivePieceParts(hash, s, peer, i, begin, data);
  }

  /** The flag says that the download was complete at some moment: no more, as it is
      never cleared, and no less. */
  lemma {:induction false} FlagIffOnceDone(hash: Hash, states: seq<State>, events: seq<Event>, n: nat)
    requires Trace(hash, states, events) && n < |states| && Sound(states[0])
    requires states[0].downloaded == AllDone(states[0].pieces)
    ensures Sound(states[n])
    ensures states[n].downloaded <==> exists k :: 0 <= k <= n && AllDone(states[k].pieces)
  {
    if n != 0 {
      FlagIffOnceDone(hash, states, events, n - 1);
      var s, e := states[n - 1], events[n - 1];
      StepSound(hash, s, e);
      FlagStep(hash, s, e);
      assert states[n] == Step(hash, s, e);
    }
  }

  lemma FlagStep(hash: Hash, s: State, e: Event)
    requires Sound(s) && Enabled(s, e) && (AllDone(s.pieces) ==> s.downloaded)
    ensures var s' := Step(hash, s, e); s'.downloaded == (s.downloaded || AllDone(s'.pieces))
  {
    if IsPieceMessage(e) {
      ReceivePieceParts(hash, s, e.peer, e.m.message.index, e.m.message.offset, e.m.message.data);
    } else {
      var s' := Step(hash, s, e);
      OtherEventsKeepContent(hash, s, e);
      forall i | 0 <= i < |s.pieces| ensures AllBlocks(s'.pieces[i].blocks) == AllBlocks(s.pieces[i].blocks) {
        SameProgressBlocks(s.pieces[i], s'.pieces[i]);
      }
      assert AllDone(s'.pieces) == AllDone(s.pieces) by {
        assert forall i :: 0 <= i < |s.pieces| ==> SameProgress(s.pieces[i], s'.pieces[i]);
      }
    }
  }

  lemma SameProgressBlocks(p: PieceState, p': PieceState)
    requires SameProgress(p, p')
    ensures AllBlocks(p'.blocks) == AllBlocks(p.blocks) && p'.downloaded == p.downloaded
  {
    assert forall b :: 0 <= b < |p.blocks| ==> p'.blocks[b].downloaded == p.blocks[b].downloaded;
  }

  /** A complete download stays complete under a late piece message exactly when the
      bytes it leaves in that piece still have the hash. */
  lemma StaysCompleteIff(hash: Hash, s: State, peer: nat, i: nat, begin: nat, data: seq<byte>)
    requires Verified(hash, s) && AllDone(s.pieces) && peer < |s.peers| && PieceInRange(s, i, begin, data)
    ensures var s' := ReceivePiece(hash, s, peer, i, begin, data);
            s'.downloaded && (AllDone(s'.pieces) <==> HashMatches(hash, s'.content, s.pieces[i]))
  {
    var s' := ReceivePiece(hash, s, peer, i, begin, data);
    ReceivePieceParts(hash, s, peer, i, begin, data);
    NamedStaysDoneIff(hash, s, peer, i, begin, data);
    hide Sound, ReceivePiece, Splice, HashMatches, FinishedPiece;
    assert forall j :: 0 <= j < |s.pieces| && j != i ==> s'.pieces[j] == s.pieces[j];
  }

  lemma NamedStaysDoneIff(hash: Hash, s: State, peer: nat, i: nat, begin: nat, data: seq<byte>)
    requires Verified(hash, s) && AllDone(s.pieces) && peer < |s.peers| && PieceInRange(s, i, begin, data)
    ensures var s' := ReceivePiece(hash, s, peer, i, begin, data);
            |s'.pieces| == |s.pieces| &&
            (s'.pieces[i].downloaded || AllBlocks(s'.pieces[i].blocks) <==> HashMatches(hash, s'.content, s.pieces[i]))
  {
    var s' := ReceivePiece(hash, s, peer, i, begin, data);
    var b := begin / BLOCK_SIZE;
    ReceivePieceParts(hash, s, peer, i, begin, data);
    PieceInside(s, i);
    AllDoneMeansVerified(hash, s, i);
    assert PieceVerified(hash, s.content, s.pieces[i]);
    hide Verified, AllDone, ReceivePiece, Splice;
    var record :| s'.pieces[i] == FinishedPiece(hash, s'.content, WithRecord(s.pieces, i, b, record)[i], b);
    RecordsDoNotMatter(hash, s.content, s.pieces, i, b, record);
    var p := WithRecord(s.pieces, i, b, record)[i];
    FullPieceFinished(hash, s.content, s'.content, p, b);
    assert HashMatches(hash, s'.content, p) == HashMatches(hash, s'.content, s.pieces[i]);
  }

  /** A full piece that gets one of its blocks again stays full if and only if its bytes have the hash. */
  lemma FullPieceFinished(hash: Hash, before: seq<byte>, content: seq<byte>, p: PieceState, b: nat)
    requires b < |p.blocks| && p.downloaded && PieceVerified(hash, before, p) && |before| == |content|
    ensures var p' := FinishedPiece(hash, content, p, b);
            p'.downloaded || AllBlocks(p'.blocks) <==> HashMatches(hash, content, p)
  {
    var marked := MarkBlock(p, b);
    assert marked.downloaded && HashMatches(hash, content, marked) == HashMatches(hash, content, p);
    assert !ResetPiece(marked).blocks[0].downloaded;
  }
}
