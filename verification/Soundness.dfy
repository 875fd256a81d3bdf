/** Every step of the client keeps the shape of the pieces and all stored indices in range. */
module Soundness {
  import opened Config
  import opened Wrappers
  import opened IoPrimitives
  import opened Codec
  import opened Storage
  import opened TorrentState
  import opened Geometry

  /** Same place and size, block by block. */
  predicate SameLayout(p: PieceState, p': PieceState) {
    p'.offset == p.offset && p'.len == p.len && p'.sha == p.sha && |p'.blocks| == |p.blocks| &&
    forall b :: 0 <= b < |p.blocks| ==> p'.blocks[b].offset == p.blocks[b].offset && p'.blocks[b].len == p.blocks[b].len
  }

  /** Records are kept, dropped, or name a known peer. */
  predicate RecordsKept(p: PieceState, p': PieceState, numPeers: nat)
    requires |p.blocks| == |p'.blocks|
  {
    forall b :: 0 <= b < |p.blocks| && p'.blocks[b].record.Some? ==>
      p'.blocks[b].record == p.blocks[b].record || p'.blocks[b].record.value.peerId < numPeers
  }

  lemma ShapeKept(s: State, s': State)
    requires Sound(s) && |s'.content| == |s.content| && s'.pieceLength == s.pieceLength
    requires |s'.pieces| == |s.pieces| && |s.peers| <= |s'.peers|
    requires forall i :: 0 <= i < |s.pieces| ==>
               SameLayout(s.pieces[i], s'.pieces[i]) && RecordsKept(s.pieces[i], s'.pieces[i], |s'.peers|)
    requires forall p :: 0 <= p < |s'.peers| ==> PeerSound(s, s'.peers[p])
    requires forall k :: 0 <= k < |s'.recent| ==> s'.recent[k] < |s.pieces|
    requires forall k :: 0 <= k < |s'.pending| ==> s'.pending[k].peerId < |s'.peers|
    ensures Sound(s')
  {
    assert WellFormed(s') by {
      hide SameLayout, RecordsKept;
      forall i | 0 <= i < |s'.pieces| ensures PieceShaped(|s'.content|, s'.pieceLength, |s'.pieces|, i, s'.pieces[i]) {
        LayoutKeepsShape(|s.content|, s.pieceLength, |s.pieces|, i, s.pieces[i], s'.pieces[i]);
      }
    }
    hide WellFormed;
    forall i, b | 0 <= i < |s'.pieces| && 0 <= b < |s'.pieces[i].blocks| && BlockAt(s', i, b).record.Some?
      ensures BlockAt(s', i, b).record.value.peerId < |s'.peers|
    {
      assert RecordsKept(s.pieces[i], s'.pieces[i], |s'.peers|);
      assert BlockAt(s, i, b) == s.pieces[i].blocks[b];
    }
  }

  lemma LayoutKeepsShape(total: nat, pieceLength: nat, n: nat, i: nat, p: PieceState, p': PieceState)
    requires Cuttable(total, pieceLength, n) && i < n
    requires PieceShaped(total, pieceLength, n, i, p) && SameLayout(p, p')
    ensures PieceShaped(total, pieceLength, n, i, p')
  {
  }

  lemma PieceInside(s: State, i: nat)
    requires Sound(s) && i < |s.pieces|
    ensures s.pieces[i].offset + s.pieces[i].len <= |s.content|
    ensures s.pieces[i].blocks != [] ==> s.pieces[i].offset < |s.content|
  {
    assert PieceShaped(|s.content|, s.pieceLength, |s.pieces|, i, s.pieces[i]);
  }

  lemma FinishBlockSound(hash: Hash, s: State, i: nat, b: nat)
    requires Sound(s) && i < |s.pieces| && b < |s.pieces[i].blocks|
    ensures Sound(FinishBlock(hash, s, i, b))
    ensures SameLayout(s.pieces[i], FinishedPiece(hash, s.content, s.pieces[i], b))
  {
    ShapeKept(s, FinishBlock(hash, s, i, b));
  }

  lemma WriteSound(s: State, content: seq<byte>)
    requires Sound(s) && |content| == |s.content|
    ensures Sound(s.(content := content))
  {
    ShapeKept(s, s.(content := content));
  }

  lemma SettleRecordSound(s: State, peer: nat, i: nat, b: nat)
    requires Sound(s) && peer < |s.peers| && i < |s.pieces| && b < |s.pieces[i].blocks|
    ensures Sound(SettleRecord(s, peer, i, b))
  {
    ShapeKept(s, SettleRecord(s, peer, i, b));
  }

  lemma WithPeerSound(s: State, peer: nat, p: PeerState)
    requires Sound(s) && peer < |s.peers| && PeerSound(s, p)
    ensures Sound(WithPeer(s, peer, p))
  {
    ShapeKept(s, WithPeer(s, peer, p));
  }

  lemma RegisterSound(s: State, stream: Option<Stream>)
    requires Sound(s)
    ensures Sound(Register(s, stream))
  {
    ShapeKept(s, Register(s, stream));
  }

  lemma ReceivePieceSound(hash: Hash, s: State, peer: nat, i: nat, begin: nat, data: seq<byte>)
    requires Sound(s) && peer < |s.peers| && PieceInRange(s, i, begin, data)
    ensures Sound(ReceivePiece(hash, s, peer, i, begin, data))
  {
    var written := s.(content := Splice(s.content, i * s.pieceLength + begin, data));
    WriteSound(s, written.content);
    SettleRecordSound(written, peer, i, begin / BLOCK_SIZE);
    FinishBlockSound(hash, SettleRecord(written, peer, i, begin / BLOCK_SIZE), i, begin / BLOCK_SIZE);
  }

  lemma ReceiveMessageSound(hash: Hash, s: State, peer: nat, m: Incoming)
    requires Sound(s) && MessageInRange(s, peer, m)
    ensures Sound(ReceiveMessage(hash, s, peer, m))
  {
    var s' := ReceiveMessage(hash, s, peer, m);
    match m {
      case Known(Piece(i, begin, data)) => ReceivePieceSound(hash, s, peer, i, begin, data);
      case Known(Request(_, _, _)) => ShapeKept(s, s');
      case Unknown =>
      case _ => WithPeerSound(s, peer, s'.peers[peer]);
    }
  }

  lemma {:induction false} RecordedSound(s: State, reqs: seq<BlockRequest>, now: nat, n: nat)
    requires Sound(s) && RequestsInRange(s, reqs) && n <= |reqs|
    ensures Sound(s.(pieces := Recorded(s, reqs, now, n)))
  {
    if n != 0 {
      RecordedSound(s, reqs, now, n - 1);
      ShapeKept(s.(pieces := Recorded(s, reqs, now, n - 1)), s.(pieces := Recorded(s, reqs, now, n)));
    }
  }

  lemma IssueRequestsSound(s: State, reqs: seq<BlockRequest>, now: nat)
    requires Sound(s) && RequestsInRange(s, reqs)
    ensures Sound(IssueRequests(s, reqs, now))
  {
    RecordedSound(s, reqs, now, |reqs|);
    ShapeKept(s.(pieces := Recorded(s, reqs, now, |reqs|)), IssueRequests(s, reqs, now));
  }

  lemma RemoveExpiredSound(s: State, now: nat)
    requires Sound(s)
    ensures Sound(RemoveExpired(s, now))
  {
    ShapeKept(s, RemoveExpired(s, now));
  }

  lemma InitialStateSound(hash: Hash, content: seq<byte>, pieceLength: nat, shas: seq<Sha1>)
    requires Cuttable(|content|, pieceLength, |shas|)
    ensures Sound(InitialState(hash, content, pieceLength, shas))
  {
  }
}
