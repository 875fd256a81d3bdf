/** Sending and handling messages (src/peer_protocol.rs). A method that sends returns the
    bytes it writes; `None` is the error for a peer without a connection. */
module PeerProtocol {
  import opened Config
  import opened Wrappers
  import opened IoPrimitives
  import opened Storage
  import opened Codec
  import opened Framing
  import opened TorrentState
  import opened Geometry
  import opened Soundness
  import opened Download
  import opened SpeedWindow

  /** `receive_message`. */
  method ReceiveFrom(peer: PeerState) returns (peer': PeerState, r: Received)
    requires peer.stream.Some? && Ready(WireOf(peer))
    ensures peer' == WithWire(peer, Receive(WireOf(peer)).0) && r == Receive(WireOf(peer)).1
  {
    peer' := peer;
    var stream := peer'.stream.value;
    if peer'.nextMessageLength == 0 {
      var sizeBytes, result;
      stream, sizeBytes, result := ReadNToBuf(stream, [], 4);
      peer' := peer'.(stream := Some(stream));
      match result {
        case Ok =>
          var messageSize := BytesToU32(sizeBytes);
          if messageSize == 0 {
            return peer', Keepalive;
          }
          peer' := peer'.(nextMessageLength := messageSize);
        case WouldBlock =>
          return peer', Nothing;
        case Failed =>
          return peer', Broken;
      }
    }
    var remaining := peer'.nextMessageLength - |peer'.buf|;
    var buf, result;
    stream, buf, result := ReadUptoNNonblocking(stream, peer'.buf, remaining);
    peer' := peer'.(stream := Some(stream), buf := buf);
    if result == Ok && |peer'.buf| == peer'.nextMessageLength {
      r := Complete(peer'.buf);
      peer' := peer'.(buf := [], nextMessageLength := 0);
    } else {
      r := if result == Failed then Broken else Nothing;
    }
  }

  /** `process_message`. The time and the statistics matter to piece messages only. `ok` is false
      when the source panics because the files were moved before. */
  method ProcessMessage(download: Download, stats: Stats, message: seq<byte>, peerId: nat, now: nat)
    returns (ok: bool)
    requires download.Valid() && stats.Valid() && stats.clock <= now
    requires Readable(message) && MessageInRange(download.View(), peerId, Decode(message))
    modifies download, stats
    ensures download.Valid() && stats.Valid()
    ensures download.View() == ReceiveMessage(download.sha1, old(download.View()), peerId, Decode(message))
    ensures stats.initial == old(stats.initial) && stats.uploaded == old(stats.uploaded)
    ensures stats.history == old(stats.history) +
              if ok && message[0] == TYPE_PIECE then [RecentDownloadedEntry(peerId, |message| - 9, now)] else []
    ensures Moves(download, message[0] == TYPE_PIECE, old(download.inPlace), ok)
  {
    ok := true;
    ReceiveMessageSound(download.sha1, download.View(), peerId, Decode(message));
    var kind := message[0];
    var peer := download.peers[peerId];
    if kind == TYPE_CHOKED {
      download.peers := download.peers[peerId := peer.(weChoked := true)];
    } else if kind == TYPE_UNCHOKED {
      download.peers := download.peers[peerId := peer.(weChoked := false)];
    } else if kind == TYPE_INTERESTED {
      download.peers := download.peers[peerId := peer.(theyInterested := true)];
    } else if kind == TYPE_NOT_INTERESTED {
      download.peers := download.peers[peerId := peer.(theyInterested := false)];
    } else if kind == TYPE_HAVE {
      var pieceId := BytesToU32(message[1..5]);
      download.peers := download.peers[peerId := peer.(hasPiece := peer.hasPiece[pieceId := true])];
    } else if kind == TYPE_BITFIELD {
      var hasPiece := UnpackBitfield(message[1..], |download.pieces|);
      download.peers := download.peers[peerId := peer.(hasPiece := hasPiece)];
    } else if kind == TYPE_REQUEST {
      var request := ToIncomingBlockRequest(peerId, message);
      download.pendingBlockRequests := download.pendingBlockRequests + [request];
    } else if kind == TYPE_PIECE {
      ok := OnPiece(message, download, stats, peerId, now);
    }
  }

  /** Files at a temporary path are moved once the download is done; moving them again fails. */
  predicate Moves(download: Download, isPiece: bool, wasInPlace: bool, ok: bool)
    reads download
  {
    var move := isPiece && AllDone(download.pieces) && download.tempLocation != download.destination;
    ok == (move ==> wasInPlace) && download.inPlace == (wasInPlace && !move)
  }

  function ToIncomingBlockRequest(peerId: nat, message: seq<byte>): IncomingBlockRequest
    requires 13 <= |message|
  {
    IncomingBlockRequest(peerId, BytesToU32(message[5..9]), BytesToU32(message[9..13]), BytesToU32(message[1..5]))
  }

  method OnPiece(message: seq<byte>, download: Download, stats: Stats, peerId: nat, now: nat) returns (ok: bool)
    requires download.Valid() && stats.Valid() && stats.clock <= now && peerId < |download.peers|
    requires 9 <= |message|
    requires PieceInRange(download.View(), BytesToU32(message[1..5]), BytesToU32(message[5..9]), message[9..])
    modifies download, stats
    ensures download.Valid() && stats.Valid()
    ensures download.View() == ReceivePiece(download.sha1, old(download.View()), peerId,
                                 BytesToU32(message[1..5]), BytesToU32(message[5..9]), message[9..])
    ensures stats.initial == old(stats.initial) && stats.uploaded == old(stats.uploaded)
    ensures stats.history == old(stats.history) +
              if ok then [RecentDownloadedEntry(peerId, |message| - 9, now)] else []
    ensures Moves(download, true, old(download.inPlace), ok)
  {
    hide Sound, FlatTo, BytesToU32, ReceivePiece, PieceInRange;
    var pieceIndex := BytesToU32(message[1..5]);
    var begin := BytesToU32(message[5..9]);
    var blockLen := |message| - 9;
    ok := TakePiece(download, pieceIndex, begin, message[9..], peerId);
    if ok {
      stats.AddDownloaded(blockLen, peerId, now);
    }
  }

  /** The part of `on_piece` that concerns the download. */
  method TakePiece(download: Download, pieceIndex: nat, begin: nat, data: seq<byte>, peerId: nat) returns (ok: bool)
    requires download.Valid() && peerId < |download.peers| && PieceInRange(download.View(), pieceIndex, begin, data)
    modifies download
    ensures download.Valid()
    ensures download.View() == ReceivePiece(download.sha1, old(download.View()), peerId, pieceIndex, begin, data)
    ensures Moves(download, true, old(download.inPlace), ok)
  {
    ghost var s := download.View();
    var blockId := begin / BLOCK_SIZE;
    ReceivePieceSteps(download.sha1, s, peerId, pieceIndex, begin, data);
    hide Sound, FlatTo, Splice, SettleRecord, FinishBlock, ReceivePiece;
    StorePiece(download, pieceIndex, begin, data);
    hide PieceInRange;
    ghost var written := download.View();
    SettleRequest(download, peerId, pieceIndex, blockId);
    ghost var settled := download.View();
    assert settled == SettleRecord(written, peerId, pieceIndex, blockId);
    ok := download.SetBlockDownloaded(pieceIndex, blockId);
  }

  /** The three steps of `on_piece`; neither writing nor settling changes which blocks there are. */
  lemma ReceivePieceSteps(hash: Hash, s: State, peer: nat, i: nat, begin: nat, data: seq<byte>)
    requires peer < |s.peers| && PieceInRange(s, i, begin, data)
    ensures var written := s.(content := Splice(s.content, i * s.pieceLength + begin, data));
            var b := begin / BLOCK_SIZE;
            i < |written.pieces| && b < |written.pieces[i].blocks| &&
            var settled := SettleRecord(written, peer, i, b);
            i < |settled.pieces| && b < |settled.pieces[i].blocks| &&
            ReceivePiece(hash, s, peer, i, begin, data) == FinishBlock(hash, settled, i, b)
  {
    hide Splice, FinishBlock;
  }

  /** The part of `on_piece` that writes the data, corrupt or not. */
  method StorePiece(download: Download, pieceIndex: nat, begin: nat, data: seq<byte>)
    requires download.Valid() && PieceInRange(download.View(), pieceIndex, begin, data)
    modifies download`files
    ensures download.Valid()
    ensures var s := old(download.View());
            download.View() == s.(content := Splice(s.content, pieceIndex * s.pieceLength + begin, data))
  {
    ghost var s := download.View();
    var seekPos := pieceIndex * download.pieceLength + begin;
    WriteSound(s, Splice(s.content, seekPos, data));
    hide Sound, Splice, FlatTo;
    var ok := download.SetContent(seekPos, data);
  }

  /** The part of `on_piece` that clears the request record. */
  method SettleRequest(download: Download, peerId: nat, pieceIndex: nat, blockId: nat)
    requires download.Valid() && peerId < |download.peers|
    requires pieceIndex < |download.pieces| && blockId < |download.pieces[pieceIndex].blocks|
    modifies download`pieces, download`peers
    ensures download.Valid() && download.View() == SettleRecord(old(download.View()), peerId, pieceIndex, blockId)
  {
    SettleRecordSound(download.View(), peerId, pieceIndex, blockId);
    hide Sound, FlatTo;
    var block := download.pieces[pieceIndex].blocks[blockId];
    if block.record.Some? && block.record.value.peerId == peerId {
      download.pieces := WithRecord(download.pieces, pieceIndex, blockId, None);
      var peer := download.peers[peerId];
      if peer.outstanding > 0 {
        peer := peer.(outstanding := peer.outstanding - 1);
      }
      download.peers := download.peers[peerId := peer];
    }
  }

  // ---------- sending ----------

  /** A write that would block counts as success, whatever part of the message got out. */
  method SendMsg(download: Download, peerId: nat, message: Message, write: Write) returns (sent: Option<seq<byte>>)
    requires download.Valid() && peerId < |download.peers| && FieldsFit(message)
    modifies download`peers
    ensures download.Valid() && download.View() == AfterSend(old(download.View()), peerId, !write.Fails?)
    ensures old(download.peers)[peerId].stream.Some? && write.Fails? ==> download.peers[peerId].stream.None?
    ensures old(download.peers)[peerId].stream.None? || !write.Fails? ==> download.View() == old(download.View())
    ensures sent == if old(download.peers)[peerId].stream.None? || write.Fails? then None
                    else Some(Accepted(Frame(Payload(message)), write))
  {
    if download.peers[peerId].stream.None? {
      return None;
    }
    var bytes := Serialize(message);
    if write.Fails? {
      download.OnBrokenConnection(peerId);
      return None;
    }
    sent := Some(Accepted(bytes, write));
  }

  /** The request for a block, with the casts of the source. */
  function RequestFor(s: State, i: nat, b: nat): (m: Message)
    requires i < |s.pieces| && b < |s.pieces[i].blocks|
    ensures FieldsFit(m)
  {
    Request(AsU32(i), AsU32(BlockAt(s, i, b).offset), AsU32(BlockAt(s, i, b).len))
  }

  method RequestBlock(download: Download, pieceId: nat, blockId: nat, peerId: nat, write: Write)
    returns (sent: Option<seq<byte>>)
    requires download.Valid() && peerId < |download.peers|
    requires pieceId < |download.pieces| && blockId < |download.pieces[pieceId].blocks|
    modifies download`peers
    ensures download.Valid() && download.View() == AfterSend(old(download.View()), peerId, !write.Fails?)
    ensures sent == if old(download.peers)[peerId].stream.None? || write.Fails? then None
                    else Some(Accepted(Frame(Payload(RequestFor(download.View(), pieceId, blockId))), write))
  {
    hide Sound, FlatTo, Payload, Frame;
    var block := download.pieces[pieceId].blocks[blockId];
    sent := SendMsg(download, peerId, Request(AsU32(pieceId), AsU32(block.offset), AsU32(block.len)), write);
  }

  function ReplyTo(s: State, r: IncomingBlockRequest): (m: Message)
    requires Servable(s, r)
    ensures FieldsFit(m)
  {
    var offset := r.pieceId * s.pieceLength + r.begin;
    Piece(AsU32(r.pieceId), AsU32(r.begin), s.content[offset..offset + r.length])
  }

  method SendBlock(download: Download, stats: Stats, request: IncomingBlockRequest, write: Write)
    returns (sent: Option<seq<byte>>)
    requires download.Valid() && stats.Valid()
    requires request.peerId < |download.peers| && Servable(download.View(), request)
    modifies download`peers, stats`uploaded
    ensures download.Valid() && stats.Valid()
    ensures download.View() == AfterSend(old(download.View()), request.peerId, !write.Fails?)
    ensures sent == if old(download.peers)[request.peerId].stream.None? || write.Fails? then None
                    else Some(Accepted(Frame(Payload(ReplyTo(old(download.View()), request))), write))
    ensures stats.uploaded == old(stats.uploaded) + if sent.Some? then request.length else 0
  {
    hide Sound, FlatTo, Payload, Frame;
    var offset := request.pieceId * download.pieceLength + request.begin;
    var data := download.GetContent(offset, request.length);
    var message := Piece(AsU32(request.pieceId), AsU32(request.begin), data.value);
    sent := SendMsg(download, request.peerId, message, write);
    if sent.Some? {
      stats.AddUploaded(|data.value|);
    }
  }

  method SendBitfield(peerId: nat, download: Download, write: Write)
    returns (sent: Option<seq<byte>>, ghost payload: seq<byte>)
    requires download.Valid() && peerId < |download.peers|
    modifies download`peers
    ensures download.Valid() && download.View() == AfterSend(old(download.View()), peerId, !write.Fails?)
    ensures Packs(payload, PieceFlags(download.pieces))
    ensures sent == if old(download.peers)[peerId].stream.None? || write.Fails? then None
                    else Some(Accepted(Frame(Payload(Bitfield(payload))), write))
  {
    hide Sound, FlatTo, Payload, Frame, Packs;
    var bytes := PackBitfield(PieceFlags(download.pieces));
    payload := bytes;
    sent := SendMsg(download, peerId, Bitfield(bytes), write);
  }

  method SendHave(download: Download, peerId: nat, pieceId: nat, write: Write) returns (sent: Option<seq<byte>>)
    requires download.Valid() && peerId < |download.peers|
    modifies download`peers
    ensures download.Valid() && download.View() == AfterSend(old(download.View()), peerId, !write.Fails?)
    ensures sent == if old(download.peers)[peerId].stream.None? || write.Fails? then None
                    else Some(Accepted(Frame(Payload(Have(AsU32(pieceId)))), write))
  {
    hide Sound, FlatTo, Payload, Frame;
    sent := SendMsg(download, peerId, Have(AsU32(pieceId)), write);
  }

  function PieceFlags(pieces: seq<PieceState>): seq<bool> {
    seq(|pieces|, i requires 0 <= i < |pieces| => pieces[i].downloaded)
  }
}
