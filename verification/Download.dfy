/** The objects of src/download.rs. Every method is proved against the step on values
    that TorrentState gives for it. */
module Download {
  import opened Config
  import opened Wrappers
  import opened IoPrimitives
  import opened Codec
  import opened Storage
  import opened TorrentState
  import opened Geometry
  import opened Soundness

  /** Pieces, blocks, peers and files are values owned by the download's vectors;
      a method that updates one replaces it in the sequence that holds it. */
  class Download {
    const sha1: Hash
    const pieceLength: nat
    const length: nat
    const tempLocation: string
    const destination: string
    var files: seq<DownloadFile>
    var pieces: seq<PieceState>
    var peers: seq<PeerState>
    var pendingBlockRequests: seq<IncomingBlockRequest>
    var recentlyDownloadedPieces: seq<nat>
    var downloaded: bool
    /** Whether the files still are at `tempLocation`. */
    var inPlace: bool

    ghost predicate Valid()
      reads this
    {
      |Flat(files)| == length && Sound(View())
    }

    ghost function View(): State
      reads this
    {
      State(Flat(files), pieceLength, pieces, peers, pendingBlockRequests, recentlyDownloadedPieces, downloaded)
    }

    /** `files` are the torrent's files as found at the temporary path, `shas` the hashes of its
        pieces. */
    constructor (sha1: Hash, files: seq<DownloadFile>, pieceLength: nat, shas: seq<Sha1>, tempLocation: string,
                 destination: string)
      requires Cuttable(|Flat(files)|, pieceLength, |shas|)
      ensures Valid() && inPlace && this.tempLocation == tempLocation && this.destination == destination
      ensures View() == InitialState(sha1, Flat(files), pieceLength, shas)
    {
      InitialStateSound(sha1, Flat(files), pieceLength, shas);
      hide Sound, FlatTo, InitialPieces, AllDone;
      var totalLength := TotalLength(files);
      this.sha1, this.files, this.pieceLength, this.length := sha1, files, pieceLength, totalLength;
      this.tempLocation, this.destination, inPlace := tempLocation, destination, true;
      pieces, peers, pendingBlockRequests, recentlyDownloadedPieces, downloaded := [], [], [], [], false;
      new;
      InitPieces(shas);
      downloaded := GetIsDownloaded();
    }

    method InitPieces(shas: seq<Sha1>)
      requires |Flat(files)| == length && Cuttable(length, pieceLength, |shas|)
      modifies this`pieces
      ensures pieces == InitialPieces(sha1, Flat(files), pieceLength, shas)
    {
      hide FlatTo, InitialPiece, Cuttable;
      var result := [];
      for pieceId := 0 to |shas|
        invariant |result| == pieceId
        invariant forall i :: 0 <= i < pieceId ==> result[i] == InitialPiece(sha1, Flat(files), pieceLength, shas, i)
      {
        var piece := InitPiece(shas, pieceId);
        result := result + [piece];
      }
      pieces := result;
    }

    /** One round of its loop. */
    method InitPiece(shas: seq<Sha1>, pieceId: nat) returns (piece: PieceState)
      requires |Flat(files)| == length && Cuttable(length, pieceLength, |shas|) && pieceId < |shas|
      ensures piece == InitialPiece(sha1, Flat(files), pieceLength, shas, pieceId)
    {
      hide FlatTo;
      var numPieces := |shas|;
      var len := pieceLength;
      if pieceId == numPieces - 1 {
        var inPrevious := len * (numPieces - 1);
        var remaining := length - inPrevious;
        len := remaining;
      }
      PieceFits(length, pieceLength, numPieces, pieceId);
      var pieceOffset := pieceId * pieceLength;
      var data := GetContent(pieceOffset, len);
      var haveThisPiece := shas[pieceId] == sha1(data.value);
      var numBlocks := CeilDiv(len, BLOCK_SIZE);
      BlockCount(len);
      var blocks := FreshBlocks(length, pieceOffset, numBlocks, haveThisPiece);
      piece := PieceState(haveThisPiece, shas[pieceId], blocks, pieceOffset, len);
      hide InitialPiece, FreshBlock, CeilDiv;
      InitialPieceIs(sha1, Flat(files), pieceLength, shas, pieceId, pieceOffset, len, blocks);
    }

    // ---------- pieces ----------

    /** Counts blocks, but what it decides is that every piece is done. */
    method GetIsDownloaded() returns (r: bool)
      ensures r == AllDone(pieces)
    {
      var numBlocks, downloadedBlocks := 0, 0;
      for p := 0 to |pieces|
        invariant downloadedBlocks <= numBlocks
        invariant downloadedBlocks == numBlocks <==>
                  forall i :: 0 <= i < p ==> pieces[i].downloaded || AllBlocks(pieces[i].blocks)
      {
        if pieces[p].downloaded {
          numBlocks := numBlocks + |pieces[p].blocks|;
          downloadedBlocks := downloadedBlocks + |pieces[p].blocks|;
          continue;
        }
        ghost var complete := downloadedBlocks == numBlocks;
        for b := 0 to |pieces[p].blocks|
          invariant downloadedBlocks <= numBlocks
          invariant downloadedBlocks == numBlocks <==>
                    complete && forall k :: 0 <= k < b ==> pieces[p].blocks[k].downloaded
        {
          numBlocks := numBlocks + 1;
          if pieces[p].blocks[b].downloaded {
            downloadedBlocks := downloadedBlocks + 1;
          }
        }
      }
      r := numBlocks == downloadedBlocks;
    }

    /** `on_done`: moves the files to their destination if that is another path. It fails, and the
        source panics, if they are not at the temporary path any more. */
    method OnDone() returns (ok: bool)
      modifies this`inPlace
      ensures ok == (tempLocation == destination || old(inPlace))
      ensures inPlace == (old(inPlace) && tempLocation == destination)
    {
      ok := true;
      if tempLocation != destination {
        ok := inPlace;
        inPlace := false;
      }
    }

    /** `Download::set_block_downloaded`. */
    method SetBlockDownloaded(pieceId: nat, blockId: nat) returns (ok: bool)
      requires Valid() && pieceId < |pieces| && blockId < |pieces[pieceId].blocks|
      modifies this`pieces, this`recentlyDownloadedPieces, this`downloaded, this`inPlace
      ensures Valid() && View() == FinishBlock(sha1, old(View()), pieceId, blockId)
      ensures recentlyDownloadedPieces ==
              if pieces[pieceId].downloaded then old(recentlyDownloadedPieces) + [pieceId]
              else old(recentlyDownloadedPieces)
      ensures ok == (AllDone(pieces) && tempLocation != destination ==> old(inPlace))
      ensures inPlace == (old(inPlace) && !(AllDone(pieces) && tempLocation != destination))
    {
      ghost var s' := FinishBlock(sha1, View(), pieceId, blockId);
      FinishBlockSound(sha1, View(), pieceId, blockId);
      PieceInside(View(), pieceId);
      hide Sound, MarkBlock, CheckedPiece, AllDone, FlatTo;
      SetPieceBlockDownloaded(pieceId, blockId);
      if pieces[pieceId].downloaded {
        OnPieceDone(pieceId);
      }
      var done := GetIsDownloaded();
      ok := true;
      if done {
        downloaded := true;
        ok := OnDone();
      }
      assert pieces == s'.pieces && recentlyDownloadedPieces == s'.recent && downloaded == s'.downloaded;
      assert View() == s';
    }

    /** `Piece::set_block_downloaded`. */
    method SetPieceBlockDownloaded(pieceId: nat, blockId: nat)
      requires pieceId < |pieces| && blockId < |pieces[pieceId].blocks|
      modifies this`pieces
      ensures pieces == old(pieces)[pieceId := MarkBlock(old(pieces)[pieceId], blockId)]
    {
      var piece := pieces[pieceId];
      piece := piece.(blocks := piece.blocks[blockId := piece.blocks[blockId].(downloaded := true)]);
      pieces := pieces[pieceId := piece];
      for b := 0 to |piece.blocks|
        invariant forall k :: 0 <= k < b ==> piece.blocks[k].downloaded
      {
        if !piece.blocks[b].downloaded {
          return;
        }
      }
      pieces := pieces[pieceId := piece.(downloaded := true)];
    }

    /** Keeps a completed piece whose hash matches and resets any other. */
    method OnPieceDone(pieceId: nat)
      requires pieceId < |pieces| && pieces[pieceId].downloaded
      requires pieces[pieceId].offset < |Flat(files)| && pieces[pieceId].offset + pieces[pieceId].len <= |Flat(files)|
      modifies this`pieces, this`recentlyDownloadedPieces
      ensures pieces == old(pieces)[pieceId := CheckedPiece(sha1, Flat(files), old(pieces)[pieceId])]
      ensures recentlyDownloadedPieces ==
              if pieces[pieceId].downloaded then old(recentlyDownloadedPieces) + [pieceId]
              else old(recentlyDownloadedPieces)
    {
      hide FlatTo;
      var data := GetContent(pieces[pieceId].offset, pieces[pieceId].len);
      var isComplete := pieces[pieceId].sha == sha1(data.value);
      if isComplete {
        recentlyDownloadedPieces := recentlyDownloadedPieces + [pieceId];
      } else {
        Reset(pieceId);
      }
    }

    /** `Piece::reset`. */
    method Reset(pieceId: nat)
      requires pieceId < |pieces|
      modifies this`pieces
      ensures pieces == old(pieces)[pieceId := ResetPiece(old(pieces)[pieceId])]
    {
      var piece := pieces[pieceId].(downloaded := false);
      for b := 0 to |piece.blocks|
        invariant piece == old(pieces)[pieceId].(downloaded := false, blocks := piece.blocks)
        invariant |piece.blocks| == |old(pieces)[pieceId].blocks|
        invariant forall k :: 0 <= k < b ==> piece.blocks[k] == old(pieces)[pieceId].blocks[k].(downloaded := false)
        invariant forall k :: b <= k < |piece.blocks| ==> piece.blocks[k] == old(pieces)[pieceId].blocks[k]
      {
        piece := piece.(blocks := piece.blocks[b := piece.blocks[b].(downloaded := false)]);
      }
      assert piece.blocks == ResetPiece(pieces[pieceId]).blocks;
      pieces := pieces[pieceId := piece];
    }

    // ---------- connections ----------

    method OnBrokenConnection(peerId: nat)
      requires Valid() && peerId < |peers|
      modifies this`peers
      ensures Valid() && View() == BreakConnection(old(View()), peerId)
    {
      ghost var s' := BreakConnection(View(), peerId);
      WithPeerSound(View(), peerId, s'.peers[peerId]);
      hide Sound;
      peers := peers[peerId := peers[peerId].(stream := None)];
      peers := peers[peerId := peers[peerId].(buf := [])];
      peers := peers[peerId := peers[peerId].(nextMessageLength := 0)];
      peers := peers[peerId := peers[peerId].(weChoked := true)];
      peers := peers[peerId := peers[peerId].(weInterested := false)];
      peers := peers[peerId := peers[peerId].(theyInterested := false)];
      peers := peers[peerId := peers[peerId].(outstanding := 0)];
      assert peers == s'.peers;
    }

    /** `register_outgoing_peer` once it accepts a peer (no stream yet) and `register_incoming_peer`. */
    method RegisterPeer(stream: Option<Stream>) returns (peerId: nat)
      requires Valid()
      modifies this`peers
      ensures Valid() && View() == Register(old(View()), stream) && peerId == |old(peers)|
    {
      RegisterSound(View(), stream);
      hide Sound;
      peerId := |peers|;
      peers := peers + [FreshPeer(stream, |pieces|)];
    }

    // ---------- content ----------

    /** `None` stands for the panic after the last file. */
    method GetContent(offset: nat, len: nat) returns (content: Option<seq<byte>>)
      ensures content.Some? <==> offset < |Flat(files)| && offset + len <= |Flat(files)|
      ensures content.Some? ==> content.value == Flat(files)[offset..offset + len]
    {
      hide Padded;
      ghost var flat := Flat(files);
      var result := [];
      var fileStart := 0;
      for i := 0 to |files|
        invariant fileStart == |FlatTo(files, i)| <= |flat|
        invariant fileStart <= offset ==> result == []
        invariant offset < fileStart ==> fileStart < offset + len && result == flat[offset..fileStart]
      {
        FlatAround(files, i);
        var nextFileStart := fileStart + files[i].length;
        if nextFileStart <= offset {
          fileStart := nextFileStart;
          continue;
        }
        var remainingToRead := len - |result|;
        var fileOffset := if fileStart <= offset then offset - fileStart else 0;
        var leftInFile := files[i].length - fileOffset;
        var readFromThisFile := Min(leftInFile, remainingToRead);
        var data := ReadFromFile(files[i], fileOffset, readFromThisFile);
        ReadOn(flat, offset, fileStart, files[i].length, fileOffset, readFromThisFile, result, data);
        result := result + data;
        if |result| >= len {
          return Some(result);
        }
        fileStart := nextFileStart;
      }
      content := None;
    }

    /** `false` stands for the panic after the last file. Whatever the files look like, the
        data is laid over the flat string, and no file grows past its declared length. */
    method SetContent(offset: nat, data: seq<byte>) returns (ok: bool)
      modifies this`files
      ensures ok <==> offset < |old(Flat(files))| && offset + |data| <= |old(Flat(files))|
      ensures offset <= |old(Flat(files))| ==> Flat(files) == Splice(old(Flat(files)), offset, data)
      ensures |old(Flat(files))| < offset ==> files == old(files)
      ensures |files| == |old(files)|
      ensures forall k :: 0 <= k < |files| ==> NoOvergrowth(old(files)[k], files[k])
    {
      hide Padded, Splice, WriteAt, FlatTo;
      ghost var flat := Flat(files);
      NothingWritten(files, offset, data);
      var remainingData := data;
      ghost var done := 0;
      var fileStart := 0;
      for i := 0 to |files|
        invariant |files| == |old(files)| && |Flat(files)| == |flat|
        invariant fileStart == |FlatTo(files, i)| <= |flat|
        invariant done <= |data| && remainingData == data[done..]
        invariant fileStart <= offset ==> files == old(files) && done == 0
        invariant offset < fileStart ==> done == fileStart - offset < |data|
        invariant offset < fileStart ==> Flat(files) == Splice(flat, offset, data[..done])
        invariant forall k :: 0 <= k < i ==> NoOvergrowth(old(files)[k], files[k])
        invariant forall k :: i <= k < |files| ==> files[k] == old(files)[k]
      {
        FlatAround(files, i);
        var nextFileStart := fileStart + files[i].length;
        if nextFileStart <= offset {
          fileStart := nextFileStart;
          continue;
        }
        var remainingToWrite := |remainingData|;
        var fileOffset := if fileStart <= offset then offset - fileStart else 0;
        var leftInFile := files[i].length - fileOffset;
        var writeToThisFile := Min(leftInFile, remainingToWrite);

        var dataToWrite := remainingData[..writeToThisFile];
        files := WriteToFile(files, i, fileOffset, dataToWrite);
        SpliceMore(flat, offset, data, done, writeToThisFile);
        remainingData := remainingData[writeToThisFile..];
        done := done + writeToThisFile;
        if remainingData == [] {
          return true;
        }
        fileStart := nextFileStart;
      }
      if offset < fileStart {
        SpliceCut(flat, offset, data, done);
      }
      ok := false;
    }
  }

  method TotalLength(files: seq<DownloadFile>) returns (totalLength: nat)
    ensures totalLength == |Flat(files)|
  {
    totalLength := 0;
    for i := 0 to |files|
      invariant totalLength == |FlatTo(files, i)|
    {
      totalLength := totalLength + files[i].length;
    }
  }

  method FreshBlocks(length: nat, pieceOffset: nat, numBlocks: nat, have: bool) returns (blocks: seq<Block>)
    requires 0 < numBlocks ==> pieceOffset + (numBlocks - 1) * BLOCK_SIZE < length
    ensures |blocks| == numBlocks
    ensures forall b :: 0 <= b < numBlocks ==>
              pieceOffset + b * BLOCK_SIZE < length && blocks[b] == FreshBlock(length, pieceOffset, b, have)
  {
    blocks := [];
    for blockId := 0 to numBlocks
      invariant |blocks| == blockId
      invariant forall b :: 0 <= b < blockId ==>
                  pieceOffset + b * BLOCK_SIZE < length && blocks[b] == FreshBlock(length, pieceOffset, b, have)
    {
      var blockOffset := blockId * BLOCK_SIZE;
      var blockLen := Min(length - pieceOffset - blockOffset, BLOCK_SIZE);
      blocks := blocks + [Block(have, blockOffset, blockLen, None)];
    }
  }

  /** What was read so far and the share of one more file make a longer slice. */
  lemma ReadOn(s: seq<byte>, offset: nat, start: nat, len: nat, fileOffset: nat, n: nat, read: seq<byte>,
               data: seq<byte>)
    requires start + len <= |s| && fileOffset + n <= len && data == s[start..start + len][fileOffset..fileOffset + n]
    requires if start <= offset then read == [] && start + fileOffset == offset
             else fileOffset == 0 && read == s[offset..start]
    ensures offset <= start + fileOffset && read + data == s[offset..start + fileOffset + n]
  {
    SubSlice(s, start, len, fileOffset, n);
    var mid := start + fileOffset;
    assert s[offset..mid] + s[mid..mid + n] == s[offset..mid + n];
  }

  lemma SubSlice(s: seq<byte>, start: nat, len: nat, offset: nat, n: nat)
    requires start + len <= |s| && offset + n <= len
    ensures s[start..start + len][offset..offset + n] == s[start + offset..start + offset + n]
  {
    var piece := s[start..start + len];
    var t, u := piece[offset..offset + n], s[start + offset..start + offset + n];
    forall k | 0 <= k < n ensures t[k] == u[k] {
      assert t[k] == piece[offset + k] == s[start + (offset + k)] == u[k];
    }
  }

  /** A file keeps its declared length and does not grow past it. */
  predicate NoOvergrowth(before: DownloadFile, after: DownloadFile) {
    after.length == before.length &&
    |after.bytes| <= if |before.bytes| <= before.length then before.length else |before.bytes|
  }

  /** One file's share of a read: what is physically there, then zeros. */
  method ReadFromFile(file: DownloadFile, fileOffset: nat, n: nat) returns (data: seq<byte>)
    requires fileOffset + n <= file.length
    ensures data == Padded(file)[fileOffset..fileOffset + n]
  {
    ReadIsSlice(file, fileOffset, n);
    data := ReadAt(file.bytes, fileOffset, n);
    ghost var physical := data;
    hide Padded, ReadAt;
    while |data| < n
      invariant |physical| <= |data| <= n
      invariant data == physical + Zeros(|data| - |physical|)
    {
      data := data + [0];
    }
  }

  /** One file's share of a write, seen on the flat string. */
  method WriteToFile(files: seq<DownloadFile>, i: nat, fileOffset: nat, data: seq<byte>)
    returns (files': seq<DownloadFile>)
    requires i < |files| && fileOffset + |data| <= files[i].length
    ensures |files'| == |files| && NoOvergrowth(files[i], files'[i])
    ensures forall k :: 0 <= k < |files| && k != i ==> files'[k] == files[k]
    ensures |FlatTo(files', i + 1)| == |FlatTo(files, i)| + files[i].length
    ensures |FlatTo(files, i)| + fileOffset + |data| <= |Flat(files)|
    ensures Flat(files') == Splice(Flat(files), |FlatTo(files, i)| + fileOffset, data)
  {
    hide Splice, Padded, WriteAt, FlatTo;
    var f := files[i].(bytes := WriteAt(files[i].bytes, fileOffset, data));
    files' := files[i := f];
    ghost var at := |FlatTo(files, i)| + fileOffset;
    FlatAround(files, i);
    WriteIsSplice(files[i], fileOffset, data);
    FlatUpdate(files, i, f, at, data, |files|);
    FlatUpdate(files, i, f, at, data, i + 1);
  }

  lemma NothingWritten(files: seq<DownloadFile>, offset: nat, data: seq<byte>)
    ensures FlatTo(files, 0) == []
    ensures offset == |Flat(files)| ==> Splice(Flat(files), offset, data) == Flat(files)
  {
  }

  lemma SpliceCut(s: seq<byte>, offset: nat, data: seq<byte>, n: nat)
    requires offset + n == |s| && n <= |data|
    ensures Splice(s, offset, data[..n]) == Splice(s, offset, data)
  {
  }

  lemma SpliceMore(s: seq<byte>, offset: nat, data: seq<byte>, done: nat, n: nat)
    requires offset + done + n <= |s| && done + n <= |data|
    ensures Splice(Splice(s, offset, data[..done]), offset + done, data[done..][..n]) ==
            Splice(s, offset, data[..done + n])
    ensures done + n == |data| ==> data[..done + n] == data
    ensures data[done..][n..] == data[done + n..]
    ensures done == 0 ==> Splice(s, offset, data[..done]) == s
  {
    var first, next, both := data[..done], data[done..][..n], data[..done + n];
    var once := Splice(s, offset, first);
    forall k | 0 <= k < |s|
      ensures Splice(once, offset + done, next)[k] == Splice(s, offset, both)[k]
    {
      SplicedAt(s, offset, first, k);
      SplicedAt(once, offset + done, next, k);
      SplicedAt(s, offset, both, k);
    }
    hide Splice;
  }
}
