/** No block is requested again too early (src/decider.rs, lines 56-58 and 72-78;
    src/main_loop.rs, lines 312-323; src/peer_protocol.rs, lines 356-366;
    src/download.rs, lines 624-637). */
module Rerequest {
  import opened Config
  import opened Wrappers
  import opened Storage
  import opened TorrentState
  import opened Geometry
  import opened Decider
  import opened Runs
  import opened Safety

  /** The event is a piece message from `peer` for block (i, b). */
  predicate DeliveredBy(e: Event, peer: nat, i: nat, b: nat) {
    e.Deliver? && e.peer == peer && e.m.Known? && e.m.message.Piece? &&
    e.m.message.index == i && e.m.message.offset / BLOCK_SIZE == b
  }

  /** The event completes piece `i` with bytes that do not have its hash, so that it is reset. */
  predicate HashFails(hash: Hash, s: State, e: Event, i: nat) {
    IsPieceMessage(e) && e.m.message.index == i && MessageInRange(s, e.peer, e.m) &&
    var m := e.m.message;
    var content := Splice(s.content, i * s.pieceLength + m.offset, m.data);
    MarkBlock(s.pieces[i], m.offset / BLOCK_SIZE).downloaded && !HashMatches(hash, content, s.pieces[i])
  }

  predicate InPieces(s: State, i: nat, b: nat) { i < |s.pieces| && b < |s.pieces[i].blocks| }

  /** What one event does to block (i, b) of the piece a message names. */
  lemma NamedPieceStep(hash: Hash, s: State, e: Event, i: nat, b: nat)
    requires Enabled(s, e) && InPieces(s, i, b)
    requires IsPieceMessage(e) && e.m.message.index == i
    ensures var s' := Step(hash, s, e); var c := e.m.message.offset / BLOCK_SIZE;
            InPieces(s', i, b) &&
            BlockAt(s', i, b).downloaded ==
              (!HashFails(hash, s, e, i) && (BlockAt(s, i, b).downloaded || b == c)) &&
            BlockAt(s', i, b).record ==
              if b == c && IsRecordOf(BlockAt(s, i, b).record, e.peer) then None else BlockAt(s, i, b).record
  {
    var m := e.m.message;
    var c := m.offset / BLOCK_SIZE;
    var written := s.(content := Splice(s.content, i * s.pieceLength + m.offset, m.data));
    var settled := SettleRecord(written, e.peer, i, c);
    SettledBlocks(written, e.peer, i, c);
    hide Splice, SettleRecord;
    assert Step(hash, s, e) == FinishBlock(hash, settled, i, c);
  }

  /** Settling a record does not touch which blocks are downloaded. */
  lemma SettledBlocks(s: State, peer: nat, i: nat, c: nat)
    requires peer < |s.peers| && InPieces(s, i, c)
    ensures var p, p' := s.pieces[i], SettleRecord(s, peer, i, c).pieces[i];
            |p'.blocks| == |p.blocks| && MarkBlock(p', c).downloaded == MarkBlock(p, c).downloaded &&
            p'.(blocks := []) == p.(blocks := []) &&
            forall b :: 0 <= b < |p.blocks| ==>
              p'.blocks[b] == if b == c && IsRecordOf(p.blocks[b].record, peer)
                              then p.blocks[b].(record := None) else p.blocks[b]
  {
    var marked, marked' := MarkBlock(s.pieces[i], c).blocks, MarkBlock(SettleRecord(s, peer, i, c).pieces[i], c).blocks;
    assert forall k :: 0 <= k < |marked| ==> marked'[k].downloaded == marked[k].downloaded;
  }

  /** Block (i, b) is left alone by a piece message for another piece. */
  lemma OtherPieceStep(hash: Hash, s: State, e: Event, i: nat, b: nat)
    requires Enabled(s, e) && InPieces(s, i, b)
    requires IsPieceMessage(e) && e.m.message.index != i
    ensures InPieces(Step(hash, s, e), i, b) && BlockAt(Step(hash, s, e), i, b) == BlockAt(s, i, b)
  {
    ReceivePieceParts(hash, s, e.peer, e.m.message.index, e.m.message.offset, e.m.message.data);
  }

  /** A schedule leaves alone every block that has a record or is downloaded. */
  lemma IssueStep(s: State, reqs: seq<BlockRequest>, now: nat, i: nat, b: nat)
    requires IsSchedule(s, reqs) && RequestsInRange(s, reqs) && InPieces(s, i, b)
    requires BlockAt(s, i, b).record.Some? || BlockAt(s, i, b).downloaded
    ensures var s' := IssueRequests(s, reqs, now); InPieces(s', i, b) && BlockAt(s', i, b) == BlockAt(s, i, b)
  {
    RecordedAt(s, reqs, now, |reqs|, i, b);
    assert !RequestedBy(reqs, |reqs|, i, b);
  }

  /** A record stays until it expires, or its own peer delivers. */
  lemma RecordStep(hash: Hash, s: State, e: Event, i: nat, b: nat, record: BlockRequestRecord)
    requires Enabled(s, e) && InPieces(s, i, b) && BlockAt(s, i, b).record == Some(record)
    ensures var s' := Step(hash, s, e);
            InPieces(s', i, b) &&
            (BlockAt(s', i, b).record == Some(record) ||
             (e.Expire? && e.now - record.time > REQUEST_EXPIRATION) ||
             (DeliveredBy(e, record.peerId, i, b) && (BlockAt(s', i, b).downloaded || HashFails(hash, s, e, i))))
  {
    if IsPieceMessage(e) {
      if e.m.message.index == i {
        NamedPieceStep(hash, s, e, i, b);
      } else {
        OtherPieceStep(hash, s, e, i, b);
      }
    } else if e.Issue? {
      IssueStep(s, e.reqs, e.now, i, b);
    }
  }

  /** A downloaded block stays downloaded until its piece fails its hash check. */
  lemma DownloadedStep(hash: Hash, s: State, e: Event, i: nat, b: nat)
    requires Enabled(s, e) && InPieces(s, i, b) && BlockAt(s, i, b).downloaded
    ensures var s' := Step(hash, s, e);
            InPieces(s', i, b) && (BlockAt(s', i, b).downloaded || HashFails(hash, s, e, i))
  {
    if IsPieceMessage(e) {
      if e.m.message.index == i {
        NamedPieceStep(hash, s, e, i, b);
      } else {
        OtherPieceStep(hash, s, e, i, b);
      }
    } else if e.Issue? {
      IssueStep(s, e.reqs, e.now, i, b);
    }
  }

  /** Blocks never disappear. */
  lemma ShapeStep(hash: Hash, s: State, e: Event, i: nat, b: nat)
    requires Sound(s) && Enabled(s, e) && InPieces(s, i, b)
    ensures Sound(Step(hash, s, e)) && InPieces(Step(hash, s, e), i, b)
  {
    StepSound(hash, s, e);
    StepKeepsLayout(hash, s, e);
  }

  // ---------- what happened to a request ----------

  ghost predicate HasExpired(events: seq<Event>, from: nat, n: nat, time: nat) {
    exists m :: from < m < n && m < |events| && events[m].Expire? && events[m].now - time > REQUEST_EXPIRATION
  }

  ghost predicate WasDelivered(events: seq<Event>, from: nat, n: nat, peer: nat, i: nat, b: nat) {
    exists d :: from < d < n && d < |events| && DeliveredBy(events[d], peer, i, b)
  }

  /** The peer delivered, and then or later the piece failed its hash check. */
  ghost predicate DeliveredInVain(hash: Hash, states: seq<State>, events: seq<Event>, from: nat, n: nat,
                                  peer: nat, i: nat, b: nat) {
    exists d, f :: from < d <= f < n && f < |events| && f < |states| &&
                   DeliveredBy(events[d], peer, i, b) && HashFails(hash, states[f], events[f], i)
  }

  /** What became, before moment `n`, of the request with `record` issued by event `from`:
      it is still recorded, it has expired, its block has been delivered, or was in vain. */
  ghost predicate Fate(hash: Hash, states: seq<State>, events: seq<Event>, from: nat, n: nat,
                       record: BlockRequestRecord, i: nat, b: nat)
  {
    n < |states| && Sound(states[n]) && InPieces(states[n], i, b) &&
    (BlockAt(states[n], i, b).record == Some(record) ||
     HasExpired(events, from, n, record.time) ||
     (WasDelivered(events, from, n, record.peerId, i, b) && BlockAt(states[n], i, b).downloaded) ||
     DeliveredInVain(hash, states, events, from, n, record.peerId, i, b))
  }

  lemma FateStep(hash: Hash, states: seq<State>, events: seq<Event>, from: nat, n: nat,
                 record: BlockRequestRecord, i: nat, b: nat)
    requires Trace(hash, states, events) && from < n < |events|
    requires Fate(hash, states, events, from, n, record, i, b)
    ensures Fate(hash, states, events, from, n + 1, record, i, b)
  {
    var s, e := states[n], events[n];
    assert Enabled(s, e) && states[n + 1] == Step(hash, s, e);
    ShapeStep(hash, s, e, i, b);
    if HasExpired(events, from, n, record.time) {
      assert HasExpired(events, from, n + 1, record.time);
    } else if DeliveredInVain(hash, states, events, from, n, record.peerId, i, b) {
      assert DeliveredInVain(hash, states, events, from, n + 1, record.peerId, i, b);
    } else if BlockAt(s, i, b).record == Some(record) {
      RecordStep(hash, s, e, i, b, record);
    } else {
      DownloadedStep(hash, s, e, i, b);
    }
  }

  /** Right after a request is issued its block carries its record. */
  lemma FateStarts(hash: Hash, states: seq<State>, events: seq<Event>, from: nat, k: nat)
    requires Trace(hash, states, events) && from < |events| && events[from].Issue? && k < |events[from].reqs|
    requires Sound(states[from])
    ensures var r := events[from].reqs[k];
            Fate(hash, states, events, from, from + 1, BlockRequestRecord(r.peerId, events[from].now),
                 r.pieceId, r.blockId)
  {
    var s, e, r := states[from], events[from], events[from].reqs[k];
    assert Enabled(s, e) && states[from + 1] == Step(hash, s, e);
    assert InPieces(s, r.pieceId, r.blockId);
    hide Trace;
    ShapeStep(hash, s, e, r.pieceId, r.blockId);
    hide Sound, Step;
    RequestRecorded(s, e.reqs, e.now, k);
  }

  lemma RequestRecorded(s: State, reqs: seq<BlockRequest>, now: nat, k: nat)
    requires IsSchedule(s, reqs) && RequestsInRange(s, reqs) && k < |reqs|
    ensures Recorded(s, reqs, now, |reqs|)[reqs[k].pieceId].blocks[reqs[k].blockId].record ==
            Some(BlockRequestRecord(reqs[k].peerId, now))
  {
    var r := reqs[k];
    RecordedAt(s, reqs, now, |reqs|, r.pieceId, r.blockId);
    assert RequestedBy(reqs, |reqs|, r.pieceId, r.blockId);
    hide Recorded;
    var k' :| 0 <= k' < |reqs| && reqs[k'].pieceId == r.pieceId && reqs[k'].blockId == r.blockId &&
      Recorded(s, reqs, now, |reqs|)[r.pieceId].blocks[r.blockId].record ==
        Some(BlockRequestRecord(reqs[k'].peerId, now));
    assert Ordered(reqs);
    assert k' == k;
  }

  lemma {:induction false} FateOf(hash: Hash, states: seq<State>, events: seq<Event>, from: nat, n: nat, k: nat)
    requires Trace(hash, states, events) && from < n <= |events| && events[from].Issue? && k < |events[from].reqs|
    requires Sound(states[from])
    ensures var r := events[from].reqs[k];
            Fate(hash, states, events, from, n, BlockRequestRecord(r.peerId, events[from].now), r.pieceId, r.blockId)
  {
    hide Fate, Trace, Sound;
    if n == from + 1 {
      FateStarts(hash, states, events, from, k);
    } else {
      FateOf(hash, states, events, from, n - 1, k);
      var r := events[from].reqs[k];
      FateStep(hash, states, events, from, n - 1, BlockRequestRecord(r.peerId, events[from].now), r.pieceId, r.blockId);
    }
  }

  predicate ReadsClock(e: Event) { e.Issue? || e.Expire? }

  /** The clock that scheduling and expiry read never goes backwards. */
  predicate ClockMonotone(events: seq<Event>) {
    forall m, n :: 0 <= m < n < |events| && ReadsClock(events[m]) && ReadsClock(events[n]) ==>
      events[m].now <= events[n].now
  }

  /** Event `m` asks `peer` for block (i, b) at time `time`. */
  ghost predicate AsksFor(events: seq<Event>, m: nat, peer: nat, i: nat, b: nat, time: nat) {
    m < |events| && events[m].Issue? && events[m].now == time && BlockRequest(peer, i, b) in events[m].reqs
  }

  /** Between two requests for the same block either more than 30 seconds pass, or the
      peer first asked delivers it and its piece then fails the hash check. */
  lemma NoEarlyRerequest(hash: Hash, states: seq<State>, events: seq<Event>, m: nat, n: nat,
                         peer: nat, peer': nat, i: nat, b: nat, time: nat, time': nat)
    requires Trace(hash, states, events) && Sound(states[0]) && ClockMonotone(events)
    requires m < n && AsksFor(events, m, peer, i, b, time) && AsksFor(events, n, peer', i, b, time')
    ensures time' - time > REQUEST_EXPIRATION || DeliveredInVain(hash, states, events, m, n, peer, i, b)
  {
    AlwaysSound(hash, states, events, m);
    var k :| 0 <= k < |events[m].reqs| && events[m].reqs[k] == BlockRequest(peer, i, b);
    FateOf(hash, states, events, m, n, k);
    StillACandidate(hash, states, events, n, peer', i, b, time');
    if HasExpired(events, m, n, time) {
      var x :| m < x < n && events[x].Expire? && events[x].now - time > REQUEST_EXPIRATION;
      assert events[x].now <= events[n].now;
    }
  }

  /** When a block is asked for it is missing and unrecorded. */
  lemma StillACandidate(hash: Hash, states: seq<State>, events: seq<Event>, n: nat,
                        peer: nat, i: nat, b: nat, time: nat)
    requires Trace(hash, states, events) && AsksFor(events, n, peer, i, b, time)
    ensures Candidate(states[n].pieces, i, b)
  {
    assert Enabled(states[n], events[n]);
    var l :| 0 <= l < |events[n].reqs| && events[n].reqs[l] == BlockRequest(peer, i, b);
  }

  lemma {:induction false} AlwaysSound(hash: Hash, states: seq<State>, events: seq<Event>, n: nat)
    requires Trace(hash, states, events) && n < |states| && Sound(states[0])
    ensures Sound(states[n])
  {
    if n != 0 {
      AlwaysSound(hash, states, events, n - 1);
      StepSound(hash, states[n - 1], events[n - 1]);
    }
  }
}
