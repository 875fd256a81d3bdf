/** The counter of outstanding requests of each peer against the request records on all
    blocks (src/decider.rs, lines 72-81; src/peer_protocol.rs, lines 356-364;
    src/main_loop.rs, lines 239-242 and 300-331; src/download.rs, lines 640-652). */
module Accounting {
  import opened Config
  import opened Wrappers
  import opened Storage
  import opened Codec
  import opened TorrentState
  import opened Geometry
  import opened Soundness
  import opened Decider
  import opened Runs

  /** No counter exceeds the number of records naming its peer, nor the cap. */
  ghost predicate Bounded(s: State) {
    Sound(s) &&
    forall p :: 0 <= p < |s.peers| ==>
      s.peers[p].outstanding <= RecordsOf(s, p) && s.peers[p].outstanding <= MAX_OUTSTANDING_REQUESTS_PER_PEER
  }

  /** Every counter is the number of records naming its peer. */
  ghost predicate Exact(s: State) {
    Bounded(s) && forall p :: 0 <= p < |s.peers| ==> s.peers[p].outstanding == RecordsOf(s, p)
  }

  /** The connection of a peer is dropped or replaced while records name that peer. */
  predicate LosesRequests(s: State, e: Event) {
    match e
    case Break(peer) => peer < |s.peers| && RecordsOf(s, peer) > 0
    case Open(peer, _) => peer < |s.peers| && RecordsOf(s, peer) > 0
    case _ => false
  }

  // ---------- how each step changes the number of records ----------

  /** A greedy schedule never overwrites a record. */
  lemma StillUnrecorded(s: State, reqs: seq<BlockRequest>, now: nat, n: nat)
    requires GoodRequests(s, reqs) && RequestsInRange(s, reqs) && n < |reqs|
    ensures Recorded(s, reqs, now, n)[reqs[n].pieceId].blocks[reqs[n].blockId].record.None?
  {
    RecordedAt(s, reqs, now, n, reqs[n].pieceId, reqs[n].blockId);
    assert Candidate(s.pieces, reqs[n].pieceId, reqs[n].blockId);
    assert !RequestedBy(reqs, n, reqs[n].pieceId, reqs[n].blockId);
  }

  lemma {:induction false} RecordedCount(s: State, reqs: seq<BlockRequest>, now: nat, n: nat, p: nat)
    requires GoodRequests(s, reqs) && RequestsInRange(s, reqs) && n <= |reqs|
    ensures Count(Recorded(s, reqs, now, n), Naming(p), |s.pieces|) == RecordsOf(s, p) + RequestsTo(reqs, p, n)
  {
    hide GoodRequests, Count;
    if n != 0 {
      RecordedCount(s, reqs, now, n - 1, p);
      StillUnrecorded(s, reqs, now, n - 1);
      var before, r := Recorded(s, reqs, now, n - 1), reqs[n - 1];
      CountRecordUpdate(before, r.pieceId, r.blockId, Some(BlockRequestRecord(r.peerId, now)), Naming(p));
    }
  }

  lemma {:induction false} ExpiredBlocksCount(blocks: seq<Block>, now: nat, p: nat, n: nat)
    requires n <= |blocks|
    ensures CountBlocks(ExpireBlocks(blocks, now), Naming(p), n) ==
            CountBlocks(blocks, Naming(p), n) - CountBlocks(blocks, ExpiredNaming(p, now), n)
  {
    if n != 0 {
      ExpiredBlocksCount(blocks, now, p, n - 1);
    }
  }

  lemma {:induction false} ExpiredCount(pieces: seq<PieceState>, now: nat, p: nat, n: nat)
    requires n <= |pieces|
    ensures Count(ExpirePieces(pieces, now), Naming(p), n) ==
            Count(pieces, Naming(p), n) - Count(pieces, ExpiredNaming(p, now), n)
  {
    if n != 0 {
      ExpiredCount(pieces, now, p, n - 1);
      ExpiredBlocksCount(pieces[n - 1].blocks, now, p, |pieces[n - 1].blocks|);
    }
  }

  /** Marking, checking and resetting a piece leave its records alone. */
  lemma FinishedCount(hash: Hash, s: State, i: nat, b: nat, p: nat)
    requires i < |s.pieces| && b < |s.pieces[i].blocks|
    ensures RecordsOf(FinishBlock(hash, s, i, b), p) == RecordsOf(s, p)
  {
    var pieces' := FinishBlock(hash, s, i, b).pieces;
    forall j, c | 0 <= j < |s.pieces| && 0 <= c < |s.pieces[j].blocks|
      ensures Naming(p)(s.pieces[j].blocks[c]) == Naming(p)(pieces'[j].blocks[c])
    {
      assert pieces'[j].blocks[c].record == s.pieces[j].blocks[c].record;
    }
    CountSame(s.pieces, pieces', Naming(p), |s.pieces|);
  }

  lemma SettledCount(s: State, peer: nat, i: nat, b: nat, p: nat)
    requires peer < |s.peers| && i < |s.pieces| && b < |s.pieces[i].blocks|
    ensures RecordsOf(SettleRecord(s, peer, i, b), p) ==
            RecordsOf(s, p) - if p == peer && IsRecordOf(BlockAt(s, i, b).record, peer) then 1 else 0
  {
    CountRecordUpdate(s.pieces, i, b, None, Naming(p));
  }

  lemma {:induction false} NobodyNamed(s: State, p: nat, n: nat)
    requires Sound(s) && |s.peers| <= p && n <= |s.pieces|
    ensures Count(s.pieces, Naming(p), n) == 0
  {
    if n != 0 {
      NobodyNamed(s, p, n - 1);
      NobodyNamedIn(s, p, n - 1, |s.pieces[n - 1].blocks|);
    }
  }

  lemma {:induction false} NobodyNamedIn(s: State, p: nat, i: nat, n: nat)
    requires Sound(s) && |s.peers| <= p && i < |s.pieces| && n <= |s.pieces[i].blocks|
    ensures CountBlocks(s.pieces[i].blocks, Naming(p), n) == 0
  {
    if n != 0 {
      NobodyNamedIn(s, p, i, n - 1);
      assert BlockAt(s, i, n - 1) == s.pieces[i].blocks[n - 1];
    }
  }

  // ---------- the counter and the count move together ----------

  /** The records naming peer `p` are as many more than its counter says. */
  function Surplus(s: State, p: nat): int
    requires p < |s.peers|
  {
    RecordsOf(s, p) - s.peers[p].outstanding
  }

  /** The surplus after an event: reset to all records by a lost connection, lowered by a
      settled record that the counter no longer covers, otherwise unchanged. */
  ghost function SurplusAfter(s: State, e: Event, p: nat): int
    requires Enabled(s, e) && p < |s.peers|
  {
    match e
    case Break(peer) => if p == peer then RecordsOf(s, p) else Surplus(s, p)
    case Open(peer, _) => if p == peer then RecordsOf(s, p) else Surplus(s, p)
    case Deliver(peer, Known(Piece(i, begin, _))) =>
      if p == peer && IsRecordOf(BlockAt(s, i, begin / BLOCK_SIZE).record, peer) && s.peers[p].outstanding <= 0
      then Surplus(s, p) - 1 else Surplus(s, p)
    case _ => Surplus(s, p)
  }

  lemma StepSurplus(hash: Hash, s: State, e: Event, p: nat)
    requires Sound(s) && Enabled(s, e) && p < |s.peers|
    ensures p < |Step(hash, s, e).peers| && Surplus(Step(hash, s, e), p) == SurplusAfter(s, e, p)
  {
    hide Sound, IsSchedule, Count, FinishBlock, SettleRecord, ReceivePiece, Recorded, ExpirePieces;
    match e {
      case Deliver(peer, Known(Piece(i, begin, data))) => DeliverySurplus(hash, s, peer, i, begin, data, p);
      case Issue(now, reqs) =>
        ScheduleIsGood(s, reqs);
        RecordedCount(s, reqs, now, |reqs|, p);
      case Expire(now) => ExpiredCount(s.pieces, now, p, |s.pieces|);
      case _ =>
    }
  }

  lemma ScheduleIsGood(s: State, reqs: seq<BlockRequest>)
    requires IsSchedule(s, reqs)
    ensures GoodRequests(s, reqs)
  {
  }

  lemma DeliverySurplus(hash: Hash, s: State, peer: nat, i: nat, begin: nat, data: seq<IoPrimitives.byte>, p: nat)
    requires peer < |s.peers| && PieceInRange(s, i, begin, data) && p < |s.peers|
    ensures var s' := ReceivePiece(hash, s, peer, i, begin, data);
            var settled := p == peer && IsRecordOf(BlockAt(s, i, begin / BLOCK_SIZE).record, peer);
            |s'.peers| == |s.peers| &&
            RecordsOf(s', p) == RecordsOf(s, p) - (if settled then 1 else 0) &&
            s'.peers[p].outstanding == s.peers[p].outstanding - if settled && s.peers[p].outstanding > 0 then 1 else 0
  {
    var b := begin / BLOCK_SIZE;
    var written := s.(content := Splice(s.content, i * s.pieceLength + begin, data));
    SettledCount(written, peer, i, b, p);
    FinishedCount(hash, SettleRecord(written, peer, i, b), i, b, p);
  }

  // ---------- conservation ----------

  lemma StepKeepsBounded(hash: Hash, s: State, e: Event)
    requires Bounded(s) && Enabled(s, e)
    ensures Bounded(Step(hash, s, e))
  {
    var s' := Step(hash, s, e);
    StepSound(hash, s, e);
    hide Step, Enabled, SurplusAfter, Sound, RecordsOf;
    forall p | 0 <= p < |s'.peers|
      ensures s'.peers[p].outstanding <= RecordsOf(s', p)
      ensures s'.peers[p].outstanding <= MAX_OUTSTANDING_REQUESTS_PER_PEER
    {
      if p < |s.peers| {
        StepSurplus(hash, s, e, p);
        DeliveredWithinSurplus(s, e, p);
        CapKept(hash, s, e, p);
      } else {
        NewPeerUnnamed(hash, s, e, p);
      }
    }
  }

  /** A settled record was counted, so the surplus does not become negative. */
  lemma DeliveredWithinSurplus(s: State, e: Event, p: nat)
    requires Bounded(s) && Enabled(s, e) && p < |s.peers|
    ensures 0 <= SurplusAfter(s, e, p)
  {
    match e {
      case Deliver(peer, Known(Piece(i, begin, data))) =>
        var b := begin / BLOCK_SIZE;
        if p == peer && IsRecordOf(BlockAt(s, i, b).record, peer) {
          SettledCount(s, peer, i, b, p);
        }
      case _ =>
    }
  }

  lemma CapKept(hash: Hash, s: State, e: Event, p: nat)
    requires Bounded(s) && Enabled(s, e) && p < |s.peers|
    ensures Step(hash, s, e).peers[p].outstanding <= MAX_OUTSTANDING_REQUESTS_PER_PEER
  {
    match e {
      case Deliver(peer, Known(Piece(i, begin, data))) => DeliverySurplus(hash, s, peer, i, begin, data, p);
      case Issue(now, reqs) => ReservedWithinCap(s, reqs, p, |reqs|);
      case _ =>
    }
  }

  lemma {:induction false} ReservedWithinCap(s: State, reqs: seq<BlockRequest>, p: nat, n: nat)
    requires GoodRequests(s, reqs) && n <= |reqs| && p < |s.peers|
    requires s.peers[p].outstanding <= MAX_OUTSTANDING_REQUESTS_PER_PEER
    ensures s.peers[p].outstanding + RequestsTo(reqs, p, n) <= MAX_OUTSTANDING_REQUESTS_PER_PEER
  {
    if n != 0 {
      ReservedWithinCap(s, reqs, p, n - 1);
      assert LowestEligible(s.peers, reqs[n - 1].peerId, reqs[n - 1].pieceId, reqs, n - 1);
    }
  }

  /** The exact match survives a step if and only if the step does not drop or replace a
      connection that records still name. */
  lemma ExactKeptIff(hash: Hash, s: State, e: Event)
    requires Exact(s) && Enabled(s, e)
    ensures Exact(Step(hash, s, e)) <==> !LosesRequests(s, e)
  {
    var s' := Step(hash, s, e);
    StepKeepsBounded(hash, s, e);
    forall p | 0 <= p < |s.peers| ensures p < |s'.peers| && Surplus(s', p) == SurplusAfter(s, e, p) {
      StepSurplus(hash, s, e, p);
    }
    if LosesRequests(s, e) {
      assert Surplus(s', e.peer) == RecordsOf(s, e.peer) > 0;
    } else {
      forall p | 0 <= p < |s.peers| ensures SurplusAfter(s, e, p) == 0 {
        DeliveredWithinSurplus(s, e, p);
      }
      hide Step, Enabled, SurplusAfter, RecordsOf;
      forall p | 0 <= p < |s'.peers| ensures s'.peers[p].outstanding == RecordsOf(s', p) {
        if p < |s.peers| {
          assert Surplus(s', p) == 0;
        } else {
          NewPeerUnnamed(hash, s, e, p);
        }
      }
    }
  }

  lemma NewPeerUnnamed(hash: Hash, s: State, e: Event, p: nat)
    requires Sound(s) && Enabled(s, e) && |s.peers| <= p < |Step(hash, s, e).peers|
    ensures Step(hash, s, e).peers[p].outstanding == 0 == RecordsOf(Step(hash, s, e), p)
  {
    NobodyNamed(s, p, |s.pieces|);
  }

  lemma InitiallyExact(s: State)
    requires Sound(s) && s.peers == []
    ensures Exact(s)
  {
  }

  /** On every run the counters stay below the records and the cap. */
  lemma {:induction false} AlwaysBounded(hash: Hash, states: seq<State>, events: seq<Event>, n: nat)
    requires Trace(hash, states, events) && n < |states| && Bounded(states[0])
    ensures Bounded(states[n])
  {
    if n != 0 {
      AlwaysBounded(hash, states, events, n - 1);
      StepKeepsBounded(hash, states[n - 1], events[n - 1]);
    }
  }

  /** On runs that lose no requests the counters are exact, and lie between 0 and 10. */
  lemma {:induction false} AlwaysExact(hash: Hash, states: seq<State>, events: seq<Event>, n: nat)
    requires Trace(hash, states, events) && n < |states| && Exact(states[0])
    requires forall k :: 0 <= k < n ==> !LosesRequests(states[k], events[k])
    ensures Exact(states[n])
    ensures forall p :: 0 <= p < |states[n].peers| ==>
              0 <= states[n].peers[p].outstanding == RecordsOf(states[n], p) <= MAX_OUTSTANDING_REQUESTS_PER_PEER
  {
    if n != 0 {
      AlwaysExact(hash, states, events, n - 1);
      ExactKeptIff(hash, states[n - 1], events[n - 1]);
    }
  }

  /** A counter becomes negative exactly when more of its peer's records expire than it counts,
      which takes records that a lost connection left behind. */
  lemma NegativeIff(hash: Hash, s: State, e: Event, p: nat)
    requires Bounded(s) && Enabled(s, e) && p < |s.peers| && 0 <= s.peers[p].outstanding
    ensures Step(hash, s, e).peers[p].outstanding < 0 <==>
            e.Expire? && Count(s.pieces, ExpiredNaming(p, e.now), |s.pieces|) > s.peers[p].outstanding
    ensures Step(hash, s, e).peers[p].outstanding < 0 ==> 0 < Surplus(s, p)
  {
    hide IsSchedule, Count, FinishBlock, ReceivePiece, Recorded, ExpirePieces;
    match e {
      case Deliver(peer, Known(Piece(i, begin, data))) => DeliverySurplus(hash, s, peer, i, begin, data, p);
      case Expire(now) => ExpiredCount(s.pieces, now, p, |s.pieces|);
      case _ =>
    }
  }

  /** Expiry drops exactly the records more than 30 seconds old, changes nothing else about a block,
      and lowers each counter by the number of its peer's records that are gone. */
  lemma ExpiryExactly(s: State, now: nat, i: nat, b: nat, p: nat)
    requires i < |s.pieces| && b < |s.pieces[i].blocks| && p < |s.peers|
    ensures var s' := RemoveExpired(s, now);
            i < |s'.pieces| && b < |s'.pieces[i].blocks| && |s'.peers| == |s.peers| &&
            var x, x' := s.pieces[i].blocks[b], s'.pieces[i].blocks[b];
            x'.record == (if x.record.Some? && x.record.value.time + 30 * SECOND < now then None else x.record) &&
            x'.downloaded == x.downloaded && x'.offset == x.offset && x'.len == x.len &&
            s'.peers[p] ==
              s.peers[p].(outstanding := s.peers[p].outstanding - (RecordsOf(s, p) - RecordsOf(s', p)))
  {
    ExpiredCount(s.pieces, now, p, |s.pieces|);
  }

  // ---------- when a counter can become negative ----------

  /** A moment at which all records of the first pieces have expired. */
  lemma {:induction false} LateEnough(s: State, n: nat) returns (now: nat)
    requires n <= |s.pieces|
    ensures forall i, b :: 0 <= i < n && 0 <= b < |s.pieces[i].blocks| && BlockAt(s, i, b).record.Some? ==>
              BlockAt(s, i, b).record.value.time + REQUEST_EXPIRATION < now
  {
    now := 0;
    if n != 0 {
      var before := LateEnough(s, n - 1);
      var here := LateEnoughIn(s.pieces[n - 1].blocks, |s.pieces[n - 1].blocks|);
      now := before + here;
    }
  }

  lemma {:induction false} LateEnoughIn(blocks: seq<Block>, n: nat) returns (now: nat)
    requires n <= |blocks|
    ensures forall b :: 0 <= b < n && blocks[b].record.Some? ==> blocks[b].record.value.time + REQUEST_EXPIRATION < now
  {
    now := 0;
    if n != 0 {
      var before := LateEnoughIn(blocks, n - 1);
      var record := blocks[n - 1].record;
      now := before + if record.Some? then record.value.time + REQUEST_EXPIRATION + 1 else 0;
    }
  }

  predicate NoRecords(s: State) {
    forall i, b :: 0 <= i < |s.pieces| && 0 <= b < |s.pieces[i].blocks| ==> BlockAt(s, i, b).record.None?
  }

  lemma {:induction false} NoRecordsIn(blocks: seq<Block>, p: nat, n: nat)
    requires n <= |blocks| && forall b :: 0 <= b < n ==> blocks[b].record.None?
    ensures CountBlocks(blocks, Naming(p), n) == 0
  {
    if n != 0 {
      NoRecordsIn(blocks, p, n - 1);
    }
  }

  lemma {:induction false} NoRecordsOf(s: State, p: nat, n: nat)
    requires NoRecords(s) && n <= |s.pieces|
    ensures Count(s.pieces, Naming(p), n) == 0
  {
    if n != 0 {
      NoRecordsOf(s, p, n - 1);
      var blocks := s.pieces[n - 1].blocks;
      forall b | 0 <= b < |blocks| ensures blocks[b].record.None? {
        assert BlockAt(s, n - 1, b).record.None?;
      }
      NoRecordsIn(blocks, p, |blocks|);
    }
  }

  predicate AllExpired(s: State, now: nat) {
    forall i, b :: 0 <= i < |s.pieces| && 0 <= b < |s.pieces[i].blocks| && BlockAt(s, i, b).record.Some? ==>
      BlockAt(s, i, b).record.value.time + REQUEST_EXPIRATION < now
  }

  lemma LateEnoughForAll(s: State, clock: nat) returns (now: nat)
    ensures AllExpired(s, now) && clock <= now
  {
    now := LateEnough(s, |s.pieces|);
    now := now + clock;
  }

  lemma AllExpiredNoRecords(s: State, now: nat)
    requires AllExpired(s, now)
    ensures NoRecords(RemoveExpired(s, now)) && RecordsBefore(s, now)
  {
    var s' := RemoveExpired(s, now);
    forall i, b | 0 <= i < |s'.pieces| && 0 <= b < |s'.pieces[i].blocks| ensures BlockAt(s', i, b).record.None? {
      assert BlockAt(s', i, b) == ExpireBlock(BlockAt(s, i, b), now);
    }
  }

  /** Some moment of expiry takes the peer's counter below zero. */
  ghost predicate CanGoNegative(s: State, p: nat)
    requires p < |s.peers|
  {
    exists now :: RecordsBefore(s, now) && RemoveExpired(s, now).peers[p].outstanding < 0
  }

  /** That is so exactly when the peer has records its counter does not cover. */
  lemma CanGoNegativeIff(s: State, p: nat)
    requires Bounded(s) && p < |s.peers|
    ensures CanGoNegative(s, p) <==> 0 < Surplus(s, p)
  {
    if CanGoNegative(s, p) {
      var now :| RecordsBefore(s, now) && RemoveExpired(s, now).peers[p].outstanding < 0;
      ExpiredCount(s.pieces, now, p, |s.pieces|);
    }
    if 0 < Surplus(s, p) {
      var now := LateEnoughForAll(s, 0);
      AllExpiredNoRecords(s, now);
      var s' := RemoveExpired(s, now);
      NoRecordsOf(s', p, |s'.pieces|);
      ExpiredCount(s.pieces, now, p, |s.pieces|);
      assert RecordsBefore(s, now) && s'.peers[p].outstanding < 0;
    }
  }

  /** After a lost connection the old records still expire against the cleared counter, which is
      then below zero by as many records as are gone. */
  lemma LostConnectionGoesNegative(hash: Hash, s: State, peer: nat, now: nat)
    requires Sound(s) && peer < |s.peers| && RecordsBefore(s, now)
    ensures var s' := RemoveExpired(BreakConnection(s, peer), now);
            s'.peers[peer].outstanding == RecordsOf(s', peer) as int - RecordsOf(s, peer)
  {
    ExpiredCount(s.pieces, now, peer, |s.pieces|);
  }

  // ---------- more records than the cap ----------

  /** The cap is checked on the counter, not on the records: a step takes a peer's records
      past the cap if and only if it is a schedule that asks it for more than the records
      leave room for. */
  lemma RecordsCappedIff(hash: Hash, s: State, e: Event, p: nat)
    requires Sound(s) && Enabled(s, e) && p < |s.peers| && RecordsOf(s, p) <= MAX_OUTSTANDING_REQUESTS_PER_PEER
    ensures RecordsOf(Step(hash, s, e), p) <= MAX_OUTSTANDING_REQUESTS_PER_PEER <==>
            !(e.Issue? && RecordsOf(s, p) + RequestsTo(e.reqs, p, |e.reqs|) > MAX_OUTSTANDING_REQUESTS_PER_PEER)
  {
    hide Sound, IsSchedule, Count, FinishBlock, SettleRecord, ReceivePiece, Recorded, ExpirePieces;
    match e {
      case Deliver(peer, Known(Piece(i, begin, data))) => DeliverySurplus(hash, s, peer, i, begin, data, p);
      case Issue(now, reqs) =>
        ScheduleIsGood(s, reqs);
        RecordedCount(s, reqs, now, |reqs|, p);
      case Expire(now) => ExpiredCount(s.pieces, now, p, |s.pieces|);
      case _ =>
    }
  }

  /** It never does while the counter is exact. */
  lemma ExactKeepsRecordsCapped(hash: Hash, s: State, e: Event, p: nat)
    requires Bounded(s) && Enabled(s, e) && p < |s.peers| && Surplus(s, p) == 0
    ensures RecordsOf(s, p) <= MAX_OUTSTANDING_REQUESTS_PER_PEER
    ensures RecordsOf(Step(hash, s, e), p) <= MAX_OUTSTANDING_REQUESTS_PER_PEER
  {
    RecordsCappedIff(hash, s, e, p);
    if e.Issue? {
      ReservedWithinCap(s, e.reqs, p, |e.reqs|);
    }
  }

  /** Whatever the state: with this counter and this many records of a peer, no greedy schedule
      takes the records past the cap. */
  ghost predicate CapSafe(counter: int, records: nat) {
    forall s: State, reqs: seq<BlockRequest>, p: nat, now: nat ::
      Bounded(s) && p < |s.peers| && s.peers[p].outstanding == counter && RecordsOf(s, p) == records &&
      IsSchedule(s, reqs) && RequestsInRange(s, reqs) ==>
        RecordsOf(IssueRequests(s, reqs, now), p) <= MAX_OUTSTANDING_REQUESTS_PER_PEER
  }

  /** The records stay within the cap exactly when the counter covers them: the counter alone is
      no protection. */
  lemma CapSafeIff(counter: int, records: nat)
    requires records <= MAX_OUTSTANDING_REQUESTS_PER_PEER
    ensures CapSafe(counter, records) <==> records <= counter
  {
    if records <= counter {
      forall s: State, reqs: seq<BlockRequest>, p: nat, now: nat |
        Bounded(s) && p < |s.peers| && s.peers[p].outstanding == counter && RecordsOf(s, p) == records &&
        IsSchedule(s, reqs) && RequestsInRange(s, reqs)
        ensures RecordsOf(IssueRequests(s, reqs, now), p) <= MAX_OUTSTANDING_REQUESTS_PER_PEER
      {
        RecordedCount(s, reqs, now, |reqs|, p);
        ReservedWithinCap(s, reqs, p, |reqs|);
      }
    } else {
      var s := Uncovered(counter, records);
      var n := 11 - records;
      BatchIsSchedule(s, records, n, 11, counter);
      hide IsSchedule, Bounded, LeftFrom, Count;
      ScheduleIsGood(s, Batch(records, n));
      RecordedCount(s, Batch(records, n), 0, n, 0);
      AllToPeerZero(records, n, n);
      assert RecordsOf(IssueRequests(s, Batch(records, n), 0), 0) == 11;
    }
  }

  /** A download of eleven blocks, as many of them recorded for its only peer as the counter fails
      to cover. */
  lemma Uncovered(counter: int, records: nat) returns (s: State)
    requires counter < records <= MAX_OUTSTANDING_REQUESTS_PER_PEER
    ensures Bounded(s) && LeftFrom(s.pieces, records, 11) && OnePeer(s.peers, counter) && RecordsOf(s, 0) == records
  {
    var total := 11 * BLOCK_SIZE;
    var blocks := seq(11, b requires 0 <= b < 11 =>
      Block(false, b * BLOCK_SIZE, BLOCK_SIZE, if b < records then Some(BlockRequestRecord(0, 0)) else None));
    var peer := PeerState(Some(IoPrimitives.Stream([], false)), [], 0, true, false, false, counter, [true]);
    s := State(Zeros(total), total, [PieceState(false, [], blocks, 0, total)], [peer], [], [], false);
    assert PieceShaped(total, total, 1, 0, s.pieces[0]);
    RecordedUpTo(blocks, records, 11);
    assert Count(s.pieces, Naming(0), 0) == 0;
    assert RecordsOf(s, 0) == CountBlocks(blocks, Naming(0), 11);
  }

  lemma {:induction false} RecordedUpTo(blocks: seq<Block>, records: nat, n: nat)
    requires n <= |blocks|
    requires forall b :: 0 <= b < |blocks| ==> (IsRecordOf(blocks[b].record, 0) <==> b < records)
    ensures CountBlocks(blocks, Naming(0), n) == Min(n, records)
  {
    if n != 0 {
      RecordedUpTo(blocks, records, n - 1);
    }
  }

  /** Requests to peer 0 for `n` blocks of piece 0 in a row. */
  function Batch(from: nat, n: nat): (r: seq<BlockRequest>)
    ensures |r| == n && forall k :: 0 <= k < n ==> r[k] == BlockRequest(0, 0, from + k)
  {
    seq(n, k requires 0 <= k => BlockRequest(0, 0, from + k))
  }

  function Ten(from: nat): (r: seq<BlockRequest>)
    ensures |r| == 10 && forall k :: 0 <= k < 10 ==> r[k] == BlockRequest(0, 0, from + k)
  {
    Batch(from, 10)
  }

  lemma {:induction false} AllToPeerZero(from: nat, n: nat, k: nat)
    requires k <= n
    ensures RequestsTo(Batch(from, n), 0, k) == k
  {
    if k != 0 {
      AllToPeerZero(from, n, k - 1);
    }
  }

  /** One piece, of which all blocks from block `from` on can be asked for. */
  predicate LeftFrom(pieces: seq<PieceState>, from: nat, total: nat) {
    |pieces| == 1 && !pieces[0].downloaded && |pieces[0].blocks| == total &&
    forall b :: 0 <= b < total ==> (Candidate(pieces, 0, b) <==> from <= b)
  }

  /** A single connected peer that has the piece, with this counter. */
  predicate OnePeer(peers: seq<PeerState>, counter: int) {
    |peers| == 1 && peers[0].stream.Some? && !peers[0].weChoked && |peers[0].hasPiece| > 0 && peers[0].hasPiece[0] &&
    peers[0].outstanding == counter
  }

  /** A single connected peer that has the piece and was asked for nothing. */
  predicate OneIdlePeer(peers: seq<PeerState>) { OnePeer(peers, 0) }

  /** The first `n` of the blocks left are a greedy schedule if the peer can take them all and
      either no block is left then or the peer is full. */
  lemma BatchIsSchedule(s: State, from: nat, n: nat, total: nat, counter: int)
    requires LeftFrom(s.pieces, from, total) && OnePeer(s.peers, counter) && from + n <= total
    requires n <= MAX_REQUESTS_PER_TICK_PER_DOWNLOAD && counter + n <= MAX_OUTSTANDING_REQUESTS_PER_PEER
    requires from + n == total || counter + n == MAX_OUTSTANDING_REQUESTS_PER_PEER
    ensures IsSchedule(s, Batch(from, n)) && RequestsInRange(s, Batch(from, n))
  {
    var reqs := Batch(from, n);
    forall k | 0 <= k < n ensures LowestEligible(s.peers, 0, 0, reqs, k) {
      AllToPeerZero(from, n, k);
    }
    forall i: nat, b: nat | Candidate(s.pieces, i, b) ensures Settled(s.peers, reqs, i, b) {
      if b < from + n {
        assert reqs[b - from].pieceId == i && reqs[b - from].blockId == b;
      } else {
        AllToPeerZero(from, n, n);
        assert Skipped(s.peers, reqs, i, b, n);
      }
    }
  }

  /** After ten requests, and then a lost connection, a new one and an unchoke, the next ten
      blocks can be asked for. */
  lemma TenMore(s: State, from: nat, total: nat, now: nat)
    requires LeftFrom(s.pieces, from, total) && OneIdlePeer(s.peers) && from + 10 <= total
    requires GoodRequests(s, Ten(from)) && RequestsInRange(s, Ten(from))
    ensures var s' := IssueRequests(s, Ten(from), now);
            RecordsOf(s', 0) == RecordsOf(s, 0) + 10 && LeftFrom(s'.pieces, from + 10, total) &&
            |s'.peers| == 1 && s'.peers[0].hasPiece == s.peers[0].hasPiece
  {
    var reqs := Ten(from);
    var pieces := Recorded(s, reqs, now, |reqs|);
    RecordedCount(s, reqs, now, |reqs|, 0);
    AllToPeerZero(from, 10, 10);
    RecordedAt(s, reqs, now, |reqs|, 0, 0);
    hide GoodRequests, Recorded, Count, Candidate;
    forall b: nat | b < total ensures Candidate(pieces, 0, b) <==> from + 10 <= b {
      TakenByTen(s, from, total, now, b);
    }
  }

  lemma TakenByTen(s: State, from: nat, total: nat, now: nat, b: nat)
    requires LeftFrom(s.pieces, from, total) && RequestsInRange(s, Ten(from)) && b < total
    ensures Candidate(Recorded(s, Ten(from), now, 10), 0, b) <==> from + 10 <= b
  {
    var reqs := Ten(from);
    RecordedAt(s, reqs, now, |reqs|, 0, b);
    assert Candidate(s.pieces, 0, b) <==> from <= b;
    hide Recorded;
    if from <= b < from + 10 {
      assert reqs[b - from].pieceId == 0 && reqs[b - from].blockId == b;
      assert RequestedBy(reqs, |reqs|, 0, b);
    } else {
      assert !RequestedBy(reqs, |reqs|, 0, b);
    }
  }

  /** The events after which peer 0 of an idle download holds too many records: ten requests,
      a lost connection, a new one, an unchoke, ten more requests. */
  function LostAndFound(now: nat, stream: IoPrimitives.Stream): (r: seq<Event>)
    ensures |r| == 5 && r[0] == Issue(now, Ten(0)) && r[1] == Break(0) && r[2] == Open(0, stream)
    ensures r[3] == Deliver(0, Known(Unchoke)) && r[4] == Issue(now, Ten(10))
  {
    [Issue(now, Ten(0)), Break(0), Open(0, stream), Deliver(0, Known(Unchoke)), Issue(now, Ten(10))]
  }

  lemma IssueTen(hash: Hash, s: State, from: nat, total: nat, now: nat)
    requires LeftFrom(s.pieces, from, total) && OneIdlePeer(s.peers) && from + 10 <= total
    ensures var e := Issue(now, Ten(from));
            Enabled(s, e) &&
            var s' := Step(hash, s, e);
            RecordsOf(s', 0) == RecordsOf(s, 0) + 10 && LeftFrom(s'.pieces, from + 10, total) &&
            |s'.peers| == 1 && s'.peers[0].hasPiece == s.peers[0].hasPiece
  {
    BatchIsSchedule(s, from, 10, total, 0);
    ScheduleIsGood(s, Ten(from));
    TenMore(s, from, total, now);
    hide IsSchedule, IssueRequests, RequestsInRange, LeftFrom, RecordsOf;
  }

  /** The three events in the middle. */
  lemma Reconnects(hash: Hash, s: State, stream: IoPrimitives.Stream)
    requires |s.peers| == 1 && |s.peers[0].hasPiece| > 0 && s.peers[0].hasPiece[0]
    ensures Enabled(s, Break(0)) &&
            var s2 := Step(hash, s, Break(0));
            Enabled(s2, Open(0, stream)) &&
            var s3 := Step(hash, s2, Open(0, stream));
            Enabled(s3, Deliver(0, Known(Unchoke))) &&
            var s4 := Step(hash, s3, Deliver(0, Known(Unchoke)));
            s4.pieces == s.pieces && OneIdlePeer(s4.peers)
  {
  }

  lemma TwentyRecords(hash: Hash, s: State, stream: IoPrimitives.Stream, now: nat) returns (states: seq<State>)
    requires Exact(s) && LeftFrom(s.pieces, 0, 20) && OneIdlePeer(s.peers)
    ensures Trace(hash, states, LostAndFound(now, stream)) && states[0] == s && RecordsOf(states[5], 0) == 20
  {
    assert RecordsOf(s, 0) == 0 && |s.peers[0].hasPiece| > 0 && s.peers[0].hasPiece[0];
    IssueTen(hash, s, 0, 20, now);
    hide Exact, RecordsOf, LeftFrom, OneIdlePeer, Ten, Step, Enabled, LostAndFound, Trace;
    var s1 := Step(hash, s, Issue(now, Ten(0)));
    var s2, s3, s4, s5 := TenMoreRecords(hash, s1, stream, now);
    states := [s, s1, s2, s3, s4, s5];
    LostAndFoundTrace(hash, s, s1, s2, s3, s4, s5, stream, now);
  }

  lemma TenMoreRecords(hash: Hash, s1: State, stream: IoPrimitives.Stream, now: nat)
    returns (s2: State, s3: State, s4: State, s5: State)
    requires LeftFrom(s1.pieces, 10, 20) && |s1.peers| == 1
    requires |s1.peers[0].hasPiece| > 0 && s1.peers[0].hasPiece[0]
    ensures Enabled(s1, Break(0)) && s2 == Step(hash, s1, Break(0))
    ensures Enabled(s2, Open(0, stream)) && s3 == Step(hash, s2, Open(0, stream))
    ensures Enabled(s3, Deliver(0, Known(Unchoke))) && s4 == Step(hash, s3, Deliver(0, Known(Unchoke)))
    ensures Enabled(s4, Issue(now, Ten(10))) && s5 == Step(hash, s4, Issue(now, Ten(10)))
    ensures RecordsOf(s5, 0) == RecordsOf(s1, 0) + 10
  {
    Reconnects(hash, s1, stream);
    hide Count, LeftFrom, OneIdlePeer, Ten, Step, Enabled;
    s2 := Step(hash, s1, Break(0));
    s3 := Step(hash, s2, Open(0, stream));
    s4 := Step(hash, s3, Deliver(0, Known(Unchoke)));
    IssueTen(hash, s4, 10, 20, now);
    s5 := Step(hash, s4, Issue(now, Ten(10)));
  }

  lemma LostAndFoundTrace(hash: Hash, s: State, s1: State, s2: State, s3: State, s4: State, s5: State,
                          stream: IoPrimitives.Stream, now: nat)
    requires Enabled(s, Issue(now, Ten(0))) && s1 == Step(hash, s, Issue(now, Ten(0)))
    requires Enabled(s1, Break(0)) && s2 == Step(hash, s1, Break(0))
    requires Enabled(s2, Open(0, stream)) && s3 == Step(hash, s2, Open(0, stream))
    requires Enabled(s3, Deliver(0, Known(Unchoke))) && s4 == Step(hash, s3, Deliver(0, Known(Unchoke)))
    requires Enabled(s4, Issue(now, Ten(10))) && s5 == Step(hash, s4, Issue(now, Ten(10)))
    ensures Trace(hash, [s, s1, s2, s3, s4, s5], LostAndFound(now, stream))
  {
    hide Enabled, Step, Ten;
  }

  /** Such a state is reached whenever a seeder joins a new download of twenty blocks. */
  lemma IdleState(hash: Hash, stream: IoPrimitives.Stream) returns (s: State)
    ensures Exact(s) && LeftFrom(s.pieces, 0, 20) && OneIdlePeer(s.peers)
  {
    var content := Zeros(20 * BLOCK_SIZE);
    var shas := [hash(content) + [0]];
    var start := InitialState(hash, content, |content|, shas);
    InitialStateSound(hash, content, |content|, shas);
    InitiallyExact(start);
    assert content[0..|content|] == content;
    var s1 := Step(hash, start, Join(Some(stream)));
    var s2 := Step(hash, s1, Deliver(0, Known(Unchoke)));
    s := Step(hash, s2, Deliver(0, Known(Have(0))));
    ExactKeptIff(hash, start, Join(Some(stream)));
    ExactKeptIff(hash, s1, Deliver(0, Known(Unchoke)));
    ExactKeptIff(hash, s2, Deliver(0, Known(Have(0))));
  }
}
