/** Which peers the greedy scheduler asks, and which it never does (src/decider.rs, lines 39-84 and
    171-191; src/main_loop.rs, lines 300-331). */
module Starvation {
  import opened Config
  import opened Wrappers
  import opened TorrentState
  import opened Decider
  import opened Runs
  import opened Accounting

  // ---------- when a peer is asked ----------

  /** The download with only the peers before `p`. */
  function Below(s: State, p: nat): State
    requires p <= |s.peers|
  {
    s.(peers := s.peers[..p])
  }

  predicate Asked(reqs: seq<BlockRequest>, p: nat) { exists k :: 0 <= k < |reqs| && reqs[k].peerId == p }

  /** A block is passed over although the tick has room. */
  ghost predicate Leaves(s: State, reqs: seq<BlockRequest>) {
    exists i, b, n: nat ::
      Candidate(s.pieces, i, b) && Splits(reqs, i, b, n) && n < MAX_REQUESTS_PER_TICK_PER_DOWNLOAD
  }

  /** The peer could be asked for every block. */
  ghost predicate Willing(s: State, p: nat) {
    p < |s.peers| && forall i, b :: Candidate(s.pieces, i, b) ==> Eligible(s.peers[p], i, 0)
  }

  lemma {:induction false} NotAskedCount(reqs: seq<BlockRequest>, p: nat, n: nat)
    requires n <= |reqs| && !Asked(reqs, p)
    ensures RequestsTo(reqs, p, n) == 0
  {
    if n != 0 {
      NotAskedCount(reqs, p, n - 1);
    }
  }

  lemma StillWilling(s: State, p: nat, reqs: seq<BlockRequest>, i: nat, b: nat, n: nat)
    requires Willing(s, p) && !Asked(reqs, p) && Candidate(s.pieces, i, b) && n <= |reqs|
    ensures EligibleAfter(s.peers, p, i, reqs, n)
  {
    NotAskedCount(reqs, p, n);
  }

  /** A schedule that does not ask a willing peer is one for the peers before it, and leaves
      nothing. */
  lemma NotAskedIsBelow(s: State, p: nat, reqs: seq<BlockRequest>)
    requires IsSchedule(s, reqs) && Willing(s, p) && !Asked(reqs, p)
    ensures IsSchedule(Below(s, p), reqs) && !Leaves(s, reqs)
  {
    var s' := Below(s, p);
    forall k | 0 <= k < |reqs| ensures LowestEligible(s'.peers, reqs[k].peerId, reqs[k].pieceId, reqs, k) {
      LowestIsBelow(s, p, reqs, k);
    }
    assert GoodRequests(s', reqs);
    forall i, b | Candidate(s.pieces, i, b)
      ensures Settled(s'.peers, reqs, i, b)
      ensures forall n: nat :: Splits(reqs, i, b, n) ==> n == MAX_REQUESTS_PER_TICK_PER_DOWNLOAD
    {
      WillingSettled(s, p, reqs, i, b);
    }
    hide GoodRequests, Settled, Splits, Candidate;
  }

  lemma LowestIsBelow(s: State, p: nat, reqs: seq<BlockRequest>, k: nat)
    requires IsSchedule(s, reqs) && Willing(s, p) && !Asked(reqs, p) && k < |reqs|
    ensures LowestEligible(s.peers[..p], reqs[k].peerId, reqs[k].pieceId, reqs, k)
  {
    var q, i := reqs[k].peerId, reqs[k].pieceId;
    assert LowestEligible(s.peers, q, i, reqs, k) && Candidate(s.pieces, i, reqs[k].blockId);
    StillWilling(s, p, reqs, i, reqs[k].blockId, k);
    hide IsSchedule, Candidate, Willing, EligibleAfter;
    assert q < p;
    FewerPeers(s.peers, p, q, i, reqs, k);
  }

  /** The peers after it do not matter to whether a peer is the lowest eligible one. */
  lemma FewerPeers(peers: seq<PeerState>, p: nat, q: nat, i: nat, reqs: seq<BlockRequest>, k: nat)
    requires q < p <= |peers| && k <= |reqs|
    ensures LowestEligible(peers[..p], q, i, reqs, k) <==> LowestEligible(peers, q, i, reqs, k)
  {
    hide Eligible;
    forall r: nat | r < p ensures EligibleAfter(peers[..p], r, i, reqs, k) <==> EligibleAfter(peers, r, i, reqs, k) {
      assert peers[..p][r] == peers[r];
    }
    hide EligibleAfter;
  }

  lemma WillingSettled(s: State, p: nat, reqs: seq<BlockRequest>, i: nat, b: nat)
    requires IsSchedule(s, reqs) && Willing(s, p) && !Asked(reqs, p) && Candidate(s.pieces, i, b)
    ensures Settled(s.peers[..p], reqs, i, b)
    ensures forall n: nat :: Splits(reqs, i, b, n) ==> n == MAX_REQUESTS_PER_TICK_PER_DOWNLOAD
  {
    assert Settled(s.peers, reqs, i, b);
    hide IsSchedule, Splits, Eligible;
    if exists m :: Skipped(s.peers, reqs, i, b, m) {
      var m :| Skipped(s.peers, reqs, i, b, m);
      SplitsWithin(reqs, i, b, m);
      StillWilling(s, p, reqs, i, b, m);
      assert m == MAX_REQUESTS_PER_TICK_PER_DOWNLOAD;
      assert Skipped(s.peers[..p], reqs, i, b, m);
      forall n: nat | Splits(reqs, i, b, n) ensures n == m {
        SplitUnique(reqs, i, b, m, n);
      }
    } else {
      forall n: nat | Splits(reqs, i, b, n) ensures false {
        SplitUnique(reqs, i, b, n, n);
      }
    }
  }

  lemma SplitsWithin(reqs: seq<BlockRequest>, i: nat, b: nat, n: nat)
    requires Splits(reqs, i, b, n)
    ensures n <= |reqs|
  {
  }

  /** A schedule for the peers before `p` that leaves nothing is one for all peers. */
  lemma BelowIsAll(s: State, p: nat, reqs: seq<BlockRequest>)
    requires p <= |s.peers| && IsSchedule(Below(s, p), reqs) && !Leaves(s, reqs)
    ensures IsSchedule(s, reqs) && !Asked(reqs, p)
  {
    var s' := Below(s, p);
    forall k | 0 <= k < |reqs|
      ensures LowestEligible(s.peers, reqs[k].peerId, reqs[k].pieceId, reqs, k) && reqs[k].peerId < p
    {
      LowestOfMore(s, p, reqs, k);
    }
    assert GoodRequests(s, reqs);
    forall i, b | Candidate(s.pieces, i, b) ensures Settled(s.peers, reqs, i, b) {
      assert Settled(s'.peers, reqs, i, b);
      hide Splits, Candidate, NoneEligible, GoodRequests;
      if !RequestedBy(reqs, |reqs|, i, b) {
        var n :| Skipped(s'.peers, reqs, i, b, n);
        SplitsWithin(reqs, i, b, n);
        assert n == MAX_REQUESTS_PER_TICK_PER_DOWNLOAD;
        assert Skipped(s.peers, reqs, i, b, n);
      }
    }
  }

  lemma LowestOfMore(s: State, p: nat, reqs: seq<BlockRequest>, k: nat)
    requires p <= |s.peers| && IsSchedule(Below(s, p), reqs) && k < |reqs|
    ensures LowestEligible(s.peers, reqs[k].peerId, reqs[k].pieceId, reqs, k) && reqs[k].peerId < p
  {
    var q, i := reqs[k].peerId, reqs[k].pieceId;
    assert LowestEligible(s.peers[..p], q, i, reqs, k);
    assert EligibleAfter(s.peers[..p], q, i, reqs, k);
    hide IsSchedule, Eligible;
    FewerPeers(s.peers, p, q, i, reqs, k);
  }

  /** A peer that could take every block is asked if and only if the peers before it leave some
      block that the tick still has room for. */
  lemma AskedIff(s: State, p: nat, reqs: seq<BlockRequest>, below: seq<BlockRequest>)
    requires IsSchedule(s, reqs) && Willing(s, p) && IsSchedule(Below(s, p), below)
    ensures Asked(reqs, p) <==> Leaves(s, below)
  {
    assert p < |s.peers|;
    hide IsSchedule, Leaves, Asked, Willing;
    if !Asked(reqs, p) {
      NotAskedIsBelow(s, p, reqs);
      ScheduleUnique(Below(s, p), reqs, below);
    } else if !Leaves(s, below) {
      BelowIsAll(s, p, below);
      ScheduleUnique(s, reqs, below);
    }
  }

  // ---------- a peer that is never asked ----------

  /** Blocks nobody was asked for yet. */
  function Wanted(): Block -> bool { (b: Block) => !b.downloaded && b.record.None? }

  function WantedBlocks(s: State): nat { Count(s.pieces, Wanted(), |s.pieces|) }

  lemma StillWanted(s: State, reqs: seq<BlockRequest>, now: nat, n: nat)
    requires GoodRequests(s, reqs) && RequestsInRange(s, reqs) && n < |reqs|
    ensures Wanted()(Recorded(s, reqs, now, n)[reqs[n].pieceId].blocks[reqs[n].blockId])
  {
    var r := reqs[n];
    StillUnrecorded(s, reqs, now, n);
    RecordedAt(s, reqs, now, n, r.pieceId, r.blockId);
    assert Candidate(s.pieces, r.pieceId, r.blockId);
    hide Recorded, GoodRequests;
  }

  /** Every request takes one of them. */
  lemma {:induction false} WantedFalls(s: State, reqs: seq<BlockRequest>, now: nat, n: nat)
    requires GoodRequests(s, reqs) && RequestsInRange(s, reqs) && n <= |reqs|
    ensures Count(Recorded(s, reqs, now, n), Wanted(), |s.pieces|) == WantedBlocks(s) - n
  {
    hide GoodRequests, Count;
    if n != 0 {
      WantedFalls(s, reqs, now, n - 1);
      StillWanted(s, reqs, now, n - 1);
      var before, r := Recorded(s, reqs, now, n - 1), reqs[n - 1];
      CountRecordUpdate(before, r.pieceId, r.blockId, Some(BlockRequestRecord(r.peerId, now)), Wanted());
    }
  }

  lemma {:induction false} RequestsAtMost(reqs: seq<BlockRequest>, p: nat, n: nat)
    requires n <= |reqs|
    ensures RequestsTo(reqs, p, n) <= n
  {
    if n != 0 {
      RequestsAtMost(reqs, p, n - 1);
    }
  }

  /** A peer with room for all wanted blocks leaves nothing to those after it. */
  lemma NobodyAbove(s: State, q: nat, reqs: seq<BlockRequest>)
    requires IsSchedule(s, reqs) && RequestsInRange(s, reqs) && Willing(s, q)
    requires s.peers[q].outstanding + WantedBlocks(s) <= MAX_OUTSTANDING_REQUESTS_PER_PEER
    ensures forall k :: 0 <= k < |reqs| ==> reqs[k].peerId <= q
  {
    WantedFalls(s, reqs, 0, |reqs|);
    forall k | 0 <= k < |reqs| ensures reqs[k].peerId <= q {
      RequestsAtMost(reqs, q, k);
      assert LowestEligible(s.peers, reqs[k].peerId, reqs[k].pieceId, reqs, k);
      assert Candidate(s.pieces, reqs[k].pieceId, reqs[k].blockId);
      assert EligibleAfter(s.peers, q, reqs[k].pieceId, reqs, k);
    }
  }

  /** If nobody answers, expiry undoes a schedule. */
  lemma ExpiryUndoes(s: State, reqs: seq<BlockRequest>, now: nat, later: nat)
    requires NoRecords(s) && GoodRequests(s, reqs) && RequestsInRange(s, reqs) && now + REQUEST_EXPIRATION < later
    ensures RecordsBefore(IssueRequests(s, reqs, now), later)
    ensures RemoveExpired(IssueRequests(s, reqs, now), later) == s
  {
    var s1 := IssueRequests(s, reqs, now);
    var s2 := RemoveExpired(s1, later);
    forall i, b | 0 <= i < |s.pieces| && 0 <= b < |s.pieces[i].blocks|
      ensures s1.pieces[i].blocks[b].record.Some? ==> s1.pieces[i].blocks[b].record.value.time == now
      ensures s2.pieces[i].blocks[b] == s.pieces[i].blocks[b]
    {
      RecordedAt(s, reqs, now, |reqs|, i, b);
      assert BlockAt(s, i, b).record.None?;
    }
    forall i | 0 <= i < |s.pieces| ensures s2.pieces[i] == s.pieces[i] {
      PieceRestored(s, reqs, now, later, i);
    }
    forall p | 0 <= p < |s.peers| ensures s2.peers[p] == s.peers[p] {
      CounterRestored(s, reqs, now, later, p);
    }
    assert s2.pieces == s.pieces && s2.peers == s.peers;
  }

  lemma PieceRestored(s: State, reqs: seq<BlockRequest>, now: nat, later: nat, i: nat)
    requires RequestsInRange(s, reqs) && i < |s.pieces|
    requires var s2 := RemoveExpired(IssueRequests(s, reqs, now), later);
             forall b :: 0 <= b < |s.pieces[i].blocks| ==> s2.pieces[i].blocks[b] == s.pieces[i].blocks[b]
    ensures RemoveExpired(IssueRequests(s, reqs, now), later).pieces[i] == s.pieces[i]
  {
    var s2 := RemoveExpired(IssueRequests(s, reqs, now), later);
    assert s2.pieces[i].blocks == s.pieces[i].blocks;
    PieceHeadKept(s, reqs, now, |reqs|, i);
  }

  lemma {:induction false} PieceHeadKept(s: State, reqs: seq<BlockRequest>, now: nat, n: nat, i: nat)
    requires RequestsInRange(s, reqs) && n <= |reqs| && i < |s.pieces|
    ensures Recorded(s, reqs, now, n)[i].(blocks := []) == s.pieces[i].(blocks := [])
  {
    if n != 0 {
      PieceHeadKept(s, reqs, now, n - 1, i);
    }
  }

  lemma CounterRestored(s: State, reqs: seq<BlockRequest>, now: nat, later: nat, p: nat)
    requires NoRecords(s) && GoodRequests(s, reqs) && RequestsInRange(s, reqs) && p < |s.peers|
    requires RemoveExpired(IssueRequests(s, reqs, now), later).pieces == s.pieces
    ensures RemoveExpired(IssueRequests(s, reqs, now), later).peers[p] == s.peers[p]
  {
    var s1 := IssueRequests(s, reqs, now);
    RecordedCount(s, reqs, now, |reqs|, p);
    ExpiredCount(s1.pieces, later, p, |s1.pieces|);
    NoRecordsOf(s, p, |s.pieces|);
  }

  // ---------- rounds without an answer ----------

  /** From moment `now` on the same schedule is issued and expires, round after round. */
  predicate Rounds(events: seq<Event>, reqs: seq<BlockRequest>, now: nat) {
    events == [] ||
    (2 <= |events| && events[0] == Issue(now, reqs) && events[1] == Expire(now + REQUEST_EXPIRATION + 1) &&
     Rounds(events[2..], reqs, now + REQUEST_EXPIRATION + 1))
  }

  /** A connected peer with all pieces that has unchoked the client and never answers keeps the
      peers after it from ever being asked, if at most ten blocks are wanted: however many rounds
      there are, every schedule asks peers up to it only, and every expiry restores the state. */
  lemma SilentPeerStarves(hash: Hash, s: State, q: nat, reqs: seq<BlockRequest>, n: nat, now: nat)
    returns (states: seq<State>, events: seq<Event>)
    requires NoRecords(s) && IsSchedule(s, reqs) && RequestsInRange(s, reqs) && Willing(s, q)
    requires s.peers[q].outstanding + WantedBlocks(s) <= MAX_OUTSTANDING_REQUESTS_PER_PEER
    ensures Trace(hash, states, events) && |events| == 2 * n && states[0] == states[2 * n] == s
    ensures Rounds(events, reqs, now)
    ensures forall p :: q < p ==> !Asked(reqs, p)
  {
    NobodyAbove(s, q, reqs);
    states, events := RoundsHappen(hash, s, reqs, n, now);
  }

  lemma {:induction false} RoundsHappen(hash: Hash, s: State, reqs: seq<BlockRequest>, n: nat, now: nat)
    returns (states: seq<State>, events: seq<Event>)
    requires NoRecords(s) && IsSchedule(s, reqs) && RequestsInRange(s, reqs)
    ensures Trace(hash, states, events) && |events| == 2 * n && states[0] == states[2 * n] == s
    ensures Rounds(events, reqs, now)
  {
    if n == 0 {
      states, events := [s], [];
    } else {
      var later := now + REQUEST_EXPIRATION + 1;
      OneRound(hash, s, reqs, now, later);
      hide IsSchedule, NoRecords, Step, Enabled, IssueRequests;
      var states1, events1 := RoundsHappen(hash, s, reqs, n - 1, later);
      var e, f := Issue(now, reqs), Expire(later);
      states, events := [s, IssueRequests(s, reqs, now)] + states1, [e, f] + events1;
      TwoMore(hash, s, e, f, states1, events1);
      assert events[2..] == events1;
    }
  }

  lemma OneRound(hash: Hash, s: State, reqs: seq<BlockRequest>, now: nat, later: nat)
    requires NoRecords(s) && IsSchedule(s, reqs) && RequestsInRange(s, reqs) && now + REQUEST_EXPIRATION < later
    ensures Enabled(s, Issue(now, reqs)) && Step(hash, s, Issue(now, reqs)) == IssueRequests(s, reqs, now)
    ensures var s1 := IssueRequests(s, reqs, now); Enabled(s1, Expire(later)) && Step(hash, s1, Expire(later)) == s
  {
    ScheduleIsGood(s, reqs);
    ExpiryUndoes(s, reqs, now, later);
    hide IssueRequests, RemoveExpired, IsSchedule, GoodRequests, NoRecords, RecordsBefore;
  }

  lemma TwoMore(hash: Hash, s: State, e: Event, f: Event, states: seq<State>, events: seq<Event>)
    requires Trace(hash, states, events) && Enabled(s, e) && Enabled(Step(hash, s, e), f)
    requires Step(hash, Step(hash, s, e), f) == states[0]
    ensures Trace(hash, [s, Step(hash, s, e)] + states, [e, f] + events)
  {
    hide Step, Enabled;
    var states', events' := [s, Step(hash, s, e)] + states, [e, f] + events;
    forall k | 0 <= k < |events'|
      ensures Enabled(states'[k], events'[k]) && states'[k + 1] == Step(hash, states'[k], events'[k])
    {
      if 2 <= k {
        assert states'[k] == states[k - 2] && events'[k] == events[k - 2] && states'[k + 1] == states[k - 2 + 1];
      }
    }
  }
}
