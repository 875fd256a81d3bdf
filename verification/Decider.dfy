/** The greedy choice of block requests (src/decider.rs, lines 39-84 and 153-191). */
module Decider {
  import opened Config
  import opened Wrappers
  import opened Storage
  import opened TorrentState
  import opened Geometry
  import opened Soundness
  import opened Download

  /** Block (i, b) is missing and nobody was asked for it. */
  predicate Candidate(pieces: seq<PieceState>, i: nat, b: nat) {
    i < |pieces| && !pieces[i].downloaded && b < |pieces[i].blocks| &&
    !pieces[i].blocks[b].downloaded && pieces[i].blocks[b].record.None?
  }

  /** Peer `p` can be asked for a block of piece `i` after `added` requests to it in this tick. */
  predicate Eligible(p: PeerState, i: nat, added: int) {
    p.stream.Some? && !p.weChoked && i < |p.hasPiece| && p.hasPiece[i] &&
    p.outstanding + added < MAX_OUTSTANDING_REQUESTS_PER_PEER
  }

  predicate EligibleAfter(peers: seq<PeerState>, p: nat, i: nat, reqs: seq<BlockRequest>, n: nat)
    requires n <= |reqs|
  {
    p < |peers| && Eligible(peers[p], i, RequestsTo(reqs, p, n))
  }

  predicate LowestEligible(peers: seq<PeerState>, p: nat, i: nat, reqs: seq<BlockRequest>, n: nat)
    requires n <= |reqs|
  {
    EligibleAfter(peers, p, i, reqs, n) && forall q :: 0 <= q < p ==> !EligibleAfter(peers, q, i, reqs, n)
  }

  predicate NoneEligible(peers: seq<PeerState>, i: nat, reqs: seq<BlockRequest>, n: nat)
    requires n <= |reqs|
  {
    forall p :: 0 <= p < |peers| ==> !EligibleAfter(peers, p, i, reqs, n)
  }

  predicate Before(i: nat, b: nat, i': nat, b': nat) { i < i' || (i == i' && b < b') }

  /** One of the first `n` requests is for block (i, b). */
  predicate RequestedBy(reqs: seq<BlockRequest>, n: nat, i: nat, b: nat) {
    exists k :: 0 <= k < n && k < |reqs| && reqs[k].pieceId == i && reqs[k].blockId == b
  }

  /** Block (i, b) comes after the first `n` requests and before all others. */
  predicate Splits(reqs: seq<BlockRequest>, i: nat, b: nat, n: nat) {
    n <= |reqs| &&
    (forall k :: 0 <= k < n ==> Before(reqs[k].pieceId, reqs[k].blockId, i, b)) &&
    (forall k :: n <= k < |reqs| ==> Before(i, b, reqs[k].pieceId, reqs[k].blockId))
  }

  /** Block (i, b) was passed over after exactly the first `n` requests had been made:
      the tick was full, or no peer could take it. */
  predicate Skipped(peers: seq<PeerState>, reqs: seq<BlockRequest>, i: nat, b: nat, n: nat) {
    Splits(reqs, i, b, n) &&
    (n == MAX_REQUESTS_PER_TICK_PER_DOWNLOAD || NoneEligible(peers, i, reqs, n))
  }

  ghost predicate Settled(peers: seq<PeerState>, reqs: seq<BlockRequest>, i: nat, b: nat) {
    RequestedBy(reqs, |reqs|, i, b) || exists n :: Skipped(peers, reqs, i, b, n)
  }

  /** Every request is for a candidate, in increasing order, and goes to the lowest peer
      that is eligible given the requests before it; at most 100 are made. */
  predicate GoodRequests(s: State, reqs: seq<BlockRequest>) {
    |reqs| <= MAX_REQUESTS_PER_TICK_PER_DOWNLOAD && Ordered(reqs) &&
    forall k :: 0 <= k < |reqs| ==>
      Candidate(s.pieces, reqs[k].pieceId, reqs[k].blockId) &&
      LowestEligible(s.peers, reqs[k].peerId, reqs[k].pieceId, reqs, k)
  }

  predicate Ordered(reqs: seq<BlockRequest>) {
    forall k, l :: 0 <= k < l < |reqs| ==>
      Before(reqs[k].pieceId, reqs[k].blockId, reqs[l].pieceId, reqs[l].blockId)
  }

  /** `reqs` is a greedy schedule: good requests, and no candidate passed over without reason. */
  ghost predicate IsSchedule(s: State, reqs: seq<BlockRequest>) {
    GoodRequests(s, reqs) &&
    forall i, b :: Candidate(s.pieces, i, b) ==> Settled(s.peers, reqs, i, b)
  }

  // ---------- what a greedy schedule is ----------

  lemma {:induction false} RequestsToPrefix(a: seq<BlockRequest>, b: seq<BlockRequest>, p: nat, n: nat)
    requires n <= |a| && n <= |b| && a[..n] == b[..n]
    ensures RequestsTo(a, p, n) == RequestsTo(b, p, n)
  {
    if n != 0 {
      assert a[n - 1] == a[..n][n - 1] == b[n - 1];
      assert a[..n - 1] == a[..n][..n - 1] == b[..n - 1];
      RequestsToPrefix(a, b, p, n - 1);
    }
  }

  lemma {:induction false} RequestsToGrows(reqs: seq<BlockRequest>, p: nat, m: nat, n: nat)
    requires m <= n <= |reqs|
    ensures RequestsTo(reqs, p, m) <= RequestsTo(reqs, p, n)
  {
    if m < n {
      RequestsToGrows(reqs, p, m, n - 1);
    }
  }

  lemma SplitUnique(reqs: seq<BlockRequest>, i: nat, b: nat, m: nat, n: nat)
    requires Splits(reqs, i, b, m) && Splits(reqs, i, b, n)
    ensures m == n && !RequestedBy(reqs, |reqs|, i, b)
  {
    var j := Min(m, n);
    if j < |reqs| {
      var first := reqs[j];
    }
  }

  /** The rule leaves no choice: there is at most one greedy schedule. */
  lemma ScheduleUnique(s: State, a: seq<BlockRequest>, b: seq<BlockRequest>)
    requires IsSchedule(s, a) && IsSchedule(s, b)
    ensures a == b
  {
    hide IsSchedule;
    PrefixUnique(s, a, b, if |a| <= |b| then |a| else |b|);
    if |a| < |b| {
      NextMatches(s, b, a, |a|);
    } else if |b| < |a| {
      NextMatches(s, a, b, |b|);
    }
  }

  lemma {:induction false} PrefixUnique(s: State, a: seq<BlockRequest>, b: seq<BlockRequest>, n: nat)
    requires IsSchedule(s, a) && IsSchedule(s, b) && n <= |a| && n <= |b|
    ensures a[..n] == b[..n]
  {
    hide IsSchedule, GoodRequests;
    if n != 0 {
      PrefixUnique(s, a, b, n - 1);
      NextMatches(s, a, b, n - 1);
      NextMatches(s, b, a, n - 1);
      SamePeer(s, a, b, n - 1);
      assert a[..n] == a[..n - 1] + [a[n - 1]] && b[..n] == b[..n - 1] + [b[n - 1]];
    }
  }

  /** After a common prefix, `b` cannot have passed over the next block of `a`. */
  lemma NextMatches(s: State, a: seq<BlockRequest>, b: seq<BlockRequest>, n: nat)
    requires IsSchedule(s, a) && IsSchedule(s, b) && n < |a| && n <= |b| && a[..n] == b[..n]
    ensures n < |b| && !Before(a[n].pieceId, a[n].blockId, b[n].pieceId, b[n].blockId)
  {
    var i, c := a[n].pieceId, a[n].blockId;
    if n == |b| || Before(i, c, b[n].pieceId, b[n].blockId) {
      forall k | 0 <= k < n ensures Before(b[k].pieceId, b[k].blockId, i, c) {
        assert b[k] == b[..n][k] == a[..n][k] == a[k];
      }
      assert Splits(b, i, c, n);
      hide Splits;
      SplitUnique(b, i, c, n, n);
      RequestsToPrefix(a, b, a[n].peerId, n);
      assert LowestEligible(s.peers, a[n].peerId, i, a, n);
      assert EligibleAfter(s.peers, a[n].peerId, i, b, n);
      assert Settled(s.peers, b, i, c);
      var m :| Skipped(s.peers, b, i, c, m);
      SplitUnique(b, i, c, m, n);
      assert false;
    }
  }

  lemma SamePeer(s: State, a: seq<BlockRequest>, b: seq<BlockRequest>, n: nat)
    requires IsSchedule(s, a) && IsSchedule(s, b) && n < |a| && n < |b| && a[..n] == b[..n]
    requires a[n].pieceId == b[n].pieceId && a[n].blockId == b[n].blockId
    ensures a[n] == b[n]
  {
    forall p: nat ensures RequestsTo(a, p, n) == RequestsTo(b, p, n) {
      RequestsToPrefix(a, b, p, n);
    }
    assert LowestEligible(s.peers, a[n].peerId, a[n].pieceId, a, n);
    assert LowestEligible(s.peers, b[n].peerId, b[n].pieceId, b, n);
    assert EligibleAfter(s.peers, a[n].peerId, a[n].pieceId, b, n);
    assert EligibleAfter(s.peers, b[n].peerId, a[n].pieceId, a, n);
  }

  /** If the tick was not full, nothing more could have been requested: in the state the
      schedule leaves behind, no peer is eligible for a candidate. */
  lemma GreedyMaximal(s: State, reqs: seq<BlockRequest>, now: nat)
    requires IsSchedule(s, reqs) && RequestsInRange(s, reqs)
    requires |reqs| < MAX_REQUESTS_PER_TICK_PER_DOWNLOAD
    ensures var s' := IssueRequests(s, reqs, now);
            forall i, b, p :: Candidate(s'.pieces, i, b) && 0 <= p < |s'.peers| ==> !Eligible(s'.peers[p], i, 0)
  {
    var s' := IssueRequests(s, reqs, now);
    forall i, b, p | Candidate(s'.pieces, i, b) && 0 <= p < |s'.peers|
      ensures !Eligible(s'.peers[p], i, 0)
    {
      RecordedAt(s, reqs, now, |reqs|, i, b);
      assert Candidate(s.pieces, i, b) && !RequestedBy(reqs, |reqs|, i, b);
      assert Settled(s.peers, reqs, i, b);
      var n :| Skipped(s.peers, reqs, i, b, n);
      RequestsToGrows(reqs, p, n, |reqs|);
      assert !EligibleAfter(s.peers, p, i, reqs, n);
    }
  }

  /** Who is asked for what: a missing block nobody was asked for, of a connected peer that has
      unchoked us, has the piece and has room; no peer before it is all four. */
  lemma AskedIsAllowed(s: State, reqs: seq<BlockRequest>, k: nat)
    requires IsSchedule(s, reqs) && k < |reqs|
    ensures |reqs| <= MAX_REQUESTS_PER_TICK_PER_DOWNLOAD
    ensures var r := reqs[k];
            r.pieceId < |s.pieces| && r.blockId < |s.pieces[r.pieceId].blocks| && r.peerId < |s.peers| &&
            var b, p := s.pieces[r.pieceId].blocks[r.blockId], s.peers[r.peerId];
            !s.pieces[r.pieceId].downloaded && !b.downloaded && b.record.None? &&
            p.stream.Some? && !p.weChoked && r.pieceId < |p.hasPiece| && p.hasPiece[r.pieceId] &&
            p.outstanding + RequestsTo(reqs, r.peerId, k) < MAX_OUTSTANDING_REQUESTS_PER_PEER
    ensures forall q :: 0 <= q < reqs[k].peerId && reqs[k].pieceId < |s.peers[q].hasPiece| ==>
              var p := s.peers[q];
              p.stream.None? || p.weChoked || !p.hasPiece[reqs[k].pieceId] ||
              MAX_OUTSTANDING_REQUESTS_PER_PEER <= p.outstanding + RequestsTo(reqs, q, k)
  {
    var r := reqs[k];
    assert Candidate(s.pieces, r.pieceId, r.blockId) && LowestEligible(s.peers, r.peerId, r.pieceId, reqs, k);
    forall q | 0 <= q < r.peerId && r.pieceId < |s.peers[q].hasPiece|
      ensures s.peers[q].stream.None? || s.peers[q].weChoked || !s.peers[q].hasPiece[r.pieceId] ||
              MAX_OUTSTANDING_REQUESTS_PER_PEER <= s.peers[q].outstanding + RequestsTo(reqs, q, k)
    {
      assert !EligibleAfter(s.peers, q, r.pieceId, reqs, k);
    }
  }

  /** Who is not asked: with room in the tick, every peer lacks something for every missing block that
      nobody was asked for. */
  lemma NotAskedLacks(s: State, reqs: seq<BlockRequest>, i: nat, b: nat, q: nat)
    requires IsSchedule(s, reqs) && |reqs| < MAX_REQUESTS_PER_TICK_PER_DOWNLOAD && q < |s.peers|
    requires i < |s.pieces| && !s.pieces[i].downloaded && b < |s.pieces[i].blocks|
    requires !s.pieces[i].blocks[b].downloaded && s.pieces[i].blocks[b].record.None?
    requires forall k :: 0 <= k < |reqs| ==> reqs[k].pieceId != i || reqs[k].blockId != b
    requires i < |s.peers[q].hasPiece|
    ensures var p := s.peers[q];
            p.stream.None? || p.weChoked || !p.hasPiece[i] ||
            MAX_OUTSTANDING_REQUESTS_PER_PEER <= p.outstanding + RequestsTo(reqs, q, |reqs|)
  {
    assert Candidate(s.pieces, i, b) && !RequestedBy(reqs, |reqs|, i, b);
    assert Settled(s.peers, reqs, i, b);
    var n :| Skipped(s.peers, reqs, i, b, n);
    RequestsToGrows(reqs, q, n, |reqs|);
    assert !EligibleAfter(s.peers, q, i, reqs, n);
  }

  ghost predicate RecordedFor(reqs: seq<BlockRequest>, n: nat, i: nat, b: nat,
                              record: Option<BlockRequestRecord>, now: nat) {
    exists k :: 0 <= k < n && k < |reqs| && reqs[k].pieceId == i && reqs[k].blockId == b &&
                record == Some(BlockRequestRecord(reqs[k].peerId, now))
  }

  /** Exactly the requested blocks got a record of this tick; nothing else changed. */
  lemma {:induction false} RecordedAt(s: State, reqs: seq<BlockRequest>, now: nat, n: nat, i: nat, b: nat)
    requires RequestsInRange(s, reqs) && n <= |reqs| && i < |s.pieces| && b < |s.pieces[i].blocks|
    ensures var r := Recorded(s, reqs, now, n);
            r[i].(blocks := []) == s.pieces[i].(blocks := []) &&
            r[i].blocks[b].(record := None) == s.pieces[i].blocks[b].(record := None) &&
            (!RequestedBy(reqs, n, i, b) ==> r[i].blocks[b] == s.pieces[i].blocks[b]) &&
            (RequestedBy(reqs, n, i, b) ==> RecordedFor(reqs, n, i, b, r[i].blocks[b].record, now))
  {
    if n != 0 {
      RecordedAt(s, reqs, now, n - 1, i, b);
      var last := reqs[n - 1];
      if last.pieceId == i && last.blockId == b {
        assert RequestedBy(reqs, n, i, b);
      } else {
        assert RequestedBy(reqs, n, i, b) == RequestedBy(reqs, n - 1, i, b);
      }
    }
  }

  // ---------- the loops that compute it ----------

  /** The requests made when the loops have reached block `b` of piece `i`. */
  ghost predicate Reached(s: State, reqs: seq<BlockRequest>, i: nat, b: nat) {
    GoodRequests(s, reqs) &&
    (forall k :: 0 <= k < |reqs| ==> Before(reqs[k].pieceId, reqs[k].blockId, i, b)) &&
    forall i', b' :: Candidate(s.pieces, i', b') && Before(i', b', i, b) ==> Settled(s.peers, reqs, i', b')
  }

  lemma PassedOver(s: State, reqs: seq<BlockRequest>, i: nat, b: nat)
    requires Reached(s, reqs, i, b)
    requires Candidate(s.pieces, i, b) ==>
               |reqs| == MAX_REQUESTS_PER_TICK_PER_DOWNLOAD || NoneEligible(s.peers, i, reqs, |reqs|)
    ensures Reached(s, reqs, i, b + 1)
  {
    hide GoodRequests, NoneEligible, Candidate;
    if Candidate(s.pieces, i, b) {
      assert Skipped(s.peers, reqs, i, b, |reqs|);
      assert Settled(s.peers, reqs, i, b);
    }
  }

  lemma NextPiece(s: State, reqs: seq<BlockRequest>, i: nat, b: nat)
    requires Reached(s, reqs, i, b) && i < |s.pieces|
    requires b == |s.pieces[i].blocks| || s.pieces[i].downloaded || |reqs| == MAX_REQUESTS_PER_TICK_PER_DOWNLOAD
    ensures Reached(s, reqs, i + 1, 0)
  {
    forall i', b' | Candidate(s.pieces, i', b') && Before(i', b', i + 1, 0) ensures Settled(s.peers, reqs, i', b') {
      if !Before(i', b', i, b) {
        assert Skipped(s.peers, reqs, i', b', |reqs|);
      }
    }
  }

  lemma Taken(s: State, reqs: seq<BlockRequest>, r: BlockRequest)
    requires Reached(s, reqs, r.pieceId, r.blockId) && |reqs| < MAX_REQUESTS_PER_TICK_PER_DOWNLOAD
    requires Candidate(s.pieces, r.pieceId, r.blockId)
    requires LowestEligible(s.peers, r.peerId, r.pieceId, reqs, |reqs|)
    ensures Reached(s, reqs + [r], r.pieceId, r.blockId + 1)
  {
    var reqs' := reqs + [r];
    GoodAppend(s, reqs, r);
    assert forall k :: 0 <= k < |reqs| ==> reqs'[k] == reqs[k];
    hide GoodRequests;
    forall i, b | Candidate(s.pieces, i, b) && Before(i, b, r.pieceId, r.blockId + 1)
      ensures Settled(s.peers, reqs', i, b)
    {
      if Before(i, b, r.pieceId, r.blockId) {
        SettledStays(s.peers, reqs, r, i, b);
      } else {
        assert reqs'[|reqs|] == r;
      }
    }
  }

  lemma GoodAppend(s: State, reqs: seq<BlockRequest>, r: BlockRequest)
    requires GoodRequests(s, reqs) && |reqs| < MAX_REQUESTS_PER_TICK_PER_DOWNLOAD
    requires forall k :: 0 <= k < |reqs| ==> Before(reqs[k].pieceId, reqs[k].blockId, r.pieceId, r.blockId)
    requires Candidate(s.pieces, r.pieceId, r.blockId)
    requires LowestEligible(s.peers, r.peerId, r.pieceId, reqs, |reqs|)
    ensures GoodRequests(s, reqs + [r])
  {
    var reqs' := reqs + [r];
    OrderedAppend(reqs, r);
    hide Ordered, Candidate, LowestEligible;
    forall k | 0 <= k < |reqs'|
      ensures Candidate(s.pieces, reqs'[k].pieceId, reqs'[k].blockId)
      ensures LowestEligible(s.peers, reqs'[k].peerId, reqs'[k].pieceId, reqs', k)
    {
      LowestStays(s.peers, reqs'[k].peerId, reqs'[k].pieceId, reqs, reqs', k);
      if k < |reqs| {
        assert reqs'[k] == reqs[k];
      }
    }
  }

  lemma OrderedAppend(reqs: seq<BlockRequest>, r: BlockRequest)
    requires Ordered(reqs)
    requires forall k :: 0 <= k < |reqs| ==> Before(reqs[k].pieceId, reqs[k].blockId, r.pieceId, r.blockId)
    ensures Ordered(reqs + [r])
  {
  }

  lemma LowestStays(peers: seq<PeerState>, p: nat, i: nat, reqs: seq<BlockRequest>, reqs': seq<BlockRequest>, n: nat)
    requires n <= |reqs| <= |reqs'| && reqs'[..|reqs|] == reqs
    ensures LowestEligible(peers, p, i, reqs', n) == LowestEligible(peers, p, i, reqs, n)
  {
    EligibilityStays(peers, i, reqs, reqs', n);
    hide EligibleAfter;
  }

  lemma SameCounts(reqs: seq<BlockRequest>, reqs': seq<BlockRequest>, n: nat)
    requires n <= |reqs| <= |reqs'| && reqs'[..|reqs|] == reqs
    ensures forall p: nat :: RequestsTo(reqs', p, n) == RequestsTo(reqs, p, n)
  {
    forall p: nat ensures RequestsTo(reqs', p, n) == RequestsTo(reqs, p, n) {
      assert reqs'[..n] == reqs'[..|reqs|][..n];
      RequestsToPrefix(reqs, reqs', p, n);
    }
  }

  /** Later requests do not change who was eligible after the first `n`. */
  lemma EligibilityStays(peers: seq<PeerState>, i: nat, reqs: seq<BlockRequest>, reqs': seq<BlockRequest>, n: nat)
    requires n <= |reqs| <= |reqs'| && reqs'[..|reqs|] == reqs
    ensures forall p: nat :: EligibleAfter(peers, p, i, reqs', n) == EligibleAfter(peers, p, i, reqs, n)
  {
    SameCounts(reqs, reqs', n);
  }

  lemma SettledStays(peers: seq<PeerState>, reqs: seq<BlockRequest>, r: BlockRequest, i: nat, b: nat)
    requires Settled(peers, reqs, i, b) && Before(i, b, r.pieceId, r.blockId)
    ensures Settled(peers, reqs + [r], i, b)
  {
    var reqs' := reqs + [r];
    assert forall k :: 0 <= k < |reqs| ==> reqs'[k] == reqs[k];
    if RequestedBy(reqs, |reqs|, i, b) {
      assert RequestedBy(reqs', |reqs'|, i, b);
    } else {
      var n :| Skipped(peers, reqs, i, b, n);
      EligibilityStays(peers, i, reqs, reqs', n);
      assert Splits(reqs', i, b, n);
      assert NoneEligible(peers, i, reqs, n) ==> NoneEligible(peers, i, reqs', n);
      assert Skipped(peers, reqs', i, b, n);
    }
  }

  lemma ReachedEnd(s: State, reqs: seq<BlockRequest>)
    requires Reached(s, reqs, |s.pieces|, 0)
    ensures IsSchedule(s, reqs) && RequestsInRange(s, reqs)
  {
    forall k | 0 <= k < |reqs|
      ensures reqs[k].peerId < |s.peers| && Candidate(s.pieces, reqs[k].pieceId, reqs[k].blockId)
    {
      assert LowestEligible(s.peers, reqs[k].peerId, reqs[k].pieceId, reqs, k);
    }
  }

  lemma NothingReached(s: State)
    ensures Reached(s, [], 0, 0)
  {
  }

  /** Some peer is the lowest eligible one, or none is eligible. */
  lemma {:induction false} LowestOrNone(peers: seq<PeerState>, i: nat, reqs: seq<BlockRequest>, p: nat)
    returns (found: nat)
    requires p <= |peers| && forall q :: 0 <= q < p ==> !EligibleAfter(peers, q, i, reqs, |reqs|)
    ensures LowestEligible(peers, found, i, reqs, |reqs|) || NoneEligible(peers, i, reqs, |reqs|)
    decreases |peers| - p
  {
    found := p;
    if p < |peers| && !EligibleAfter(peers, p, i, reqs, |reqs|) {
      found := LowestOrNone(peers, i, reqs, p + 1);
    }
  }

  lemma {:induction false} ScheduleFrom(s: State, reqs: seq<BlockRequest>, i: nat, b: nat)
    returns (all: seq<BlockRequest>)
    requires Reached(s, reqs, i, b) && i <= |s.pieces| && b <= (if i < |s.pieces| then |s.pieces[i].blocks| else 0)
    ensures Reached(s, all, |s.pieces|, 0)
    decreases |s.pieces| - i, if i < |s.pieces| then |s.pieces[i].blocks| - b else 0
  {
    hide Reached, LowestEligible, NoneEligible, EligibleAfter;
    if i == |s.pieces| {
      all := reqs;
    } else if b == |s.pieces[i].blocks| || |reqs| == MAX_REQUESTS_PER_TICK_PER_DOWNLOAD {
      NextPiece(s, reqs, i, b);
      all := ScheduleFrom(s, reqs, i + 1, 0);
    } else {
      var p := LowestOrNone(s.peers, i, reqs, 0);
      if Candidate(s.pieces, i, b) && LowestEligible(s.peers, p, i, reqs, |reqs|) {
        ReachedWithinLimit(s, reqs, i, b);
        Taken(s, reqs, BlockRequest(p, i, b));
        all := ScheduleFrom(s, reqs + [BlockRequest(p, i, b)], i, b + 1);
      } else {
        PassedOver(s, reqs, i, b);
        all := ScheduleFrom(s, reqs, i, b + 1);
      }
    }
  }

  lemma ReachedWithinLimit(s: State, reqs: seq<BlockRequest>, i: nat, b: nat)
    requires Reached(s, reqs, i, b)
    ensures |reqs| <= MAX_REQUESTS_PER_TICK_PER_DOWNLOAD
  {
  }

  /** In every state there is a greedy schedule. */
  lemma ScheduleExists(s: State) returns (reqs: seq<BlockRequest>)
    ensures IsSchedule(s, reqs) && RequestsInRange(s, reqs)
  {
    NothingReached(s);
    reqs := ScheduleFrom(s, [], 0, 0);
    ReachedEnd(s, reqs);
  }

  method FindPeer(download: Download, pieceId: nat, addedInThis: seq<int>) returns (peerId: Option<nat>)
    requires download.Valid() && pieceId < |download.pieces| && |addedInThis| == |download.peers|
    ensures peerId.Some? ==> peerId.value < |download.peers|
    ensures peerId.Some? ==> Eligible(download.peers[peerId.value], pieceId, addedInThis[peerId.value])
    ensures peerId.Some? ==> forall q :: 0 <= q < peerId.value ==> !Eligible(download.peers[q], pieceId, addedInThis[q])
    ensures peerId.None? ==>
              forall q :: 0 <= q < |download.peers| ==> !Eligible(download.peers[q], pieceId, addedInThis[q])
    ensures forall q :: 0 <= q < |download.peers| && pieceId < |download.peers[q].hasPiece| &&
                        (peerId.Some? ==> q < peerId.value) ==>
              var p := download.peers[q];
              p.stream.None? || p.weChoked || !p.hasPiece[pieceId] ||
              MAX_OUTSTANDING_REQUESTS_PER_PEER <= p.outstanding + addedInThis[q]
    ensures peerId.Some? ==>
              var p := download.peers[peerId.value];
              p.stream.Some? && !p.weChoked && pieceId < |p.hasPiece| && p.hasPiece[pieceId] &&
              p.outstanding + addedInThis[peerId.value] < MAX_OUTSTANDING_REQUESTS_PER_PEER
  {
    for peerIndex := 0 to |download.peers|
      invariant forall q :: 0 <= q < peerIndex ==> !Eligible(download.peers[q], pieceId, addedInThis[q])
    {
      var peer := download.peers[peerIndex];
      assert PeerSound(download.View(), peer);
      if peer.stream.None? {
        continue;
      }
      if peer.weChoked {
        continue;
      }
      if !peer.hasPiece[pieceId] {
        continue;
      }
      if peer.outstanding + addedInThis[peerIndex] >= MAX_OUTSTANDING_REQUESTS_PER_PEER {
        continue;
      }
      return Some(peerIndex);
    }
    peerId := None;
  }

  /** `addedInThis` counts the requests of the tick by peer. */
  ghost predicate Tallied(addedInThis: seq<int>, reqs: seq<BlockRequest>) {
    forall p :: 0 <= p < |addedInThis| ==> addedInThis[p] == RequestsTo(reqs, p, |reqs|)
  }

  lemma TallyMore(addedInThis: seq<int>, reqs: seq<BlockRequest>, r: BlockRequest)
    requires Tallied(addedInThis, reqs) && r.peerId < |addedInThis|
    ensures Tallied(addedInThis[r.peerId := addedInThis[r.peerId] + 1], reqs + [r])
  {
    SameCounts(reqs, reqs + [r], |reqs|);
  }

  lemma FoundIsLowest(peers: seq<PeerState>, p: nat, i: nat, addedInThis: seq<int>, reqs: seq<BlockRequest>)
    requires Tallied(addedInThis, reqs) && |addedInThis| == |peers| && p < |peers|
    requires Eligible(peers[p], i, addedInThis[p])
    requires forall q :: 0 <= q < p ==> !Eligible(peers[q], i, addedInThis[q])
    ensures LowestEligible(peers, p, i, reqs, |reqs|)
  {
    hide Eligible;
  }

  lemma NotFoundIsNone(peers: seq<PeerState>, i: nat, addedInThis: seq<int>, reqs: seq<BlockRequest>)
    requires Tallied(addedInThis, reqs) && |addedInThis| == |peers|
    requires forall q :: 0 <= q < |peers| ==> !Eligible(peers[q], i, addedInThis[q])
    ensures NoneEligible(peers, i, reqs, |reqs|)
  {
    hide Eligible;
  }

  /** The choosing half of `decide_block_requests`. */
  method ChooseRequests(download: Download) returns (result: seq<BlockRequest>, addedInThis: seq<int>)
    requires download.Valid()
    ensures IsSchedule(download.View(), result) && RequestsInRange(download.View(), result)
    ensures |addedInThis| == |download.peers| && Tallied(addedInThis, result)
  {
    ghost var s := download.View();
    result := [];
    addedInThis := seq(|download.peers|, _ => 0);
    NothingReached(s);
    assert Tallied(addedInThis, result);
    hide Sound, FlatTo, Reached, Tallied, Eligible, LowestEligible, NoneEligible;
    for pieceId := 0 to |download.pieces|
      invariant Reached(s, result, pieceId, 0)
      invariant |addedInThis| == |download.peers| && Tallied(addedInThis, result)
    {
      var piece := download.pieces[pieceId];
      if piece.downloaded {
        NextPiece(s, result, pieceId, 0);
        continue;
      }
      ghost var reached := 0;
      for blockId := 0 to |piece.blocks|
        invariant reached == blockId && Reached(s, result, pieceId, blockId)
        invariant |addedInThis| == |download.peers| && Tallied(addedInThis, result)
      {
        if |result| >= MAX_REQUESTS_PER_TICK_PER_DOWNLOAD {
          break;
        }
        reached := blockId + 1;
        var block := piece.blocks[blockId];
        if block.downloaded || block.record.Some? {
          PassedOver(s, result, pieceId, blockId);
          continue;
        }
        var found := FindPeer(download, pieceId, addedInThis);
        if found.Some? {
          var request := BlockRequest(found.value, pieceId, blockId);
          FoundIsLowest(s.peers, found.value, pieceId, addedInThis, result);
          Taken(s, result, request);
          TallyMore(addedInThis, result, request);
          result := result + [request];
          addedInThis := addedInThis[found.value := addedInThis[found.value] + 1];
        } else {
          NotFoundIsNone(s.peers, pieceId, addedInThis, result);
          PassedOver(s, result, pieceId, blockId);
        }
      }
      NextPiece(s, result, pieceId, reached);
    }
    ReachedEnd(s, result);
  }

  /** `decide_block_requests`: the one greedy schedule for the state, recorded and counted. */
  method DecideBlockRequests(download: Download, now: nat) returns (result: seq<BlockRequest>)
    requires download.Valid()
    modifies download`pieces, download`peers
    ensures download.Valid()
    ensures IsSchedule(old(download.View()), result) && RequestsInRange(old(download.View()), result)
    ensures download.View() == IssueRequests(old(download.View()), result, now)
  {
    ghost var s := download.View();
    var addedInThis;
    result, addedInThis := ChooseRequests(download);
    IssueRequestsSound(s, result, now);
    hide Sound, IsSchedule, FlatTo, Recorded, Reserve, RequestsInRange, Tallied;
    ghost var s' := IssueRequests(s, result, now);
    assert Sound(s');
    RecordRequests(download, result, now);
    CountRequests(download, result, addedInThis);
    assert download.View() == s';
  }

  /** The first loop after the choice: sets the records. */
  method RecordRequests(download: Download, result: seq<BlockRequest>, now: nat)
    requires RequestsInRange(download.View(), result)
    modifies download`pieces
    ensures download.pieces == Recorded(old(download.View()), result, now, |result|)
  {
    ghost var s := download.View();
    for k := 0 to |result|
      invariant download.pieces == Recorded(s, result, now, k)
    {
      var request := result[k];
      download.pieces := WithRecord(download.pieces, request.pieceId, request.blockId,
                                    Some(BlockRequestRecord(request.peerId, now)));
    }
  }

  /** The second loop: raises the counters. */
  method CountRequests(download: Download, ghost result: seq<BlockRequest>, addedInThis: seq<int>)
    requires |addedInThis| == |download.peers| && Tallied(addedInThis, result)
    modifies download`peers
    ensures download.peers == Reserve(old(download.peers), result)
  {
    ghost var before := download.peers;
    for peerId := 0 to |download.peers|
      invariant |download.peers| == |before|
      invariant forall p :: 0 <= p < peerId ==> download.peers[p] == Reserve(before, result)[p]
      invariant forall p :: peerId <= p < |before| ==> download.peers[p] == before[p]
    {
      var peer := download.peers[peerId];
      download.peers := download.peers[peerId := peer.(outstanding := peer.outstanding + addedInThis[peerId])];
    }
  }

  // ---------- broadcasts ----------

  datatype HaveBroadcast = HaveBroadcast(peerId: nat, pieceId: nat)

  /** A peer is told about a piece if it is connected and is not known to have it. */
  predicate Told(p: PeerState, pieceId: nat) {
    p.stream.Some? && pieceId < |p.hasPiece| && !p.hasPiece[pieceId]
  }

  /** Who of the first `n` peers is told about a piece, in order. */
  function ToldOf(peers: seq<PeerState>, pieceId: nat, n: nat): seq<HaveBroadcast>
    requires n <= |peers|
  {
    if n == 0 then []
    else ToldOf(peers, pieceId, n - 1) + if Told(peers[n - 1], pieceId) then [HaveBroadcast(n - 1, pieceId)] else []
  }

  /** The broadcasts for the first `k` pieces of the queue, piece by piece. */
  function Broadcasts(peers: seq<PeerState>, recent: seq<nat>, k: nat): seq<HaveBroadcast>
    requires k <= |recent|
  {
    if k == 0 then [] else Broadcasts(peers, recent, k - 1) + ToldOf(peers, recent[k - 1], |peers|)
  }

  lemma {:induction false} ToldOfIff(peers: seq<PeerState>, pieceId: nat, n: nat, h: HaveBroadcast)
    requires n <= |peers|
    ensures h in ToldOf(peers, pieceId, n) <==>
            h.pieceId == pieceId && h.peerId < n && Told(peers[h.peerId], pieceId)
  {
    if n != 0 {
      ToldOfIff(peers, pieceId, n - 1, h);
    }
  }

  lemma PrefixHas(recent: seq<nat>, k: nat, i: nat)
    requires 0 < k <= |recent|
    ensures i in recent[..k] <==> i in recent[..k - 1] || i == recent[k - 1]
  {
    assert recent[..k] == recent[..k - 1] + [recent[k - 1]];
  }

  /** All for one piece, peer by peer. */
  predicate PeerByPeer(broadcasts: seq<HaveBroadcast>, pieceId: nat, n: nat) {
    (forall l :: 0 <= l < |broadcasts| ==> broadcasts[l].pieceId == pieceId && broadcasts[l].peerId < n) &&
    forall l, m :: 0 <= l < m < |broadcasts| ==> broadcasts[l].peerId < broadcasts[m].peerId
  }

  /** The broadcasts for one more piece follow those before it, and go out peer by peer. */
  lemma BroadcastsOrdered(peers: seq<PeerState>, recent: seq<nat>, k: nat)
    requires k < |recent|
    ensures var before, all := Broadcasts(peers, recent, k), Broadcasts(peers, recent, k + 1);
            before <= all && PeerByPeer(all[|before|..], recent[k], |peers|)
  {
    var before, more := Broadcasts(peers, recent, k), ToldOf(peers, recent[k], |peers|);
    ToldInOrder(peers, recent[k], |peers|);
    assert (before + more)[|before|..] == more;
  }

  lemma {:induction false} ToldInOrder(peers: seq<PeerState>, pieceId: nat, n: nat)
    requires n <= |peers|
    ensures PeerByPeer(ToldOf(peers, pieceId, n), pieceId, n)
  {
    if n != 0 {
      ToldInOrder(peers, pieceId, n - 1);
    }
  }

  /** Exactly the connected peers that are not known to have a queued piece are told about it. */
  lemma {:induction false} BroadcastsIff(peers: seq<PeerState>, recent: seq<nat>, k: nat, h: HaveBroadcast)
    requires k <= |recent|
    ensures h in Broadcasts(peers, recent, k) <==>
            h.pieceId in recent[..k] && h.peerId < |peers| && peers[h.peerId].stream.Some? &&
            h.pieceId < |peers[h.peerId].hasPiece| && !peers[h.peerId].hasPiece[h.pieceId]
  {
    if k != 0 {
      BroadcastsIff(peers, recent, k - 1, h);
      ToldOfIff(peers, recent[k - 1], |peers|, h);
      PrefixHas(recent, k, h.pieceId);
    }
  }

  /** The nested loops of `decide_have_broadcasts`. */
  method ChooseBroadcasts(peers: seq<PeerState>, recent: seq<nat>) returns (result: seq<HaveBroadcast>)
    requires forall p, k :: 0 <= p < |peers| && 0 <= k < |recent| ==> recent[k] < |peers[p].hasPiece|
    ensures result == Broadcasts(peers, recent, |recent|)
  {
    result := [];
    for k := 0 to |recent|
      invariant result == Broadcasts(peers, recent, k)
    {
      var recentPiece := recent[k];
      ghost var before := result;
      for peerId := 0 to |peers|
        invariant result == before + ToldOf(peers, recentPiece, peerId)
      {
        var peer := peers[peerId];
        if peer.hasPiece[recentPiece] {
          continue;
        }
        if peer.stream.None? {
          continue;
        }
        result := result + [HaveBroadcast(peerId, recentPiece)];
      }
    }
  }

  /** `decide_have_broadcasts`. */
  method DecideHaveBroadcasts(download: Download) returns (result: seq<HaveBroadcast>)
    requires download.Valid()
    modifies download`recentlyDownloadedPieces
    ensures download.Valid() && download.View() == old(download.View()).(recent := [])
    ensures var s := old(download.View()); result == Broadcasts(s.peers, s.recent, |s.recent|)
  {
    ghost var s := download.View();
    ShapeKept(s, s.(recent := []));
    assert forall p :: 0 <= p < |s.peers| ==> PeerSound(s, s.peers[p]);
    hide Sound, FlatTo;
    result := ChooseBroadcasts(download.peers, download.recentlyDownloadedPieces);
    download.recentlyDownloadedPieces := [];
    assert download.View() == s.(recent := []);
  }

  /** `decide_incoming_block_requests`: hands over all pending requests, in order. */
  method DecideIncomingBlockRequests(download: Download) returns (result: seq<IncomingBlockRequest>)
    requires download.Valid()
    modifies download`pendingBlockRequests
    ensures download.Valid() && result == old(download.pendingBlockRequests)
    ensures download.View() == old(download.View()).(pending := [])
  {
    ghost var s := download.View();
    ShapeKept(s, s.(pending := []));
    hide Sound, FlatTo;
    result := [];
    while download.pendingBlockRequests != []
      invariant result + download.pendingBlockRequests == s.pending
      decreases |download.pendingBlockRequests|
    {
      result := result + [download.pendingBlockRequests[0]];
      download.pendingBlockRequests := download.pendingBlockRequests[1..];
    }
    assert download.View() == s.(pending := []);
  }
}