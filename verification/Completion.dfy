/** A download from one connected seeder can always be completed: nothing the two clients did
    before, no lost or expired request, leaves them stuck (src/main_loop.rs, lines 300-331
    and 465-566; src/decider.rs, lines 39-97). */
module Completion {
  import opened Wrappers
  import opened IoPrimitives
  import opened Codec
  import opened Framing
  import opened TorrentState
  import opened Geometry
  import opened Soundness
  import opened Decider
  import opened Runs
  import opened Safety
  import opened Rerequest
  import opened Accounting
  import opened Convergence
  import opened Exchange
  import opened PeerProtocol
  import opened MainLoop
  import opened Starvation
  import opened TwoParty

  // ---------- what is under way can always be finished ----------

  /** Only the network, reading, handling and answering. */
  predicate Drains(a: Act) {
    a.UpArrives? || a.DownArrives? || a.SeederReads? || a.LeecherReads? || a.SeederHandles? || a.LeecherHandles? ||
    a.Answer?
  }

  function Flag(bytes: seq<byte>): nat { if bytes == [] then 0 else 1 }

  function UpWork(ch: Channel): nat { 8 * |ch.unread| + 7 * |ch.mail| + Flag(ch.transit) }

  function DownWork(ch: Channel): nat { 3 * |ch.unread| + 2 * |ch.mail| + Flag(ch.transit) }

  /** A request costs more the farther it still has to go. */
  function Work(sys: System): nat { UpWork(sys.up) + 6 * |sys.seeder.pending| + DownWork(sys.down) }

  lemma NextRead(w: Wire, ch: Channel)
    requires Flows(w, ch) && ch.transit == [] && ch.unread != [] && [] !in ch.unread
    ensures PrefixWhole(w)
    ensures var ch' := Read(ch, Receive(w).1);
            ch'.transit == [] && |ch'.unread| == |ch.unread| - 1 && |ch'.mail| == |ch.mail| + 1
  {
    OneDelivered(w, ch.unread[0], Encode(ch.unread[1..]));
    hide Flows, Receive, PrefixWhole;
    assert ch.unread[0] in ch.unread;
  }

  lemma {:induction false} AnswersAtMost(s: State, client: nat, n: nat)
    requires n <= |s.pending| && forall k :: 0 <= k < n ==> Servable(s, s.pending[k])
    ensures |AnswersTo(s, client, n)| <= n
  {
    if n != 0 {
      AnswersAtMost(s, client, n - 1);
    }
  }

  function NextDrain(sys: System): Act {
    if sys.up.transit != [] then UpArrives(|sys.up.transit|)
    else if sys.up.unread != [] then SeederReads
    else if sys.up.mail != [] then SeederHandles
    else if sys.seeder.pending != [] then Answer
    else if sys.down.transit != [] then DownArrives(|sys.down.transit|)
    else if sys.down.unread != [] then LeecherReads
    else LeecherHandles
  }

  lemma SeederCanRead(t: Setup, sys: System)
    requires Inv(t, sys) && sys.up.transit == [] && sys.up.unread != []
    ensures PrefixWhole(WireOf(sys.seeder.peers[t.client]))
  {
    AllUpFramable(t, sys.up.unread);
    hide LeecherFine, SeederFine, DownFine, Flows, PrefixWhole;
    NextRead(WireOf(sys.seeder.peers[t.client]), sys.up);
  }

  lemma LeecherCanRead(t: Setup, sys: System)
    requires Inv(t, sys) && sys.down.transit == [] && sys.down.unread != []
    ensures PrefixWhole(WireOf(sys.leecher.peers[t.server]))
  {
    AllDownFramable(t, sys.down.unread);
    hide LeecherFine, SeederFine, UpFine, Flows, PrefixWhole;
    NextRead(WireOf(sys.leecher.peers[t.server]), sys.down);
  }

  lemma ArrivalPossible(t: Setup, sys: System)
    requires Linked(t, sys)
    ensures Possible(t, sys, UpArrives(|sys.up.transit|)) && Possible(t, sys, DownArrives(|sys.down.transit|))
    ensures Possible(t, sys, Answer)
  {
  }

  lemma SeederHandlingPossible(t: Setup, sys: System)
    requires Linked(t, sys) && sys.up.mail != []
    ensures Possible(t, sys, SeederHandles)
  {
  }

  lemma LeecherHandlingPossible(t: Setup, sys: System)
    requires Linked(t, sys) && sys.down.mail != [] && !Fooled(t, sys)
    ensures Possible(t, sys, LeecherHandles)
  {
    hide Genuine;
  }

  lemma ReadingPossible(t: Setup, sys: System)
    requires Inv(t, sys) && Linked(t, sys)
    ensures sys.up.transit == [] && sys.up.unread != [] ==> Possible(t, sys, SeederReads)
    ensures sys.down.transit == [] && sys.down.unread != [] ==> Possible(t, sys, LeecherReads)
  {
    hide Inv, Linked, PrefixWhole;
    if sys.up.transit == [] && sys.up.unread != [] {
      SeederCanRead(t, sys);
    }
    if sys.down.transit == [] && sys.down.unread != [] {
      LeecherCanRead(t, sys);
    }
  }

  lemma DrainPossible(t: Setup, sys: System)
    requires Inv(t, sys) && !Quiet(sys) && !Fooled(t, sys)
    ensures Possible(t, sys, NextDrain(sys))
  {
    InvLinked(t, sys);
    hide Inv, Linked, Possible, Fooled;
    ArrivalPossible(t, sys);
    if sys.up.mail != [] {
      SeederHandlingPossible(t, sys);
    }
    if sys.down.mail != [] {
      LeecherHandlingPossible(t, sys);
    }
    ReadingPossible(t, sys);
  }

  /** Each such act brings something closer to its end. */
  lemma DrainShrinks(t: Setup, sys: System)
    requires Inv(t, sys) && !Quiet(sys) && Possible(t, sys, NextDrain(sys)) && Survives(t, sys, NextDrain(sys))
    ensures Work(Next(t, sys, NextDrain(sys))) < Work(sys)
  {
    var a := NextDrain(sys);
    UpShrinks(t, sys, a);
    DownShrinks(t, sys, a);
    hide Inv, UpWork, DownWork, Survives, Possible, Next;
    PendingGrows(t, sys, a);
  }

  /** What the next act does to the two directions of the connection. */
  lemma UpDrains(t: Setup, sys: System, a: Act)
    requires Inv(t, sys) && !Quiet(sys) && a == NextDrain(sys) && Possible(t, sys, a) && Survives(t, sys, a)
    ensures Linked(t, sys)
    ensures Next(t, sys, a).up ==
            match a
            case UpArrives(n) => Landed(sys.up, n)
            case SeederReads => Read(sys.up, Receive(WireOf(sys.seeder.peers[t.client])).1)
            case SeederHandles => Handled(sys.up)
            case _ => sys.up
  {
    ChannelsAfter(t, sys, a);
    InvLinked(t, sys);
    UpFacts(t, sys, a);
    hide Inv, Next, Possible, Survives, UpAfter, Landed, Read, Handled, Receive, Linked;
  }

  lemma DownDrains(t: Setup, sys: System, a: Act)
    requires Inv(t, sys) && !Quiet(sys) && a == NextDrain(sys) && Possible(t, sys, a) && Survives(t, sys, a)
    ensures Linked(t, sys)
    ensures a.Answer? ==>
              forall k :: 0 <= k < |sys.seeder.pending| ==> Servable(sys.seeder, sys.seeder.pending[k])
    ensures Next(t, sys, a).down ==
            match a
            case DownArrives(n) => Landed(sys.down, n)
            case LeecherReads => Read(sys.down, Receive(WireOf(sys.leecher.peers[t.server])).1)
            case LeecherHandles => Handled(sys.down)
            case Answer => Posted(sys.down, AnswersTo(sys.seeder, t.client, |sys.seeder.pending|))
            case _ => sys.down
  {
    ChannelsAfter(t, sys, a);
    InvLinked(t, sys);
    DownFacts(t, sys, a);
    hide Inv, Next, Possible, Survives, DownAfter, Landed, Read, Handled, Receive, Posted, AnswersTo, Servable, Linked;
  }

  lemma NextReads(sys: System)
    ensures NextDrain(sys).SeederReads? ==> sys.up.transit == [] && sys.up.unread != []
    ensures NextDrain(sys).LeecherReads? ==> sys.down.transit == [] && sys.down.unread != []
  {
  }

  lemma ReadWork(w: Wire, ch: Channel)
    requires Flows(w, ch) && ch.transit == [] && ch.unread != [] && [] !in ch.unread
    ensures UpWork(Read(ch, Receive(w).1)) == UpWork(ch) - 1
    ensures DownWork(Read(ch, Receive(w).1)) == DownWork(ch) - 1
  {
    hide Flows, Read, Receive;
    NextRead(w, ch);
  }

  lemma UpShrinks(t: Setup, sys: System, a: Act)
    requires Inv(t, sys) && !Quiet(sys) && a == NextDrain(sys) && Possible(t, sys, a) && Survives(t, sys, a)
    ensures UpWork(Next(t, sys, a).up) ==
            UpWork(sys.up) - if a.UpArrives? || a.SeederReads? then 1 else if a.SeederHandles? then 7 else 0
  {
    UpDrains(t, sys, a);
    InvChannels(t, sys);
    hide Inv, AllUp, AllDown, Next, Encode, Possible, Survives, Receive, Linked;
    match a {
      case SeederReads =>
        var w := WireOf(sys.seeder.peers[t.client]);
        hide NextDrain, Quiet, UpWork, Read, Flows;
        assert sys.up.transit == [] && sys.up.unread != [] by {
          NextReads(sys);
        }
        ReadWork(w, sys.up);
      case _ => hide Flows, Read;
    }
  }

  lemma PostedWork(ch: Channel, payloads: seq<seq<byte>>)
    ensures DownWork(Posted(ch, payloads)) <= DownWork(ch) + 3 * |payloads| + 1
  {
    hide Encode;
  }

  lemma DownShrinks(t: Setup, sys: System, a: Act)
    requires Inv(t, sys) && !Quiet(sys) && a == NextDrain(sys) && Possible(t, sys, a) && Survives(t, sys, a)
    ensures if a.Answer? then DownWork(Next(t, sys, a).down) <= DownWork(sys.down) + 3 * |sys.seeder.pending| + 1
            else DownWork(Next(t, sys, a).down) ==
                 DownWork(sys.down) -
                 if a.DownArrives? || a.LeecherReads? then 1 else if a.LeecherHandles? then 2 else 0
  {
    DownDrains(t, sys, a);
    InvChannels(t, sys);
    hide Inv, AllUp, AllDown, Next, Encode, Possible, Survives, Receive, Linked, AnswersTo, Posted, Servable;
    match a {
      case LeecherReads =>
        var w := WireOf(sys.leecher.peers[t.server]);
        hide NextDrain, Quiet, DownWork, Read, Flows;
        assert sys.down.transit == [] && sys.down.unread != [] by {
          NextReads(sys);
        }
        ReadWork(w, sys.down);
      case Answer =>
        var s := sys.seeder;
        hide NextDrain, Quiet, DownWork, Read, Flows;
        AnswersAtMost(s, t.client, |s.pending|);
        PostedWork(sys.down, AnswersTo(s, t.client, |s.pending|));
      case _ => hide Flows, Read;
    }
  }

  /** The seeder's queue grows at most by the request it handles, and answering empties it. */
  lemma PendingGrows(t: Setup, sys: System, a: Act)
    requires Possible(t, sys, a) && Survives(t, sys, a) && Drains(a)
    ensures |Next(t, sys, a).seeder.pending| <=
            if a.Answer? then 0 else |sys.seeder.pending| + if a.SeederHandles? then 1 else 0
    ensures a.Answer? ==>
              forall k :: 0 <= k < |sys.seeder.pending| ==> Servable(sys.seeder, sys.seeder.pending[k])
  {
    var e := SeederEvent(t, sys, a);
    if e.Some? {
      PendingAfter(t.hash, sys.seeder, e.value);
    }
    hide Step, Enabled, UpAfter, DownAfter, Possible;
  }

  // ---------- what stays while draining ----------

  /** The seeder has unchoked the leecher and announced every piece. */
  predicate Served(t: Setup, s: State) {
    t.server < |s.peers| && !s.peers[t.server].weChoked && |s.peers[t.server].hasPiece| == t.n &&
    forall i :: 0 <= i < t.n ==> s.peers[t.server].hasPiece[i]
  }

  /** No other peer is connected. */
  predicate Alone(t: Setup, s: State) {
    forall p :: 0 <= p < |s.peers| && p != t.server ==> s.peers[p].stream.None?
  }

  predicate Usable(t: Setup, s: State) { Served(t, s) && Alone(t, s) }

  /** Acts that leave the other peers alone. */
  predicate Local(a: Act) { Drains(a) || a.Schedule? || (a.LeecherElse? && a.e.Expire?) }

  /** Acts that bring the leecher no blocks from other peers. */
  predicate Sheltered(a: Act) { a.LeecherElse? ==> a.e.Expire? }

  predicate AllSheltered(acts: seq<Act>) { forall k :: 0 <= k < |acts| ==> Sheltered(acts[k]) }

  predicate AllLocal(acts: seq<Act>) { forall k :: 0 <= k < |acts| ==> Local(acts[k]) }

  /** The leecher's clock after an act: scheduling and expiry read it. */
  function ClockAt(a: Act, clock: nat): nat {
    match a
    case Schedule(now, _) => now
    case LeecherElse(Expire(now)) => now
    case _ => clock
  }

  /** The clock does not run backwards between `from` and `to`. */
  predicate ClockRuns(acts: seq<Act>, from: nat, to: nat) {
    if acts == [] then from <= to
    else from <= ClockAt(acts[0], from) && ClockRuns(acts[1..], ClockAt(acts[0], from), to)
  }

  lemma {:induction false} ClockOn(first: seq<Act>, second: seq<Act>, from: nat, mid: nat, to: nat)
    requires ClockRuns(first, from, mid) && ClockRuns(second, mid, to)
    ensures ClockRuns(first + second, from, to)
  {
    if first == [] {
      assert first + second == second;
      ClockEarlier(second, from, mid, to);
    } else {
      assert (first + second)[1..] == first[1..] + second;
      ClockOn(first[1..], second, ClockAt(first[0], from), mid, to);
    }
  }

  lemma {:induction false} ClockEarlier(acts: seq<Act>, from: nat, mid: nat, to: nat)
    requires ClockRuns(acts, mid, to) && from <= mid
    ensures ClockRuns(acts, from, to)
  {
    if acts != [] && ClockAt(acts[0], from) == from {
      ClockEarlier(acts[1..], from, ClockAt(acts[0], mid), to);
    }
  }

  lemma {:induction false} NoTimePasses(acts: seq<Act>, clock: nat)
    requires forall k :: 0 <= k < |acts| ==> ClockAt(acts[k], clock) == clock
    ensures ClockRuns(acts, clock, clock)
  {
    if acts != [] {
      NoTimePasses(acts[1..], clock);
    }
  }

  lemma DeliveryKeepsUsable(t: Setup, s: State, payload: seq<byte>)
    requires Sensible(t) && DownPayload(t, payload) && Usable(t, s) && |s.pieces| == t.n
    requires Enabled(s, Deliver(t.server, Decode(payload)))
    ensures Usable(t, Step(t.hash, s, Deliver(t.server, Decode(payload))))
  {
    var m := Decode(payload).message;
    if m.Piece? {
      PieceKeepsUsable(t, s, m.index, m.offset, m.data);
    }
  }

  lemma PieceKeepsUsable(t: Setup, s: State, i: nat, begin: nat, data: seq<byte>)
    requires Usable(t, s) && PieceInRange(s, i, begin, data)
    ensures Usable(t, ReceivePiece(t.hash, s, t.server, i, begin, data))
  {
  }

  lemma LocalKeepsUsable(t: Setup, sys: System, a: Act)
    requires Inv(t, sys) && Possible(t, sys, a) && Survives(t, sys, a) && Local(a) && Usable(t, sys.leecher)
    ensures Usable(t, Next(t, sys, a).leecher)
  {
    hide SeederFine, UpFine, Flows, Recoverable, Bounded;
    if a.LeecherHandles? {
      DeliveryKeepsUsable(t, sys.leecher, sys.down.mail[0]);
    }
  }

  /** What a run of such acts leaves intact. */
  ghost predicate Follows(t: Setup, sys: System, sys': System) {
    Inv(t, sys') && Usable(t, sys'.leecher) && Advances(t, sys, sys')
  }

  lemma ShelteredHonest(t: Setup, sys: System, a: Act)
    requires Inv(t, sys) && Possible(t, sys, a) && Sheltered(a)
    ensures HonestAct(t, sys, a)
  {
    hide Inv, Enabled, Tolerable, DeliversOriginal, KeepsLink, Receive, Honest, WireOf, Decode, Linked, Genuine;
    LeecherSurvives(t, sys, a);
    hide Possible;
    if !a.LeecherHandles? && LeecherEvent(t, sys, a).Some? {
      ShelteredPieces(t, sys, a);
    }
  }

  lemma ShelteredPieces(t: Setup, sys: System, a: Act)
    requires Linked(t, sys) && Sheltered(a) && !a.LeecherHandles? && LeecherEvent(t, sys, a).Some?
    ensures Honest(t, sys.leecher, LeecherEvent(t, sys, a).value)
  {
    hide Receive;
  }

  /** A leecher without corrupt data gets none by such acts. */
  lemma ShelteredOnTrack(t: Setup, sys: System, a: Act)
    requires Inv(t, sys) && Possible(t, sys, a) && Survives(t, sys, a) && Sheltered(a)
    requires OnTrack(t.hash, sys.leecher, t.original)
    ensures OnTrack(t.hash, Next(t, sys, a).leecher, t.original)
  {
    ShelteredHonest(t, sys, a);
    LeecherNext(t, sys, a);
    hide Inv, Possible, Survives, Next, LeecherEvent, Step, OnTrack, Enabled, DeliversOriginal, Reopened, Resumable;
    if a.Reconnect? {
      ReopenedOnTrack(t, sys.leecher, a.leecherNoticed);
    }
    var e := LeecherEvent(t, sys, a);
    if e.Some? {
      StepOnTrack(t.hash, sys.leecher, e.value, t.original);
    }
  }

  lemma {:induction false} ShelteredRun(t: Setup, sys: System, acts: seq<Act>, sys': System)
    requires Inv(t, sys) && Run(t, sys, acts, sys') && AllSheltered(acts) && OnTrack(t.hash, sys.leecher, t.original)
    ensures Inv(t, sys') && OnTrack(t.hash, sys'.leecher, t.original)
    decreases |acts|
  {
    hide Inv, Possible, Survives, Next, OnTrack, Sheltered;
    if acts != [] {
      ActKeeps(t, sys, acts[0]);
      ShelteredOnTrack(t, sys, acts[0]);
      ShelteredRun(t, Next(t, sys, acts[0]), acts[1..], sys');
    }
  }

  /** Nor is it ever fooled by the seeder's blocks. */
  lemma OnTrackNotFooled(t: Setup, sys: System)
    requires Inv(t, sys) && OnTrack(t.hash, sys.leecher, t.original)
    ensures !Fooled(t, sys)
  {
    if Fooled(t, sys) {
      var a := LeecherHandles;
      LeecherSurvives(t, sys, a);
      hide Inv, OnTrack, Enabled, Unfooled, LeecherEvent, DeliversOriginal, Tolerable;
      OnTrackUnfooled(t.hash, sys.leecher, LeecherEvent(t, sys, a).value, t.original);
    }
  }

  lemma LocalIsSheltered(a: Act)
    requires Local(a)
    ensures Sheltered(a) && !a.Reconnect?
  {
  }

  lemma LocalFollows(t: Setup, sys: System, a: Act)
    requires Inv(t, sys) && Possible(t, sys, a) && Local(a) && Usable(t, sys.leecher)
    ensures Survives(t, sys, a) && Follows(t, sys, Next(t, sys, a))
  {
    LocalIsSheltered(a);
    hide Inv, Possible, Survives, Usable, Advances, NotFarther, Next, Local, Sheltered, HonestAct, FailsAt;
    ActKeeps(t, sys, a);
    ShelteredHonest(t, sys, a);
    LocalKeepsUsable(t, sys, a);
    ActAdvances(t, sys, a);
  }

  lemma RunFrom(t: Setup, sys: System, a: Act, rest: seq<Act>, sys': System, from: nat, to: nat)
    requires Possible(t, sys, a) && Survives(t, sys, a) && Run(t, Next(t, sys, a), rest, sys')
    requires Local(a) && AllLocal(rest) && from <= ClockAt(a, from) && ClockRuns(rest, ClockAt(a, from), to)
    ensures Run(t, sys, [a] + rest, sys') && AllLocal([a] + rest) && ClockRuns([a] + rest, from, to)
  {
    hide Possible, Survives, Next, Local;
    assert ([a] + rest)[1..] == rest;
  }

  /** However the two clients stand, what is under way can be delivered and answered, unless a
      check is fooled on the way. */
  lemma Drain(t: Setup, sys: System, clock: nat) returns (acts: seq<Act>, sys': System)
    requires Inv(t, sys) && Usable(t, sys.leecher)
    ensures Run(t, sys, acts, sys') && AllLocal(acts) && ClockRuns(acts, clock, clock)
    ensures Follows(t, sys, sys') && (Quiet(sys') || Fooled(t, sys'))
    decreases Work(sys)
  {
    hide Inv, Possible, Survives, Next, Usable, Work, Quiet, NextDrain, Got, Local, Fooled;
    if Quiet(sys) || Fooled(t, sys) {
      acts, sys' := [], sys;
    } else {
      var a := NextDrain(sys);
      DrainPossible(t, sys);
      DrainsOnly(sys);
      LocalFollows(t, sys, a);
      DrainShrinks(t, sys);
      var rest;
      rest, sys' := Drain(t, Next(t, sys, a), clock);
      RunFrom(t, sys, a, rest, sys', clock, clock);
      acts := [a] + rest;
    }
  }

  lemma DrainsOnly(sys: System)
    ensures Local(NextDrain(sys)) && forall clock :: ClockAt(NextDrain(sys), clock) == clock
  {
  }

  lemma {:induction false} RunOn(t: Setup, sys: System, first: seq<Act>, sys1: System, second: seq<Act>, sys2: System)
    requires Run(t, sys, first, sys1) && Run(t, sys1, second, sys2)
    ensures Run(t, sys, first + second, sys2)
    decreases |first|
  {
    hide Possible, Survives, Next;
    if first == [] {
      assert first + second == second;
    } else {
      assert (first + second)[1..] == first[1..] + second;
      RunOn(t, Next(t, sys, first[0]), first[1..], sys1, second, sys2);
    }
  }

  // ---------- one round of requests ----------

  lemma ExpiryClears(s: State, now: nat)
    requires AllExpired(s, now)
    ensures RecordsBefore(s, now)
    ensures NoRecords(RemoveExpired(s, now))
    ensures forall i, b :: Got(s, i, b) <==> Got(RemoveExpired(s, now), i, b)
  {
    AllExpiredNoRecords(s, now);
    var s' := RemoveExpired(s, now);
    forall i, b ensures Got(s, i, b) <==> Got(s', i, b) {
      if InPieces(s, i, b) {
        assert BlockAt(s', i, b) == ExpireBlock(BlockAt(s, i, b), now);
      }
    }
  }

  lemma ExpireIsPossible(t: Setup, sys: System, now: nat)
    requires Linked(t, sys) && RecordsBefore(sys.leecher, now)
    ensures var a := LeecherElse(Expire(now));
            Possible(t, sys, a) && Survives(t, sys, a) &&
            Next(t, sys, a) == sys.(leecher := RemoveExpired(sys.leecher, now))
  {
  }

  /** Waiting long enough clears all records. */
  lemma Wait(t: Setup, sys: System, clock: nat) returns (a: Act)
    requires Inv(t, sys)
    ensures clock <= ClockAt(a, clock)
    ensures Local(a) && Possible(t, sys, a) && Survives(t, sys, a)
    ensures var sys' := Next(t, sys, a);
            NoRecords(sys'.leecher) && sys' == sys.(leecher := sys'.leecher) &&
            (forall i, b :: Got(sys.leecher, i, b) <==> Got(sys'.leecher, i, b))
  {
    assert Linked(t, sys);
    hide Inv, NoRecords, Got, RecordsBefore, RemoveExpired, Linked, AllExpired, Possible, Survives, Next;
    var now := LateEnoughForAll(sys.leecher, clock);
    a := LeecherElse(Expire(now));
    ExpiryClears(sys.leecher, now);
    ExpireIsPossible(t, sys, now);
  }

  lemma ServerEligible(t: Setup, s: State, i: nat)
    requires LeecherFine(t, s) && NoRecords(s) && Served(t, s) && i < t.n
    ensures Eligible(s.peers[t.server], i, 0)
  {
    NoRecordsOf(s, t.server, |s.pieces|);
    assert s.peers[t.server].outstanding <= RecordsOf(s, t.server);
  }

  lemma MissingIsCandidate(hash: Hash, s: State, i: nat, b: nat)
    requires Verified(hash, s) && NoRecords(s) && InPieces(s, i, b) && !BlockAt(s, i, b).downloaded
    ensures Candidate(s.pieces, i, b)
  {
    assert PieceVerified(hash, s.content, s.pieces[i]);
    assert BlockAt(s, i, b).record.None?;
  }

  lemma ScheduleNotEmpty(s: State, reqs: seq<BlockRequest>, i: nat, b: nat, p: nat)
    requires IsSchedule(s, reqs) && Candidate(s.pieces, i, b) && p < |s.peers| && Eligible(s.peers[p], i, 0)
    ensures reqs != []
  {
    assert Settled(s.peers, reqs, i, b) && EligibleAfter(s.peers, p, i, reqs, 0);
    if reqs == [] {
      var n :| Skipped(s.peers, reqs, i, b, n);
      assert false;
    }
  }

  lemma FirstRequest(s: State, reqs: seq<BlockRequest>)
    requires IsSchedule(s, reqs) && reqs != []
    ensures Candidate(s.pieces, reqs[0].pieceId, reqs[0].blockId)
    ensures reqs[0].peerId < |s.peers| && s.peers[reqs[0].peerId].stream.Some?
  {
    assert LowestEligible(s.peers, reqs[0].peerId, reqs[0].pieceId, reqs, 0);
  }

  /** With no records and a missing block, a schedule asks the seeder for some missing block. */
  lemma SomethingAsked(t: Setup, s: State, reqs: seq<BlockRequest>, i: nat, b: nat)
    requires LeecherFine(t, s) && NoRecords(s) && Usable(t, s) && IsSchedule(s, reqs)
    requires InPieces(s, i, b) && !Got(s, i, b)
    ensures reqs != [] && reqs[0].peerId == t.server && !Got(s, reqs[0].pieceId, reqs[0].blockId)
  {
    ServerEligible(t, s, i);
    MissingIsCandidate(t.hash, s, i, b);
    hide LeecherFine, IsSchedule, NoRecords, Served, Eligible;
    ScheduleNotEmpty(s, reqs, i, b, t.server);
    FirstRequest(s, reqs);
  }

  /** With other peers connected too, the schedule asks the seeder exactly when the peers before it
      leave some block the tick has room for. */
  lemma SeederAskedIff(t: Setup, s: State, reqs: seq<BlockRequest>, below: seq<BlockRequest>)
    requires LeecherFine(t, s) && NoRecords(s) && Served(t, s) && IsSchedule(s, reqs)
    requires IsSchedule(Below(s, t.server), below)
    ensures Asked(reqs, t.server) <==> Leaves(s, below)
  {
    forall i, b | Candidate(s.pieces, i, b) ensures Eligible(s.peers[t.server], i, 0) {
      ServerEligible(t, s, i);
    }
    hide LeecherFine, IsSchedule, Leaves;
    AskedIff(s, t.server, reqs, below);
  }

  // ---------- completion ----------

  lemma FollowsOn(t: Setup, sys: System, sys1: System, sys2: System)
    requires Follows(t, sys, sys1) && Follows(t, sys1, sys2)
    ensures Follows(t, sys, sys2)
  {
    hide Inv, Usable, Advances;
    AdvancesOn(t, sys, sys1, sys2);
  }

  /** When a missing block was asked for and nothing is under way any more, the download is nearer
      to its end: the block arrived, or corrupt data was found and thrown away. */
  lemma AskedBringsNearer(t: Setup, sys: System, sys1: System, sys': System, j: nat, c: nat)
    requires Advances(t, sys, sys1) && Advances(t, sys1, sys') && Inv(t, sys') && Quiet(sys')
    requires (j, c) in sys1.asked && !Got(sys.leecher, j, c)
    ensures Distance(sys'.leecher, t.original) < Distance(sys.leecher, t.original)
  {
    hide Distance, Inv, Quiet, Got;
    if (j, c) in sys'.asked {
      QuietMeansGot(t, sys', j, c);
    }
  }

  /** Asking, and letting everything arrive, brings the download nearer to its end or fools a
      check. */
  lemma AskAndDrain(t: Setup, sys: System, i: nat, b: nat, now: nat) returns (acts: seq<Act>, sys': System)
    requires Inv(t, sys) && NoRecords(sys.leecher) && Usable(t, sys.leecher)
    requires InPieces(sys.leecher, i, b) && !Got(sys.leecher, i, b)
    ensures Run(t, sys, acts, sys') && AllLocal(acts) && ClockRuns(acts, now, now) && Follows(t, sys, sys')
    ensures Fooled(t, sys') || Distance(sys'.leecher, t.original) < Distance(sys.leecher, t.original)
  {
    var ask, j, c := AskForOne(t, sys, i, b, now);
    LocalFollows(t, sys, ask);
    hide Inv, Possible, Survives, Next, Usable, Quiet, Got, NoRecords, Distance, Local, AllLocal, Run,
         ClockRuns, ClockAt, Advances, Fooled;
    var sys1 := Next(t, sys, ask);
    var rest;
    rest, sys' := Drain(t, sys1, now);
    FollowsOn(t, sys, sys1, sys');
    if !Fooled(t, sys') {
      AskedBringsNearer(t, sys, sys1, sys', j, c);
    }
    RunFrom(t, sys, ask, rest, sys', now, now);
    acts := [ask] + rest;
  }

  /** One round: wait, ask, and let everything arrive. */
  lemma Round(t: Setup, sys: System, clock: nat) returns (acts: seq<Act>, sys': System, later: nat)
    requires Inv(t, sys) && Usable(t, sys.leecher) && 0 < MissingBlocks(sys.leecher)
    ensures Run(t, sys, acts, sys') && AllLocal(acts) && ClockRuns(acts, clock, later) && Follows(t, sys, sys')
    ensures Fooled(t, sys') || Distance(sys'.leecher, t.original) < Distance(sys.leecher, t.original)
  {
    var wait := Wait(t, sys, clock);
    later := ClockAt(wait, clock);
    LocalFollows(t, sys, wait);
    var i, b := MissingOne(t, sys.leecher);
    hide Inv, Possible, Survives, Next, Usable, Quiet, Got, NoRecords, MissingBlocks, Local, AllLocal, Run,
         ClockRuns, ClockAt, Distance, Fooled;
    var sys1 := Next(t, sys, wait);
    assert InPieces(sys1.leecher, i, b) && !Got(sys1.leecher, i, b) by {
      SameBlockCounts(t, sys, sys1);
    }
    var rest;
    rest, sys' := AskAndDrain(t, sys1, i, b, later);
    FollowsOn(t, sys, sys1, sys');
    RunFrom(t, sys, wait, rest, sys', clock, later);
    acts := [wait] + rest;
  }

  lemma SameBlockCounts(t: Setup, sys: System, sys': System)
    requires Inv(t, sys) && Inv(t, sys')
    ensures SameShape(sys.leecher.pieces, sys'.leecher.pieces)
  {
    var s, s' := sys.leecher, sys'.leecher;
    assert Laid(t, s) && Laid(t, s');
    hide Inv;
    forall k | 0 <= k < |s.pieces| ensures |s.pieces[k].blocks| == |s'.pieces[k].blocks| {
      assert PieceShaped(|s.content|, s.pieceLength, |s.pieces|, k, s.pieces[k]);
      assert PieceShaped(|s'.content|, s'.pieceLength, |s'.pieces|, k, s'.pieces[k]);
    }
  }

  lemma MissingOne(t: Setup, s: State) returns (i: nat, b: nat)
    requires 0 < MissingBlocks(s)
    ensures InPieces(s, i, b) && !Got(s, i, b)
  {
    MissingInPieces(s.pieces, |s.pieces|);
    var k :| 0 <= k < |s.pieces| && !AllBlocks(s.pieces[k].blocks);
    var c :| 0 <= c < |s.pieces[k].blocks| && !s.pieces[k].blocks[c].downloaded;
    i, b := k, c;
  }

  /** The one greedy schedule asks the seeder for a missing block. */
  lemma AskForOne(t: Setup, sys: System, i: nat, b: nat, now: nat) returns (a: Act, j: nat, c: nat)
    requires Inv(t, sys) && NoRecords(sys.leecher) && Usable(t, sys.leecher)
    requires InPieces(sys.leecher, i, b) && !Got(sys.leecher, i, b)
    ensures Local(a) && Possible(t, sys, a) && Survives(t, sys, a) && ClockAt(a, now) == now
    ensures (j, c) in Next(t, sys, a).asked && !Got(sys.leecher, j, c) && InPieces(sys.leecher, j, c)
  {
    var s := sys.leecher;
    var reqs := ScheduleExists(s);
    SomethingAsked(t, s, reqs, i, b);
    a := Schedule(now, reqs);
    j, c := reqs[0].pieceId, reqs[0].blockId;
    assert Possible(t, sys, a);
    ActSurvives(t, sys, a);
    assert (j, c) in BlocksAsked(reqs, t.server);
  }

  /** A finite run of nothing but waiting for expiry, scheduling, delivering, reading, handling
      and answering leads from `sys` to a system in which the download is complete. */
  ghost predicate CanFinish(t: Setup, sys: System, clock: nat) {
    exists acts, sys', end ::
      Run(t, sys, acts, sys') && AllLocal(acts) && ClockRuns(acts, clock, end) && Finished(t, sys'.leecher)
  }

  /** Such a run leads to a message that makes a piece pass its check on wrong bytes. */
  ghost predicate CanBeFooled(t: Setup, sys: System, clock: nat) {
    exists acts, sys', end ::
      Run(t, sys, acts, sys') && AllLocal(acts) && ClockRuns(acts, clock, end) && Fooled(t, sys')
  }

  /** The original content, all of it verified, and marked downloaded. */
  predicate Finished(t: Setup, s: State) {
    s.content == t.original && s.downloaded && MissingBlocks(s) == 0 &&
    forall i :: 0 <= i < |s.pieces| ==> HashMatches(t.hash, s.content, s.pieces[i])
  }

  lemma NothingMissingFinished(t: Setup, sys: System)
    requires Inv(t, sys) && MissingBlocks(sys.leecher) == 0
    ensures Finished(t, sys.leecher)
  {
    NothingMissingMeansOriginal(t.hash, sys.leecher, t.original);
  }

  lemma FinishedLater(t: Setup, sys: System, first: seq<Act>, sys1: System, clock: nat, later: nat)
    requires Run(t, sys, first, sys1) && AllLocal(first) && ClockRuns(first, clock, later)
    ensures CanFinish(t, sys1, later) ==> CanFinish(t, sys, clock)
    ensures CanBeFooled(t, sys1, later) ==> CanBeFooled(t, sys, clock)
  {
    hide Run, ClockRuns, Finished, Fooled, Local;
    if CanFinish(t, sys1, later) {
      var rest, sys', end :|
        Run(t, sys1, rest, sys') && AllLocal(rest) && ClockRuns(rest, later, end) && Finished(t, sys'.leecher);
      RunOn(t, sys, first, sys1, rest, sys');
      ClockOn(first, rest, clock, later, end);
      assert AllLocal(first + rest);
    }
    if CanBeFooled(t, sys1, later) {
      var rest, sys', end :|
        Run(t, sys1, rest, sys') && AllLocal(rest) && ClockRuns(rest, later, end) && Fooled(t, sys');
      RunOn(t, sys, first, sys1, rest, sys');
      ClockOn(first, rest, clock, later, end);
      assert AllLocal(first + rest);
    }
  }

  /** From every state of the two clients, however it came about, a leecher whose only
      connection is to a seeder that has unchoked it and announced all pieces can complete
      its download, whatever corrupt blocks from others are among what it has: waiting for
      requests to expire, asking by the greedy schedule, and delivering, serving and handling
      what is under way. All that can come in between is a piece that passes its check on
      wrong bytes. */
  lemma AlwaysCanFinish(t: Setup, sys: System, clock: nat)
    requires Inv(t, sys) && Usable(t, sys.leecher)
    ensures CanFinish(t, sys, clock) || CanBeFooled(t, sys, clock)
    decreases Distance(sys.leecher, t.original)
  {
    hide Inv, Finished, Usable, MissingBlocks, Distance, Quiet, Possible, Survives, Next, Got, Fooled;
    if MissingBlocks(sys.leecher) == 0 {
      NothingMissingFinished(t, sys);
      assert Run(t, sys, [], sys) && ClockRuns([], clock, clock);
    } else {
      hide Run, ClockRuns;
      var first, sys1, later := Round(t, sys, clock);
      if !Fooled(t, sys1) {
        hide CanFinish, CanBeFooled;
        AlwaysCanFinish(t, sys1, later);
        FinishedLater(t, sys, first, sys1, clock, later);
      }
    }
  }

  lemma NeverFooledOnTrack(t: Setup, sys: System, clock: nat)
    requires Inv(t, sys) && OnTrack(t.hash, sys.leecher, t.original)
    ensures !CanBeFooled(t, sys, clock)
  {
    hide Inv, OnTrack, Fooled, Run, ClockRuns, Sheltered, Local;
    if CanBeFooled(t, sys, clock) {
      var acts, sys', end :|
        Run(t, sys, acts, sys') && AllLocal(acts) && ClockRuns(acts, clock, end) && Fooled(t, sys');
      LocalSheltered(acts);
      ShelteredRun(t, sys, acts, sys');
      OnTrackNotFooled(t, sys');
    }
  }

  lemma LocalSheltered(acts: seq<Act>)
    requires AllLocal(acts)
    ensures AllSheltered(acts)
  {
    forall k | 0 <= k < |acts| ensures Sheltered(acts[k]) {
      assert Local(acts[k]);
    }
  }

  /** And a leecher that holds no corrupt data can complete it, whatever the hash. */
  lemma CleanCanFinish(t: Setup, sys: System, clock: nat)
    requires Inv(t, sys) && Usable(t, sys.leecher) && OnTrack(t.hash, sys.leecher, t.original)
    ensures CanFinish(t, sys, clock)
  {
    hide CanFinish, CanBeFooled, Inv, Usable, OnTrack;
    AlwaysCanFinish(t, sys, clock);
    NeverFooledOnTrack(t, sys, clock);
  }

  // ---------- every run that keeps asking finishes ----------

  /** A stretch of a run without corrupt data: anything, then a schedule, then anything but a lost
      connection until nothing is under way. */
  datatype Stretch = Stretch(before: seq<Act>, mid: System, now: nat, reqs: seq<BlockRequest>, after: seq<Act>,
                             end: System)

  /** The schedule asks the seeder for something, as it does whenever all records have expired
      and the seeder is the one usable peer. */
  ghost predicate Asking(t: Setup, s: State, reqs: seq<BlockRequest>) {
    (NoRecords(s) && Usable(t, s)) || Asked(reqs, t.server)
  }

  ghost predicate IsStretch(t: Setup, sys: System, r: Stretch) {
    var a := Schedule(r.now, r.reqs);
    CleanRun(t, sys, r.before, r.mid) && Asking(t, r.mid.leecher, r.reqs) &&
    Possible(t, r.mid, a) && Survives(t, r.mid, a) &&
    CleanRun(t, Next(t, r.mid, a), r.after, r.end) && Steady(r.after) && Quiet(r.end)
  }

  ghost predicate Stretches(t: Setup, sys: System, rs: seq<Stretch>)
    decreases |rs|
  {
    rs == [] || (IsStretch(t, sys, rs[0]) && Stretches(t, rs[0].end, rs[1..]))
  }

  function EndOf(sys: System, rs: seq<Stretch>): System { if rs == [] then sys else rs[|rs| - 1].end }

  lemma RequestedIsMissing(t: Setup, sys: System, now: nat, reqs: seq<BlockRequest>, k: nat)
    requires Inv(t, sys) && Possible(t, sys, Schedule(now, reqs)) && Survives(t, sys, Schedule(now, reqs))
    requires k < |reqs| && reqs[k].peerId == t.server
    ensures (reqs[k].pieceId, reqs[k].blockId) in Next(t, sys, Schedule(now, reqs)).asked
    ensures !Got(sys.leecher, reqs[k].pieceId, reqs[k].blockId)
  {
    assert Candidate(sys.leecher.pieces, reqs[k].pieceId, reqs[k].blockId);
    hide Inv;
    assert (reqs[k].pieceId, reqs[k].blockId) in BlocksAsked(reqs, t.server);
  }

  /** Every such schedule asks for a missing block while there is one. */
  lemma AskingAsks(t: Setup, sys: System, now: nat, reqs: seq<BlockRequest>) returns (j: nat, c: nat)
    requires Inv(t, sys) && Asking(t, sys.leecher, reqs) && 0 < MissingBlocks(sys.leecher)
    requires Possible(t, sys, Schedule(now, reqs)) && Survives(t, sys, Schedule(now, reqs))
    ensures (j, c) in Next(t, sys, Schedule(now, reqs)).asked && !Got(sys.leecher, j, c)
  {
    var k := 0;
    if Asked(reqs, t.server) {
      k :| 0 <= k < |reqs| && reqs[k].peerId == t.server;
    } else {
      var i, b := MissingOne(t, sys.leecher);
      SomethingAsked(t, sys.leecher, reqs, i, b);
    }
    hide Inv, Possible, Survives, Next, Got;
    RequestedIsMissing(t, sys, now, reqs, k);
    j, c := reqs[k].pieceId, reqs[k].blockId;
  }

  /** A complete download is at distance zero: no corrupt data is left in it. */
  lemma NothingMissingNoDistance(t: Setup, sys: System)
    requires Inv(t, sys) && MissingBlocks(sys.leecher) == 0
    ensures Distance(sys.leecher, t.original) == 0
  {
    var s := sys.leecher;
    MissingInPieces(s.pieces, |s.pieces|);
    assert Recoverable(t.hash, s, t.original);
    hide Inv, Recoverable, Clean;
    forall i | 0 <= i < |s.pieces| ensures Clean(s.content, s.pieces[i], t.original) {
      FullIsClean(t.hash, s, i, t.original);
    }
    RecoverableSize(t.hash, s, t.original);
    DebtIsMissing(s, t.original, |s.pieces|);
  }

  lemma DistanceBoundsMissing(t: Setup, s: State)
    ensures MissingBlocks(s) <= Distance(s, t.original)
  {
    DebtIsMissing(s, t.original, |s.pieces|);
  }

  lemma ScheduleHonest(t: Setup, sys: System, now: nat, reqs: seq<BlockRequest>)
    requires Possible(t, sys, Schedule(now, reqs))
    ensures HonestAct(t, sys, Schedule(now, reqs))
  {
  }

  /** A stretch brings the download nearer to its end, if it is not there already. */
  lemma StretchAdvances(t: Setup, sys: System, r: Stretch)
    requires Inv(t, sys) && IsStretch(t, sys, r)
    ensures Inv(t, r.end)
    ensures Distance(r.end.leecher, t.original) < Distance(sys.leecher, t.original) ||
            Distance(r.end.leecher, t.original) == 0
  {
    var a := Schedule(r.now, r.reqs);
    hide Inv, Possible, Survives, Next, CleanRun, Distance, MissingBlocks, Got, Quiet, Asking;
    CleanRunAdvances(t, sys, r.before, r.mid);
    ActKeeps(t, r.mid, a);
    ScheduleHonest(t, r.mid, r.now, r.reqs);
    ActAdvances(t, r.mid, a);
    var sys1 := Next(t, r.mid, a);
    CleanRunAdvances(t, sys1, r.after, r.end);
    if MissingBlocks(r.mid.leecher) == 0 {
      NothingMissingNoDistance(t, r.mid);
    } else {
      var j, c := AskingAsks(t, r.mid, r.now, r.reqs);
      AskedBringsNearer(t, r.mid, sys1, r.end, j, c);
    }
  }

  lemma {:induction false} StretchesAdvance(t: Setup, sys: System, rs: seq<Stretch>)
    requires Inv(t, sys) && Stretches(t, sys, rs)
    ensures Inv(t, EndOf(sys, rs))
    ensures Distance(EndOf(sys, rs).leecher, t.original) + |rs| <= Distance(sys.leecher, t.original) ||
            Distance(EndOf(sys, rs).leecher, t.original) == 0
    decreases |rs|
  {
    hide Inv, IsStretch, Distance;
    if rs != [] {
      StretchAdvances(t, sys, rs[0]);
      StretchesAdvance(t, rs[0].end, rs[1..]);
      assert EndOf(sys, rs) == EndOf(rs[0].end, rs[1..]);
    }
  }

  /** Every run without further corrupt data that keeps asking finishes, and stays so: after as
      many stretches as the download was away from its end, whatever else happens in and after
      them, the leecher holds the original, verified and marked downloaded. */
  lemma AlwaysFinishes(t: Setup, sys: System, rs: seq<Stretch>, rest: seq<Act>, sys': System)
    requires Inv(t, sys) && Stretches(t, sys, rs) && Distance(sys.leecher, t.original) <= |rs|
    requires CleanRun(t, EndOf(sys, rs), rest, sys')
    ensures Finished(t, sys'.leecher)
  {
    hide Inv, Stretches, CleanRun, Distance, MissingBlocks, Finished;
    StretchesAdvance(t, sys, rs);
    CleanRunAdvances(t, EndOf(sys, rs), rest, sys');
    DistanceBoundsMissing(t, sys'.leecher);
    NothingMissingFinished(t, sys');
  }

  // ---------- from the very start ----------

  /** Two new clients that have just connected: the leecher with whatever content it found on
      disk, the seeder with the original. */
  ghost function Fresh(t: Setup, content: seq<byte>, shas: seq<Sha1>): System
    requires Cuttable(|content|, t.pieceLength, |shas|) && Cuttable(|t.original|, t.pieceLength, |shas|)
  {
    System(Register(InitialState(t.hash, content, t.pieceLength, shas), Some(Stream([], false))),
           Register(InitialState(t.hash, t.original, t.pieceLength, shas), Some(Stream([], false))),
           Channel([], [], []), Channel([], [], []), {})
  }

  /** No piece of what the leecher found collides with the original. */
  predicate FreshStart(t: Setup, content: seq<byte>, shas: seq<Sha1>) {
    Sensible(t) && t.client == t.server == 0 && |shas| == t.n && |content| == |t.original| &&
    var s := InitialState(t.hash, content, t.pieceLength, shas);
    TorrentOf(t.hash, s.pieces, t.original) && Separates(t.hash, s, t.original)
  }

  /** For one: a torrent of a single piece, whatever the hash, and any content that has either
      another hash or the same bytes. */
  lemma SinglePieceFresh(hash: Hash, original: seq<byte>, content: seq<byte>)
    requires 0 < |original| == |content| <= U32_RANGE
    requires hash(content) == hash(original) ==> content == original
    ensures FreshStart(Setup(hash, original, |original|, 1, 0, 0), content, [hash(original)])
  {
    var s := InitialState(hash, content, |original|, [hash(original)]);
    assert content[0..|content|] == content && original[0..|original|] == original;
    assert s.pieces[0] == InitialPiece(hash, content, |original|, [hash(original)], 0);
  }

  lemma FreshLeecher(t: Setup, content: seq<byte>, shas: seq<Sha1>)
    requires FreshStart(t, content, shas)
    ensures var s := Fresh(t, content, shas).leecher;
            LeecherFine(t, s) && Alone(t, s) && WireOf(s.peers[0]) == Wire([], false, [], 0) &&
            OnTrack(t.hash, s, t.original)
  {
    var start := InitialState(t.hash, content, t.pieceLength, shas);
    InitiallyOnTrack(t.hash, content, t.pieceLength, shas, t.original);
    InitiallyExact(start);
    var e := Join(Some(Stream([], false)));
    StepOnTrack(t.hash, start, e, t.original);
    StepKeepsBounded(t.hash, start, e);
    hide OnTrack, Bounded, InitialState, Recoverable;
    OnTrackRecoverable(t.hash, Step(t.hash, start, e), t.original);
    RecoverableSize(t.hash, Step(t.hash, start, e), t.original);
  }

  lemma FreshSeeder(t: Setup, shas: seq<Sha1>)
    requires Sensible(t) && t.client == 0 && |shas| == t.n
    ensures var s := Register(InitialState(t.hash, t.original, t.pieceLength, shas), Some(Stream([], false)));
            SeederFine(t, s) && WireOf(s.peers[0]) == Wire([], false, [], 0)
  {
    var start := InitialState(t.hash, t.original, t.pieceLength, shas);
    InitialStateSound(t.hash, t.original, t.pieceLength, shas);
    RegisterSound(start, Some(Stream([], false)));
  }

  /** A message the seeder sends when nothing else is under way is what the leecher hears. */
  lemma Tell(t: Setup, sys: System, m: Message, clock: nat) returns (acts: seq<Act>, sys': System)
    requires Inv(t, sys) && Quiet(sys) && Alone(t, sys.leecher) && Possible(t, sys, SeederTells(m))
    ensures Run(t, sys, acts, sys') && ClockRuns(acts, clock, clock) && AllSheltered(acts)
    ensures FieldsFit(m) && SentDown(acts) == Frame(Payload(m))
    ensures Inv(t, sys') && Quiet(sys') && Alone(t, sys'.leecher)
    ensures Linked(t, sys') &&
            var p, p' := sys.leecher.peers[t.server], sys'.leecher.peers[t.server];
            p'.weChoked == (p.weChoked && !m.Unchoke?) &&
            (m.Bitfield? ==> CeilDiv(t.n, 8) <= |m.bytes| && p'.hasPiece == BitfieldFlags(m.bytes, t.n)) &&
            (!m.Bitfield? && !m.Have? ==> p'.hasPiece == p.hasPiece) &&
            (m.Interested? || p.theyInterested ==> p'.theyInterested)
  {
    assert Sensible(t) && Status(t, m);
    hide Inv, Possible, Survives, Next, Payload, Encode, Decode, Readable, Alone, Status, SamePeers;
    StatusFits(t, m);
    var sys1 := TellOne(t, sys, m);
    var sys2, sys3 := Carried(t, sys1, Payload(m));
    AloneKept(t, sys.leecher, sys3.leecher);
    sys' := Heard(t, sys3, m);
    acts := TellActs(m, |sys1.down.transit|);
    NoTimePasses(acts, clock);
    TellSends(m, |sys1.down.transit|);
    hide SentDown, Frame;
    hide TellActs, ClockRuns, ClockAt, Run;
    FourActs(t, sys, acts, sys1, sys2, sys3, sys');
  }

  function TellActs(m: Message, n: nat): (r: seq<Act>)
    ensures |r| == 4 && r[0] == SeederTells(m) && r[1] == DownArrives(n)
    ensures r[2] == LeecherReads && r[3] == LeecherHandles
    ensures forall k, clock :: 0 <= k < 4 ==> ClockAt(r[k], clock) == clock
    ensures AllSheltered(r)
  {
    [SeederTells(m), DownArrives(n), LeecherReads, LeecherHandles]
  }

  /** The bytes the seeder's own messages put on the wire. */
  function SentDown(acts: seq<Act>): seq<byte> {
    if acts == [] then []
    else (if acts[0].SeederTells? && FieldsFit(acts[0].m) then Frame(Payload(acts[0].m)) else []) + SentDown(acts[1..])
  }

  lemma {:induction false} SentDownAppend(a: seq<Act>, b: seq<Act>)
    ensures SentDown(a + b) == SentDown(a) + SentDown(b)
  {
    hide Frame, Payload;
    if a == [] {
      assert a + b == b;
    } else {
      assert (a + b)[1..] == a[1..] + b;
      SentDownAppend(a[1..], b);
    }
  }

  lemma {:induction false} NothingTold(acts: seq<Act>)
    requires forall k :: 0 <= k < |acts| ==> !acts[k].SeederTells?
    ensures SentDown(acts) == []
  {
    if acts != [] {
      NothingTold(acts[1..]);
    }
  }

  lemma TellSends(m: Message, n: nat)
    requires FieldsFit(m)
    ensures SentDown(TellActs(m, n)) == Frame(Payload(m))
  {
    hide Frame, Payload;
    var rest := TellActs(m, n)[1..];
    assert rest == [DownArrives(n), LeecherReads, LeecherHandles];
    NothingTold(rest);
    assert Frame(Payload(m)) + [] == Frame(Payload(m));
  }

  lemma AloneKept(t: Setup, s: State, s': State)
    requires SamePeers(t, s, s') && Alone(t, s)
    ensures Alone(t, s')
    ensures s'.peers[t.server].weChoked == s.peers[t.server].weChoked
    ensures s'.peers[t.server].hasPiece == s.peers[t.server].hasPiece
    ensures s'.peers[t.server].theyInterested == s.peers[t.server].theyInterested
  {
  }

  lemma FourActs(t: Setup, sys: System, acts: seq<Act>, sys1: System, sys2: System, sys3: System, sys': System)
    requires |acts| == 4
    requires Possible(t, sys, acts[0]) && Survives(t, sys, acts[0]) && sys1 == Next(t, sys, acts[0])
    requires Possible(t, sys1, acts[1]) && Survives(t, sys1, acts[1]) && sys2 == Next(t, sys1, acts[1])
    requires Possible(t, sys2, acts[2]) && Survives(t, sys2, acts[2]) && sys3 == Next(t, sys2, acts[2])
    requires Possible(t, sys3, acts[3]) && Survives(t, sys3, acts[3]) && sys' == Next(t, sys3, acts[3])
    ensures Run(t, sys, acts, sys')
  {
    hide Possible, Survives, Next;
    assert acts[1..][0] == acts[1] && acts[1..][1..][0] == acts[2] && acts[1..][1..][1..][0] == acts[3];
    assert acts[1..][1..][1..][1..] == [];
    assert Run(t, sys3, acts[1..][1..][1..], sys');
    assert Run(t, sys2, acts[1..][1..], sys');
  }

  lemma TellOne(t: Setup, sys: System, m: Message) returns (sys1: System)
    requires Inv(t, sys) && Quiet(sys) && Possible(t, sys, SeederTells(m)) && FieldsFit(m)
    ensures Survives(t, sys, SeederTells(m)) && sys1 == Next(t, sys, SeederTells(m)) && Inv(t, sys1)
    ensures sys1 == sys.(down := Channel(Encode([Payload(m)]), [Payload(m)], []))
  {
    hide Payload, Encode, Inv, Possible, Survives, Next;
    ActKeeps(t, sys, SeederTells(m));
    sys1 := Next(t, sys, SeederTells(m));
    TellIs(t, sys, m);
    assert sys1.down == Posted(Channel([], [], []), [Payload(m)]);
  }

  lemma TellIs(t: Setup, sys: System, m: Message)
    requires Possible(t, sys, SeederTells(m)) && Survives(t, sys, SeederTells(m)) && FieldsFit(m)
    ensures Next(t, sys, SeederTells(m)) == sys.(down := Posted(sys.down, [Payload(m)]))
  {
    hide Payload, Posted;
    assert AskedAfter(t, sys, SeederTells(m)) == sys.asked;
  }

  lemma Carried(t: Setup, sys1: System, x: seq<byte>) returns (sys2: System, sys3: System)
    requires Inv(t, sys1) && sys1.down == Channel(sys1.down.transit, [x], [])
    requires sys1.up == Channel([], [], []) && sys1.seeder.pending == []
    ensures var a := DownArrives(|sys1.down.transit|);
            Possible(t, sys1, a) && Survives(t, sys1, a) && sys2 == Next(t, sys1, a)
    ensures Possible(t, sys2, LeecherReads) && Survives(t, sys2, LeecherReads) && sys3 == Next(t, sys2, LeecherReads)
    ensures Inv(t, sys3) && sys3.down == Channel([], [], [x])
    ensures sys3.up == Channel([], [], []) && sys3.seeder == sys1.seeder
    ensures SamePeers(t, sys1.leecher, sys3.leecher)
  {
    var a := DownArrives(|sys1.down.transit|);
    assert Linked(t, sys1);
    ActKeeps(t, sys1, a);
    sys2 := Next(t, sys1, a);
    ArrivesWhole(t, sys1, x);
    hide Inv, Linked, SamePeers, Possible, Survives, Next;
    sys3 := CarriedRead(t, sys2, x);
    SamePeersOn(t, sys1.leecher, sys2.leecher, sys3.leecher);
  }

  lemma ArrivesWhole(t: Setup, sys: System, x: seq<byte>)
    requires sys.down == Channel(sys.down.transit, [x], [])
    requires var a := DownArrives(|sys.down.transit|); Possible(t, sys, a) && Survives(t, sys, a)
    ensures var sys' := Next(t, sys, DownArrives(|sys.down.transit|));
            sys'.down == Channel([], [x], []) && sys'.up == sys.up && sys'.seeder == sys.seeder &&
            SamePeers(t, sys.leecher, sys'.leecher)
  {
    hide Genuine, Survives;
  }

  lemma SamePeersOn(t: Setup, s: State, s1: State, s2: State)
    requires SamePeers(t, s, s1) && SamePeers(t, s1, s2)
    ensures SamePeers(t, s, s2)
  {
  }

  lemma CarriedRead(t: Setup, sys2: System, x: seq<byte>) returns (sys3: System)
    requires Inv(t, sys2) && sys2.down == Channel([], [x], [])
    ensures Possible(t, sys2, LeecherReads) && Survives(t, sys2, LeecherReads)
    ensures sys3 == Next(t, sys2, LeecherReads)
    ensures Inv(t, sys3) && sys3.down == Channel([], [], [x]) && sys3.up == sys2.up && sys3.seeder == sys2.seeder
    ensures SamePeers(t, sys2.leecher, sys3.leecher)
  {
    LeecherReadPossible(t, sys2);
    hide Inv, Read, Receive, Possible, Survives, Next, WithWire, WireOf;
    ActKeeps(t, sys2, LeecherReads);
    ReadByLeecher(t, sys2, x);
    LeecherReadIs(t, sys2);
    sys3 := Next(t, sys2, LeecherReads);
    SocketSamePeers(t, sys2.leecher, Receive(WireOf(sys2.leecher.peers[t.server])).0);
  }

  lemma LeecherReadPossible(t: Setup, sys: System)
    requires Inv(t, sys) && sys.down.transit == [] && sys.down.unread != []
    ensures Possible(t, sys, LeecherReads) && t.server < |sys.leecher.peers|
  {
    LeecherCanRead(t, sys);
    assert Linked(t, sys);
    hide Inv, Linked, PrefixWhole;
  }

  lemma SocketSamePeers(t: Setup, s: State, w: Wire)
    requires t.server < |s.peers|
    ensures SamePeers(t, s, Socket(s, t.server, w))
  {
  }

  lemma LeecherReadIs(t: Setup, sys: System)
    requires Possible(t, sys, LeecherReads) && Survives(t, sys, LeecherReads)
    ensures var (w, r) := Receive(WireOf(sys.leecher.peers[t.server]));
            Next(t, sys, LeecherReads) ==
            sys.(leecher := Socket(sys.leecher, t.server, w), down := Read(sys.down, r))
  {
    hide Receive, Read;
  }

  lemma ReadByLeecher(t: Setup, sys2: System, x: seq<byte>)
    requires Inv(t, sys2) && sys2.down == Channel([], [x], [])
    ensures Read(sys2.down, Receive(WireOf(sys2.leecher.peers[t.server])).1) == Channel([], [], [x])
  {
    AllDownFramable(t, sys2.down.unread);
    LeecherCanRead(t, sys2);
    hide LeecherFine, SeederFine, UpFine, Flows, Receive, PrefixWhole;
    NextRead(WireOf(sys2.leecher.peers[t.server]), sys2.down);
    ReadFlows(WireOf(sys2.leecher.peers[t.server]), sys2.down);
  }

  /** The peers of the leecher are the same but for the receive state of the seeder's connection. */
  predicate SamePeers(t: Setup, s: State, s': State) {
    |s'.peers| == |s.peers| && t.server < |s.peers| &&
    (forall p :: 0 <= p < |s.peers| && p != t.server ==> s'.peers[p] == s.peers[p]) &&
    s'.peers[t.server].weChoked == s.peers[t.server].weChoked &&
    s'.peers[t.server].hasPiece == s.peers[t.server].hasPiece &&
    s'.peers[t.server].theyInterested == s.peers[t.server].theyInterested
  }

  lemma Heard(t: Setup, sys3: System, m: Message) returns (sys': System)
    requires Inv(t, sys3) && FieldsFit(m) && Status(t, m) && sys3.down == Channel([], [], [Payload(m)])
    requires sys3.up == Channel([], [], []) && sys3.seeder.pending == [] && Alone(t, sys3.leecher)
    ensures Possible(t, sys3, LeecherHandles) && Survives(t, sys3, LeecherHandles)
    ensures sys' == Next(t, sys3, LeecherHandles) && Inv(t, sys') && Quiet(sys') && Alone(t, sys'.leecher)
    ensures Linked(t, sys') &&
            var p, p' := sys3.leecher.peers[t.server], sys'.leecher.peers[t.server];
            p'.weChoked == (p.weChoked && !m.Unchoke?) &&
            (m.Bitfield? ==> CeilDiv(t.n, 8) <= |m.bytes| && p'.hasPiece == BitfieldFlags(m.bytes, t.n)) &&
            (!m.Bitfield? && !m.Have? ==> p'.hasPiece == p.hasPiece) &&
            (m.Interested? || p.theyInterested ==> p'.theyInterested)
  {
    StatusFits(t, m);
    StatusFoolsNobody(t, sys3, m);
    LeecherHandlingPossible(t, sys3);
    hide Payload, Readable, Fooled, Decode, Possible, Survives, Next, ReceiveMessage, UpFine, DownFine, SeederFine;
    assert |sys3.leecher.pieces| == t.n;
    ActKeeps(t, sys3, LeecherHandles);
    sys' := Next(t, sys3, LeecherHandles);
    LeecherHandleIs(t, sys3);
    HeardStatus(t, sys3.leecher, m);
    InvLinked(t, sys');
  }

  lemma StatusFoolsNobody(t: Setup, sys: System, m: Message)
    requires Sensible(t) && Linked(t, sys) && FieldsFit(m) && Status(t, m)
    requires sys.down == Channel([], [], [Payload(m)])
    ensures !Fooled(t, sys)
  {
    StatusFits(t, m);
    hide Payload, Readable, Decode, Step;
  }

  lemma LeecherHandleIs(t: Setup, sys: System)
    requires Possible(t, sys, LeecherHandles) && Survives(t, sys, LeecherHandles)
    ensures MessageInRange(sys.leecher, t.server, Decode(sys.down.mail[0]))
    ensures Next(t, sys, LeecherHandles) ==
            sys.(leecher := ReceiveMessage(t.hash, sys.leecher, t.server, Decode(sys.down.mail[0])),
                 down := Handled(sys.down), asked := AskedAfter(t, sys, LeecherHandles))
  {
    hide ReceiveMessage, AskedAfter;
  }

  lemma HeardStatus(t: Setup, s: State, m: Message)
    requires Status(t, m) && MessageInRange(s, t.server, Known(m)) && |s.pieces| == t.n && Alone(t, s)
    ensures var s' := ReceiveMessage(t.hash, s, t.server, Known(m));
            Alone(t, s') && |s'.peers| == |s.peers| &&
            var p, p' := s.peers[t.server], s'.peers[t.server];
            p'.weChoked == (p.weChoked && !m.Unchoke?) &&
            (m.Bitfield? ==> CeilDiv(t.n, 8) <= |m.bytes| && p'.hasPiece == BitfieldFlags(m.bytes, t.n)) &&
            (!m.Bitfield? && !m.Have? ==> p'.hasPiece == p.hasPiece) &&
            (m.Interested? || p.theyInterested ==> p'.theyInterested)
  {
  }

  lemma FreshInv(t: Setup, content: seq<byte>, shas: seq<Sha1>)
    requires FreshStart(t, content, shas)
    ensures var sys := Fresh(t, content, shas);
            Inv(t, sys) && Quiet(sys) && Alone(t, sys.leecher) && OnTrack(t.hash, sys.leecher, t.original)
  {
    FreshLeecher(t, content, shas);
    FreshSeeder(t, shas);
    var sys := Fresh(t, content, shas);
    hide LeecherFine, SeederFine, Alone, OnTrack;
    InitiallyInv(t, sys.leecher, sys.seeder);
  }

  lemma TellPossible(t: Setup, sys: System, m: Message)
    requires Inv(t, sys) && Status(t, m) && Announces(t, m)
    ensures Possible(t, sys, SeederTells(m))
  {
    assert Linked(t, sys);
    hide Inv;
  }

  /** The bitfield of a seeder. */
  predicate Full(t: Setup, bitfield: seq<byte>) {
    |bitfield| == CeilDiv(t.n, 8) && forall i :: 0 <= i < t.n ==> HasBit(bitfield, i)
  }

  /** The bytes of a greeting are the three messages it decodes to. */
  lemma GreetingBytes(bytes: seq<byte>, bitfield: seq<byte>)
    requires GreetsWith(bytes, bitfield)
    ensures bytes == Frame(Payload(Bitfield(bitfield))) + (Frame(Payload(Unchoke)) + Frame(Payload(Interested)))
  {
    var x, y, z :| Greeting(bytes, bitfield, x, y, z);
    PayloadDecode(x);
    PayloadDecode(y);
    PayloadDecode(z);
    hide Frame, Payload, Decode, Readable;
    assert [x, y, z][1..] == [y, z] && [y, z][1..] == [z] && [z][1..] == [];
    EncodeOne([z]);
    assert Encode([y, z]) == Frame(y) + Frame(z);
    assert Encode([x, y, z]) == Frame(x) + Encode([y, z]);
  }

  /** The greeting of a seeder makes it usable, and its interest known. */
  lemma Greeted(t: Setup, sys: System, bytes: seq<byte>, bitfield: seq<byte>, clock: nat)
    returns (acts: seq<Act>, sys': System)
    requires Inv(t, sys) && Quiet(sys) && Alone(t, sys.leecher)
    requires GreetsWith(bytes, bitfield) && Full(t, bitfield)
    ensures Run(t, sys, acts, sys') && ClockRuns(acts, clock, clock) && AllSheltered(acts) && SentDown(acts) == bytes
    ensures Inv(t, sys') && Usable(t, sys'.leecher)
    ensures Linked(t, sys') && sys'.leecher.peers[t.server].theyInterested
  {
    hide Inv, Possible, Alone, Quiet, Run, ClockRuns, SentDown, Frame, Payload, GreetsWith, HasBit, Sheltered;
    TellPossible(t, sys, Bitfield(bitfield));
    var first, sys1 := Tell(t, sys, Bitfield(bitfield), clock);
    TellPossible(t, sys1, Unchoke);
    var second, sys2 := Tell(t, sys1, Unchoke, clock);
    TellPossible(t, sys2, Interested);
    var third;
    third, sys' := Tell(t, sys2, Interested, clock);
    RunOn(t, sys1, second, sys2, third, sys');
    RunOn(t, sys, first, sys1, second + third, sys');
    ClockOn(second, third, clock, clock, clock);
    ClockOn(first, second + third, clock, clock, clock);
    acts := first + (second + third);
    SentDownAppend(second, third);
    SentDownAppend(first, second + third);
    GreetingBytes(bytes, bitfield);
  }

  /** When the seeder has greeted with these bytes, the leecher can complete its download by local
      acts alone. */
  ghost predicate CanComplete(t: Setup, sys: System, bytes: seq<byte>, clock: nat) {
    exists greeting, acts, sys', end ::
      Run(t, sys, greeting + acts, sys') && SentDown(greeting) == bytes && AllLocal(acts) &&
      ClockRuns(greeting + acts, clock, end) && Finished(t, sys'.leecher)
  }

  lemma GreetAndFinish(t: Setup, sys: System, bytes: seq<byte>, bitfield: seq<byte>, clock: nat)
    requires Inv(t, sys) && Quiet(sys) && Alone(t, sys.leecher) && OnTrack(t.hash, sys.leecher, t.original)
    requires GreetsWith(bytes, bitfield) && Full(t, bitfield)
    ensures CanComplete(t, sys, bytes, clock)
  {
    hide Inv, Quiet, Alone, Usable, Run, Finished, ClockRuns, OnTrack, Sheltered, SentDown, GreetsWith, Full;
    var first, sys1 := Greeted(t, sys, bytes, bitfield, clock);
    ShelteredRun(t, sys, first, sys1);
    CleanCanFinish(t, sys1, clock);
    var rest, sys', end :|
      Run(t, sys1, rest, sys') && AllLocal(rest) && ClockRuns(rest, clock, end) && Finished(t, sys'.leecher);
    RunOn(t, sys, first, sys1, rest, sys');
    ClockOn(first, rest, clock, clock, end);
  }

  /** A new seeder has every piece, so its bitfield is full. */
  lemma FreshIsFull(t: Setup, content: seq<byte>, shas: seq<Sha1>, bitfield: seq<byte>)
    requires FreshStart(t, content, shas) && Packs(bitfield, PieceFlags(Fresh(t, content, shas).seeder.pieces))
    ensures Full(t, bitfield)
  {
    var pieces := Fresh(t, content, shas).seeder.pieces;
    BitfieldOfPieces(bitfield, pieces);
    hide Packs, HasBit;
    forall i | 0 <= i < t.n ensures pieces[i].downloaded {
      FreshHas(t, content, shas, i);
    }
    hide Fresh;
  }

  lemma FreshHas(t: Setup, content: seq<byte>, shas: seq<Sha1>, i: nat)
    requires FreshStart(t, content, shas) && i < t.n
    ensures var pieces := Fresh(t, content, shas).seeder.pieces;
            |pieces| == t.n && pieces[i].downloaded
  {
    assert Fresh(t, content, shas).seeder.pieces == InitialState(t.hash, t.original, t.pieceLength, shas).pieces;
    InitiallyMarked(t.hash, t.original, t.pieceLength, shas, i, 0);
    InitiallyMarked(t.hash, content, t.pieceLength, shas, i, 0);
    hide Separates, Fresh, InitialState, PieceLen, Cuttable, Sensible;
  }

  /** Two new clients, one of them with the original content: whatever bytes it greets the other
      with on their new connection, they can bring the other one to hold the content too, verified
      and marked downloaded; and there are such bytes. */
  lemma FreshCanFinish(t: Setup, content: seq<byte>, shas: seq<Sha1>, clock: nat)
    requires FreshStart(t, content, shas)
    ensures var sys := Fresh(t, content, shas);
            (forall bytes, bitfield :: GreetsWith(bytes, bitfield) && Packs(bitfield, PieceFlags(sys.seeder.pieces)) ==>
               CanComplete(t, sys, bytes, clock)) &&
            exists bytes, bitfield :: GreetsWith(bytes, bitfield) && Packs(bitfield, PieceFlags(sys.seeder.pieces))
  {
    FreshInv(t, content, shas);
    var sys := Fresh(t, content, shas);
    FreshGreeting(t, content, shas);
    hide Inv, Fresh, Quiet, Alone, CanComplete, OnTrack, GreetsWith, Packs, Full, PieceFlags;
    forall bytes, bitfield | GreetsWith(bytes, bitfield) && Packs(bitfield, PieceFlags(sys.seeder.pieces))
      ensures CanComplete(t, sys, bytes, clock)
    {
      FreshIsFull(t, content, shas, bitfield);
      GreetAndFinish(t, sys, bytes, bitfield, clock);
    }
  }

  lemma FreshGreeting(t: Setup, content: seq<byte>, shas: seq<Sha1>)
    requires FreshStart(t, content, shas)
    ensures var sys := Fresh(t, content, shas);
            exists bytes, bitfield :: GreetsWith(bytes, bitfield) && Packs(bitfield, PieceFlags(sys.seeder.pieces))
  {
    var flags := PieceFlags(Fresh(t, content, shas).seeder.pieces);
    assert |flags| == t.n;
    hide FreshStart, GreetsWith, HasBit;
    var bitfield := PackedTo(flags, |flags|);
    assert Packs(bitfield, flags);
    var bytes := GreetingExists(bitfield);
  }
}
