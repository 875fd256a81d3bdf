/** The queue of pieces to announce over whole runs (src/download.rs, lines 451-455 and 613-638;
    src/decider.rs, lines 153-169; src/main_loop.rs, lines 451-463). */
module Announcing {
  import opened Config
  import opened Wrappers
  import opened IoPrimitives
  import opened Storage
  import opened TorrentState
  import opened Geometry
  import opened Decider
  import opened Runs
  import opened Safety

  /** A piece with blocks is marked exactly when all of them are there. */
  predicate MarksRight(p: PieceState) { p.blocks != [] ==> (p.downloaded <==> AllBlocks(p.blocks)) }

  predicate AllMarksRight(pieces: seq<PieceState>) {
    forall i :: 0 <= i < |pieces| ==> MarksRight(pieces[i])
  }

  /** So it is when a download starts. */
  lemma InitiallyMarksRight(hash: Hash, content: seq<byte>, pieceLength: nat, shas: seq<Sha1>)
    requires Cuttable(|content|, pieceLength, |shas|)
    ensures AllMarksRight(InitialState(hash, content, pieceLength, shas).pieces)
  {
    var pieces := InitialState(hash, content, pieceLength, shas).pieces;
    hide InitialState;
    forall i | 0 <= i < |pieces| ensures MarksRight(pieces[i]) {
      InitiallyMarked(hash, content, pieceLength, shas, i, 0);
      forall b | 0 <= b < |pieces[i].blocks| ensures pieces[i].blocks[b].downloaded == pieces[i].downloaded {
        InitiallyMarked(hash, content, pieceLength, shas, i, b);
      }
    }
  }

  /** The piece has all its blocks, and the stored bytes have its hash. */
  predicate Complete(hash: Hash, s: State, i: nat) {
    i < |s.pieces| && AllBlocks(s.pieces[i].blocks) &&
    s.pieces[i].offset + s.pieces[i].len <= |s.content| &&
    hash(s.content[s.pieces[i].offset..s.pieces[i].offset + s.pieces[i].len]) == s.pieces[i].sha
  }

  lemma FinishedRight(hash: Hash, content: seq<byte>, p: PieceState, b: nat)
    requires MarksRight(p) && b < |p.blocks|
    ensures var p' := FinishedPiece(hash, content, p, b);
            MarksRight(p') && p'.offset == p.offset && p'.len == p.len && p'.sha == p.sha &&
            (p'.downloaded <==> AllBlocks(p'.blocks) && HashMatches(hash, content, p'))
  {
    var marked := MarkBlock(p, b);
    assert marked.downloaded <==> AllBlocks(marked.blocks);
    assert !ResetPiece(marked).blocks[0].downloaded;
  }

  /** A piece message queues its piece exactly when it leaves it complete; nothing but a broadcast
      changes the queue otherwise, and a broadcast empties it. */
  lemma QueueStep(hash: Hash, s: State, e: Event)
    requires Sound(s) && Enabled(s, e) && AllMarksRight(s.pieces)
    ensures var s' := Step(hash, s, e);
            AllMarksRight(s'.pieces) &&
            s'.recent == if IsPieceMessage(e) && Complete(hash, s', e.m.message.index)
                           then s.recent + [e.m.message.index]
                         else if e.Broadcast? then [] else s.recent
  {
    if IsPieceMessage(e) {
      PieceQueues(hash, s, e);
    } else {
      OtherEventsKeepContent(hash, s, e);
      var s' := Step(hash, s, e);
      QueueKept(hash, s, e);
      hide Step, Enabled, Sound;
      forall i | 0 <= i < |s'.pieces| ensures MarksRight(s'.pieces[i]) {
        SameProgressMarks(s.pieces[i], s'.pieces[i]);
      }
    }
  }

  lemma SameProgressMarks(p: PieceState, p': PieceState)
    requires SameProgress(p, p') && MarksRight(p)
    ensures MarksRight(p')
  {
    forall b | 0 <= b < |p.blocks| ensures p'.blocks[b].downloaded == p.blocks[b].downloaded {
      assert p'.blocks[b].(record := None) == p.blocks[b].(record := None);
    }
  }

  lemma QueueKept(hash: Hash, s: State, e: Event)
    requires Enabled(s, e) && !IsPieceMessage(e)
    ensures Step(hash, s, e).recent == if e.Broadcast? then [] else s.recent
  {
    hide IsSchedule, Recorded, ExpirePieces, Servable, RecordsBefore, ReceivePiece;
  }

  lemma PieceQueues(hash: Hash, s: State, e: Event)
    requires Enabled(s, e) && IsPieceMessage(e) && AllMarksRight(s.pieces)
    ensures var s' := Step(hash, s, e);
            var i := e.m.message.index;
            AllMarksRight(s'.pieces) &&
            s'.recent == if Complete(hash, s', i) then s.recent + [i] else s.recent
  {
    var m := e.m.message;
    var i, b := m.index, m.offset / BLOCK_SIZE;
    var s' := Step(hash, s, e);
    ReceivePieceParts(hash, s, e.peer, i, m.offset, m.data);
    QueuedIfMarked(hash, s, e);
    hide Step, Enabled;
    var record :| s'.pieces[i] == FinishedPiece(hash, s'.content, WithRecord(s.pieces, i, b, record)[i], b);
    var p := WithRecord(s.pieces, i, b, record)[i];
    RecordKeepsMarks(s.pieces, i, b, record);
    FinishedRight(hash, s'.content, p, b);
    hide FinishedPiece;
    forall j | 0 <= j < |s'.pieces| ensures MarksRight(s'.pieces[j]) {
      if j != i {
        assert MarksRight(s.pieces[j]);
      }
    }
  }

  lemma RecordKeepsMarks(pieces: seq<PieceState>, i: nat, b: nat, record: Option<BlockRequestRecord>)
    requires i < |pieces| && b < |pieces[i].blocks| && MarksRight(pieces[i])
    ensures MarksRight(WithRecord(pieces, i, b, record)[i])
  {
    var p' := WithRecord(pieces, i, b, record)[i];
    assert forall c :: 0 <= c < |p'.blocks| ==> p'.blocks[c].downloaded == pieces[i].blocks[c].downloaded;
  }

  lemma QueuedIfMarked(hash: Hash, s: State, e: Event)
    requires Enabled(s, e) && IsPieceMessage(e)
    ensures var s' := Step(hash, s, e);
            var i := e.m.message.index;
            i < |s'.pieces| && s'.recent == if s'.pieces[i].downloaded then s.recent + [i] else s.recent
  {
    hide FinishedPiece, Splice, AllDone;
  }

  // ---------- over whole runs ----------

  lemma {:induction false} AlwaysMarksRight(hash: Hash, states: seq<State>, events: seq<Event>, n: nat)
    requires Trace(hash, states, events) && n <= |events| && Sound(states[0]) && AllMarksRight(states[0].pieces)
    ensures Sound(states[n]) && AllMarksRight(states[n].pieces)
  {
    if n != 0 {
      AlwaysMarksRight(hash, states, events, n - 1);
      StepSound(hash, states[n - 1], events[n - 1]);
      QueueStep(hash, states[n - 1], events[n - 1]);
      hide Sound, Step, Enabled, AllMarksRight;
    }
  }

  /** Event `k` completes piece `i`: its message leaves all blocks there, with the right hash. */
  ghost predicate Completes(hash: Hash, states: seq<State>, events: seq<Event>, k: nat, i: nat)
    requires Trace(hash, states, events) && k < |events|
  {
    IsPieceMessage(events[k]) && events[k].m.message.index == i && Complete(hash, states[k + 1], i)
  }

  /** The pieces completed from moment `m` on and before moment `n`, in order. */
  ghost function Completions(hash: Hash, states: seq<State>, events: seq<Event>, m: nat, n: nat): seq<nat>
    requires Trace(hash, states, events) && m <= n <= |events|
    decreases n
  {
    if m == n then []
    else
      var e := events[n - 1];
      Completions(hash, states, events, m, n - 1) +
      if IsPieceMessage(e) && Completes(hash, states, events, n - 1, e.m.message.index) then [e.m.message.index] else []
  }

  /** Between broadcasts the queue grows by exactly the pieces completed, in order, each time
      they are. */
  lemma {:induction false} QueueIsCompletions(hash: Hash, states: seq<State>, events: seq<Event>, m: nat, n: nat)
    requires Trace(hash, states, events) && m <= n <= |events|
    requires Sound(states[0]) && AllMarksRight(states[0].pieces)
    requires forall k :: m <= k < n ==> !events[k].Broadcast?
    ensures states[n].recent == states[m].recent + Completions(hash, states, events, m, n)
    decreases n
  {
    if m < n {
      QueueIsCompletions(hash, states, events, m, n - 1);
      AlwaysMarksRight(hash, states, events, n - 1);
      QueueGrows(hash, states, events, n - 1);
      LastCompletion(hash, states, events, m, n);
      hide Sound, Trace, AllMarksRight, Completes, Completions;
      Regroup(states[m].recent, Completions(hash, states, events, m, n - 1), states[n].recent,
              Completions(hash, states, events, m, n));
    } else {
      hide Sound, Trace, AllMarksRight;
    }
  }

  lemma LastCompletion(hash: Hash, states: seq<State>, events: seq<Event>, m: nat, n: nat)
    requires Trace(hash, states, events) && m < n <= |events|
    ensures Completions(hash, states, events, m, n) ==
            if IsPieceMessage(events[n - 1]) && Completes(hash, states, events, n - 1, events[n - 1].m.message.index)
              then Completions(hash, states, events, m, n - 1) + [events[n - 1].m.message.index]
            else Completions(hash, states, events, m, n - 1)
  {
    hide Trace, Completes;
  }

  /** Both grew by the same last element, or not at all. */
  lemma Regroup(a: seq<nat>, b: seq<nat>, c: seq<nat>, d: seq<nat>)
    requires (c == a + b && d == b) || exists i :: c == a + b + [i] && d == b + [i]
    ensures c == a + d
  {
  }

  lemma QueueGrows(hash: Hash, states: seq<State>, events: seq<Event>, k: nat)
    requires Trace(hash, states, events) && k < |events| && !events[k].Broadcast?
    requires Sound(states[k]) && AllMarksRight(states[k].pieces)
    ensures states[k + 1].recent ==
            if IsPieceMessage(events[k]) && Completes(hash, states, events, k, events[k].m.message.index)
              then states[k].recent + [events[k].m.message.index] else states[k].recent
  {
    QueueStep(hash, states[k], events[k]);
    hide Sound, Step, Enabled, AllMarksRight, Complete;
  }

  lemma CompletesNamed(hash: Hash, states: seq<State>, events: seq<Event>, k: nat, i: nat)
    requires Trace(hash, states, events) && k < |events|
    ensures Completes(hash, states, events, k, i) ==> IsPieceMessage(events[k]) && events[k].m.message.index == i
  {
  }

  lemma {:induction false} CompletionsIff(hash: Hash, states: seq<State>, events: seq<Event>, m: nat, n: nat, i: nat)
    requires Trace(hash, states, events) && m <= n <= |events|
    ensures i in Completions(hash, states, events, m, n) <==>
            exists k :: m <= k < n && Completes(hash, states, events, k, i)
    decreases n
  {
    hide Trace, Completes;
    if m < n {
      CompletionsIff(hash, states, events, m, n - 1, i);
      CompletesNamed(hash, states, events, n - 1, i);
    }
  }

  /** So a broadcast tells every connected peer that is not known to have it about every piece
      completed since the last broadcast. */
  lemma CompletedIsAnnounced(hash: Hash, states: seq<State>, events: seq<Event>, k: nat, n: nat, i: nat, p: nat)
    requires Trace(hash, states, events) && k < n <= |events|
    requires Sound(states[0]) && AllMarksRight(states[0].pieces)
    requires Completes(hash, states, events, k, i) && forall j :: k < j < n ==> !events[j].Broadcast?
    requires p < |states[n].peers| && states[n].peers[p].stream.Some?
    requires i < |states[n].peers[p].hasPiece| && !states[n].peers[p].hasPiece[i]
    ensures i in states[n].recent
    ensures HaveBroadcast(p, i) in Broadcasts(states[n].peers, states[n].recent, |states[n].recent|)
  {
    var s := states[n];
    QueueIsCompletions(hash, states, events, k, n);
    CompletionsIff(hash, states, events, k, n, i);
    assert s.recent[..|s.recent|] == s.recent;
    hide Trace, Completions;
    BroadcastsIff(s.peers, s.recent, |s.recent|, HaveBroadcast(p, i));
  }
}
