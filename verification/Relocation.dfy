/** Moving the finished download to its destination, and moving it twice (src/download.rs, lines
    451-460 and 654-661). */
module Relocation {
  import opened IoPrimitives
  import opened TorrentState
  import opened Geometry
  import opened Runs
  import opened Safety
  import opened Rerequest
  import opened Convergence

  /** The event makes the client move the files, if they are to be moved. */
  ghost predicate Finishes(hash: Hash, s: State, e: Event)
    requires Enabled(s, e)
  {
    IsPieceMessage(e) && AllDone(Step(hash, s, e).pieces)
  }

  /** Some event before moment `n` did. */
  ghost predicate Moved(hash: Hash, states: seq<State>, events: seq<Event>, n: nat)
    requires Trace(hash, states, events) && n <= |events|
  {
    exists k :: 0 <= k < n && Finishes(hash, states[k], events[k])
  }

  /** Where the temporary path is not the destination, event `n` panics: the files are gone. */
  ghost predicate MovesAgain(hash: Hash, states: seq<State>, events: seq<Event>, n: nat)
    requires Trace(hash, states, events) && n < |events|
  {
    Finishes(hash, states[n], events[n]) && Moved(hash, states, events, n)
  }

  /** A download that was not complete at the start has been moved exactly when its flag is set. */
  lemma {:induction false} MovedIffFlag(hash: Hash, states: seq<State>, events: seq<Event>, n: nat)
    requires Trace(hash, states, events) && n <= |events| && Sound(states[0])
    requires !states[0].downloaded && !AllDone(states[0].pieces)
    ensures Sound(states[n]) && (AllDone(states[n].pieces) ==> states[n].downloaded)
    ensures Moved(hash, states, events, n) <==> states[n].downloaded
  {
    if n != 0 {
      MovedIffFlag(hash, states, events, n - 1);
      var s, e := states[n - 1], events[n - 1];
      StepSound(hash, s, e);
      FlagStep(hash, s, e);
      hide Step, Enabled, Sound, AllDone, Moved, SameProgress;
      if !IsPieceMessage(e) {
        OtherEventsKeepContent(hash, s, e);
      }
      MovedOneMore(hash, states, events, n);
    }
  }

  lemma MovedOneMore(hash: Hash, states: seq<State>, events: seq<Event>, n: nat)
    requires Trace(hash, states, events) && 0 < n <= |events|
    ensures Moved(hash, states, events, n) <==>
            Moved(hash, states, events, n - 1) || Finishes(hash, states[n - 1], events[n - 1])
  {
    hide Step, Enabled, Finishes;
  }

  /** So the panic comes exactly with a piece message that finds the flag set and leaves all blocks
      there. */
  lemma MovesAgainIff(hash: Hash, states: seq<State>, events: seq<Event>, n: nat)
    requires Trace(hash, states, events) && n < |events| && Sound(states[0])
    requires !states[0].downloaded && !AllDone(states[0].pieces)
    ensures MovesAgain(hash, states, events, n) <==>
            states[n].downloaded && IsPieceMessage(events[n]) && AllDone(states[n + 1].pieces)
  {
    MovedIffFlag(hash, states, events, n);
    hide Step, Enabled, Sound, AllDone;
  }

  /** On a complete download such a message is one that leaves bytes with the hash of its piece... */
  lemma FinishesIff(hash: Hash, s: State, e: Event)
    requires Verified(hash, s) && AllDone(s.pieces) && Enabled(s, e) && IsPieceMessage(e)
    ensures var i := e.m.message.index;
            i < |s.pieces| && (Finishes(hash, s, e) <==> HashMatches(hash, Step(hash, s, e).content, s.pieces[i]))
  {
    var m := e.m.message;
    StaysCompleteIff(hash, s, e.peer, m.index, m.offset, m.data);
  }

  /** ... for one, any original block that arrives once more. */
  lemma RepeatFinishes(hash: Hash, s: State, peer: nat, i: nat, b: nat, original: seq<byte>)
    requires OnTrack(hash, s, original) && MissingBlocks(s) == 0 && InPieces(s, i, b) && peer < |s.peers|
    requires BlockStart(s, i, b) + BlockAt(s, i, b).len <= |original|
    ensures var e := HonestMessage(s, peer, i, b, original);
            Enabled(s, e) && Finishes(hash, s, e)
  {
    MissingInPieces(s.pieces, |s.pieces|);
    assert BlockAt(s, i, b).downloaded;
    hide OnTrack;
    HonestProgressExact(hash, s, peer, i, b, original);
    var e := HonestMessage(s, peer, i, b, original);
    var s' := Step(hash, s, e);
    hide Step, Enabled;
    MissingInPieces(s'.pieces, |s'.pieces|);
  }
}
