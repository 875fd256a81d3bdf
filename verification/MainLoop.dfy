/** The parts of a tick that touch requests and connections (src/main_loop.rs). */
module MainLoop {
  import opened Config
  import opened Wrappers
  import opened IoPrimitives
  import opened Storage
  import opened Codec
  import opened Framing
  import opened TorrentState
  import opened Geometry
  import opened Soundness
  import opened Download
  import opened Decider
  import opened PeerProtocol
  import opened SpeedWindow

  // ---------- remove_expired_requests ----------

  /** One piece's share of the first loop. */
  method ExpirePiece(blocks: seq<Block>, now: nat, toDecrement: seq<nat>, ghost numPeers: nat)
    returns (blocks': seq<Block>, toDecrement': seq<nat>)
    requires forall b :: 0 <= b < |blocks| && blocks[b].record.Some? ==>
               blocks[b].record.value.time <= now && blocks[b].record.value.peerId < numPeers
    requires forall p :: p in toDecrement ==> p < numPeers
    ensures blocks' == ExpireBlocks(blocks, now)
    ensures forall p :: multiset(toDecrement')[p] ==
              multiset(toDecrement)[p] + CountBlocks(blocks, ExpiredNaming(p, now), |blocks|)
    ensures forall p :: p in toDecrement' ==> p < numPeers
  {
    blocks', toDecrement' := blocks, toDecrement;
    for b := 0 to |blocks|
      invariant |blocks'| == |blocks|
      invariant forall k :: 0 <= k < b ==> blocks'[k] == ExpireBlock(blocks[k], now)
      invariant forall k :: b <= k < |blocks| ==> blocks'[k] == blocks[k]
      invariant forall p :: multiset(toDecrement')[p] ==
                  multiset(toDecrement)[p] + CountBlocks(blocks, ExpiredNaming(p, now), b)
      invariant forall p :: p in toDecrement' ==> p < numPeers
    {
      if blocks'[b].record.None? {
        continue;
      }
      var record := blocks'[b].record.value;
      var diff := now - record.time;
      if diff > REQUEST_EXPIRATION {
        toDecrement' := toDecrement' + [record.peerId];
        blocks' := blocks'[b := blocks'[b].(record := None)];
      }
    }
  }

  /** `toDecrement` names each peer once for each of its expired records in the first `n` pieces. */
  ghost predicate Tally(toDecrement: seq<nat>, pieces: seq<PieceState>, now: nat, n: nat)
    requires n <= |pieces|
  {
    forall p :: multiset(toDecrement)[p] == Count(pieces, ExpiredNaming(p, now), n)
  }

  lemma TallyStep(toDecrement: seq<nat>, toDecrement': seq<nat>, pieces: seq<PieceState>, now: nat, n: nat)
    requires n < |pieces| && Tally(toDecrement, pieces, now, n)
    requires forall p :: multiset(toDecrement')[p] ==
               multiset(toDecrement)[p] + CountBlocks(pieces[n].blocks, ExpiredNaming(p, now), |pieces[n].blocks|)
    ensures Tally(toDecrement', pieces, now, n + 1)
  {
  }

  /** Records of known peers, none of them in the future. */
  predicate RecordsOk(blocks: seq<Block>, now: nat, numPeers: nat) {
    forall b :: 0 <= b < |blocks| && blocks[b].record.Some? ==>
      blocks[b].record.value.time <= now && blocks[b].record.value.peerId < numPeers
  }

  /** The first loop. */
  method ExpireAll(pieces: seq<PieceState>, now: nat, ghost numPeers: nat)
    returns (pieces': seq<PieceState>, toDecrement: seq<nat>)
    requires forall i :: 0 <= i < |pieces| ==> RecordsOk(pieces[i].blocks, now, numPeers)
    ensures pieces' == ExpirePieces(pieces, now)
    ensures forall p :: p in toDecrement ==> p < numPeers
    ensures Tally(toDecrement, pieces, now, |pieces|)
  {
    pieces', toDecrement := pieces, [];
    assert Tally(toDecrement, pieces, now, 0);
    hide Tally, ExpireBlocks, RecordsOk;
    for pieceId := 0 to |pieces|
      invariant |pieces'| == |pieces|
      invariant forall k :: 0 <= k < pieceId ==> pieces'[k] == ExpiredPiece(pieces[k], now)
      invariant forall k :: pieceId <= k < |pieces| ==> pieces'[k] == pieces[k]
      invariant Tally(toDecrement, pieces, now, pieceId)
      invariant forall p :: p in toDecrement ==> p < numPeers
    {
      var piece := pieces'[pieceId];
      var blocks, toDecrement' := ExpirePiece(piece.blocks, now, toDecrement, numPeers);
      TallyStep(toDecrement, toDecrement', pieces, now, pieceId);
      toDecrement := toDecrement';
      pieces' := pieces'[pieceId := piece.(blocks := blocks)];
    }
  }

  lemma RecordsInPiece(s: State, now: nat, i: nat)
    requires Sound(s) && RecordsBefore(s, now) && i < |s.pieces|
    ensures RecordsOk(s.pieces[i].blocks, now, |s.peers|)
  {
    forall b | 0 <= b < |s.pieces[i].blocks| && s.pieces[i].blocks[b].record.Some?
      ensures s.pieces[i].blocks[b].record.value.time <= now && s.pieces[i].blocks[b].record.value.peerId < |s.peers|
    {
      assert BlockAt(s, i, b) == s.pieces[i].blocks[b];
    }
  }

  method RemoveExpiredRequests(download: Download, now: nat)
    requires download.Valid() && RecordsBefore(download.View(), now)
    modifies download`pieces, download`peers
    ensures download.Valid() && download.View() == RemoveExpired(old(download.View()), now)
  {
    ghost var s := download.View();
    ghost var s' := RemoveExpired(s, now);
    RemoveExpiredSound(s, now);
    forall i | 0 <= i < |s.pieces| ensures RecordsOk(s.pieces[i].blocks, now, |s.peers|) {
      RecordsInPiece(s, now, i);
    }
    hide Sound, FlatTo, RecordsBefore, RecordsOk;
    var pieces, toDecrement := ExpireAll(download.pieces, now, |download.peers|);
    download.pieces := pieces;
    var peers := DecrementAll(download.peers, toDecrement);
    download.peers := peers;
    assert peers == s'.peers by {
      hide ExpirePieces;
    }
    assert download.View() == s';
  }

  /** The second loop. */
  method DecrementAll(peers: seq<PeerState>, toDecrement: seq<nat>) returns (peers': seq<PeerState>)
    requires forall p :: p in toDecrement ==> p < |peers|
    ensures |peers'| == |peers|
    ensures forall p :: 0 <= p < |peers| ==>
              peers'[p] == peers[p].(outstanding := peers[p].outstanding - multiset(toDecrement)[p])
  {
    peers' := peers;
    for k := 0 to |toDecrement|
      invariant |peers'| == |peers|
      invariant forall p :: 0 <= p < |peers| ==>
                  peers'[p] == peers[p].(outstanding := peers[p].outstanding - multiset(toDecrement[..k])[p])
    {
      assert toDecrement[k] in toDecrement;
      var peer := peers'[toDecrement[k]];
      peers' := peers'[toDecrement[k] := peer.(outstanding := peer.outstanding - 1)];
      assert toDecrement[..k + 1] == toDecrement[..k] + [toDecrement[k]];
    }
    assert toDecrement[..|toDecrement|] == toDecrement;
  }

  // ---------- receive_messages ----------

  /** The messages among consumed frames: all but keepalives. */
  function MessagesIn(frames: seq<seq<byte>>): seq<seq<byte>> {
    if frames == [] then []
    else MessagesIn(frames[..|frames| - 1]) + if frames[|frames| - 1] == [] then [] else [frames[|frames| - 1]]
  }

  /** They come in the order of the frames, and only keepalives are left out. */
  lemma {:induction false} MessagesInOrder(a: seq<seq<byte>>, b: seq<seq<byte>>)
    ensures MessagesIn(a + b) == MessagesIn(a) + MessagesIn(b)
    ensures MessagesIn([[]]) == []
    ensures [] !in b ==> MessagesIn(b) == b
  {
    var keepalive: seq<seq<byte>> := [[]];
    assert keepalive[..0] == [];
    if b == [] {
      assert a + b == a;
    } else {
      var rest := b[..|b| - 1];
      MessagesInOrder(a, rest);
      assert (a + b)[..|a + b| - 1] == a + rest;
      assert b == rest + [b[|b| - 1]];
    }
  }

  /** Call `k` in a row returns a message. */
  ghost predicate CallCompletes(w: Wire, k: nat)
    requires Ready(w)
  {
    var before := Play(w, Calls(k)).0;
    Ready(before) && Receive(before).1.Complete?
  }

  /** The outcome of exactly `calls` calls: the peer afterwards, their messages, whether the
      last one failed. Exactly a call without a message, or the limit, ends the loop. */
  ghost predicate Collected(peer: PeerState, calls: nat, peer': PeerState, messages: seq<seq<byte>>, reset: bool)
    requires Ready(WireOf(peer))
  {
    var (w, frames) := Play(WireOf(peer), Calls(calls));
    peer' == WithWire(peer, w) && messages == MessagesIn(frames) &&
    0 < calls <= MAX_INCOMING_MESSAGES_PER_TICK_PER_DOWNLOAD &&
    var before := Play(WireOf(peer), Calls(calls - 1)).0;
    Ready(before) &&
    (forall k :: 0 <= k < calls - 1 ==> CallCompletes(WireOf(peer), k)) &&
    (reset <==> Receive(before).1.Broken?) &&
    (Receive(before).1.Complete? ==> calls == MAX_INCOMING_MESSAGES_PER_TICK_PER_DOWNLOAD)
  }

  /** After `n` calls that all returned a message. */
  ghost predicate Collecting(peer: PeerState, n: nat, peer': PeerState, messages: seq<seq<byte>>)
    requires Ready(WireOf(peer))
  {
    var (w, frames) := Play(WireOf(peer), Calls(n));
    peer'.stream.Some? && w == WireOf(peer') && Ready(w) && peer' == WithWire(peer, w) &&
    messages == MessagesIn(frames) &&
    forall k :: 0 <= k < n ==> CallCompletes(WireOf(peer), k)
  }

  lemma CollectMore(peer: PeerState, n: nat, peer': PeerState, messages: seq<seq<byte>>, next: PeerState, r: Received)
    requires Ready(WireOf(peer)) && Collecting(peer, n, peer', messages)
    requires n < MAX_INCOMING_MESSAGES_PER_TICK_PER_DOWNLOAD
    requires next == WithWire(peer', Receive(WireOf(peer')).0) && r == Receive(WireOf(peer')).1
    ensures r.Complete? ==> Collecting(peer, n + 1, next, messages + [r.payload])
    ensures !r.Complete? ==> Collected(peer, n + 1, next, messages, r.Broken?)
  {
    CollectStep(WireOf(peer), n, WireOf(peer'));
    hide Play, Receive, MessagesIn, Ready;
  }

  /** One peer's share of `receive_messages`: reads until a call returns no message, at most 100 times. */
  method CollectMessages(peer: PeerState) returns (peer': PeerState, messages: seq<seq<byte>>, reset: bool)
    requires peer.stream.Some? && Ready(WireOf(peer))
    ensures exists calls :: Collected(peer, calls, peer', messages, reset)
  {
    peer', messages := peer, [];
    for n := 0 to MAX_INCOMING_MESSAGES_PER_TICK_PER_DOWNLOAD
      invariant Collecting(peer, n, peer', messages)
    {
      ghost var before := peer';
      var r;
      peer', r := ReceiveFrom(peer');
      CollectMore(peer, n, before, messages, peer', r);
      hide Collecting, Collected;
      match r {
        case Complete(message) =>
          messages := messages + [message];
        case Keepalive =>
          return peer', messages, false;
        case Nothing =>
          return peer', messages, false;
        case Broken =>
          return peer', messages, true;
      }
    }
    reset := false;
    CollectedAll(peer, MAX_INCOMING_MESSAGES_PER_TICK_PER_DOWNLOAD, peer', messages);
  }

  lemma CollectedAll(peer: PeerState, n: nat, peer': PeerState, messages: seq<seq<byte>>)
    requires Ready(WireOf(peer)) && Collecting(peer, n, peer', messages)
    requires n == MAX_INCOMING_MESSAGES_PER_TICK_PER_DOWNLOAD
    ensures Collected(peer, n, peer', messages, false)
  {
    var last := n - 1;
    assert CallCompletes(WireOf(peer), last);
    hide Play, Receive, MessagesIn;
  }

  lemma CollectStep(w: Wire, n: nat, now: Wire)
    requires Ready(w) && Ready(now) && now == Play(w, Calls(n)).0
    ensures var frames, frames' := Play(w, Calls(n)).1, Play(w, Calls(n + 1)).1;
            Play(w, Calls(n + 1)).0 == Receive(now).0 && Ready(Receive(now).0) &&
            (Receive(now).1.Complete? ==> MessagesIn(frames') == MessagesIn(frames) + [Receive(now).1.payload]) &&
            (!Receive(now).1.Complete? ==> MessagesIn(frames') == MessagesIn(frames))
  {
    PlayOneMore(w, n);
    ReadyKept(now);
    hide Play, Receive, Ready;
    var frames, more := Play(w, Calls(n)).1, FramesOf(Receive(now).1);
    if more == [] {
      assert frames + more == frames;
    } else {
      assert (frames + more)[..|frames|] == frames;
    }
  }

  // ---------- connections ----------

  /** The bytes are three messages: a bitfield, an unchoke and an interested, in this order. */
  predicate Greeting(bytes: seq<byte>, bitfield: seq<byte>, x: seq<byte>, y: seq<byte>, z: seq<byte>) {
    bytes == Encode([x, y, z]) && 0 < |x| < U32_RANGE && |y| == |z| == 1 &&
    Readable(x) && Decode(x) == Known(Bitfield(bitfield)) &&
    Readable(y) && Decode(y) == Known(Unchoke) &&
    Readable(z) && Decode(z) == Known(Interested)
  }

  ghost predicate GreetsWith(bytes: seq<byte>, bitfield: seq<byte>) {
    exists x, y, z :: Greeting(bytes, bitfield, x, y, z)
  }

  /** No write fails or would block. */
  predicate AllWhole(bitfield: seq<byte>, writes: seq<Write>) {
    |bitfield| + 1 < U32_RANGE &&
    forall k :: 0 <= k < |writes| ==> writes[k].Accepts? && |bitfield| + 5 <= writes[k].room
  }

  function Joined(parts: seq<seq<byte>>): seq<byte> {
    if parts == [] then [] else parts[0] + Joined(parts[1..])
  }

  lemma GreetingsGreet(bitfield: seq<byte>, writes: seq<Write>)
    requires |writes| == 3 && AllWhole(bitfield, writes)
    ensures Successes(writes) == 3 && GreetsWith(Joined(Greetings(bitfield, writes)), bitfield)
  {
    var x, y, z := Payload(Bitfield(bitfield)), Payload(Unchoke), Payload(Interested);
    DecodePayload(Bitfield(bitfield));
    DecodePayload(Unchoke);
    DecodePayload(Interested);
    WholeFrame(x, bitfield, writes, 0);
    WholeFrame(y, bitfield, writes, 1);
    WholeFrame(z, bitfield, writes, 2);
    assert Greetings(bitfield, writes) == [Frame(x), Frame(y), Frame(z)];
    hide Greetings, Accepted, Payload, Decode, Readable, U32Digits;
    JoinedIsEncode(x, y, z);
    assert |x| == |bitfield| + 1 && |y| == |z| == 1 by {
      PayloadSizes(bitfield);
    }
    assert Greeting(Joined([Frame(x), Frame(y), Frame(z)]), bitfield, x, y, z);
  }

  /** Any bitfield that fits can be greeted with. */
  lemma GreetingExists(bitfield: seq<byte>) returns (bytes: seq<byte>)
    requires |bitfield| + 1 < U32_RANGE
    ensures GreetsWith(bytes, bitfield)
  {
    var write := Accepts(|bitfield| + 5);
    GreetingsGreet(bitfield, [write, write, write]);
    bytes := Joined(Greetings(bitfield, [write, write, write]));
  }

  lemma PayloadSizes(bitfield: seq<byte>)
    ensures |Payload(Bitfield(bitfield))| == |bitfield| + 1
    ensures |Payload(Unchoke)| == |Payload(Interested)| == 1
  {
  }

  lemma WholeFrame(x: seq<byte>, bitfield: seq<byte>, writes: seq<Write>, k: nat)
    requires k < |writes| && AllWhole(bitfield, writes) && |x| <= |bitfield| + 1
    ensures Accepted(Frame(x), writes[k]) == Frame(x)
  {
  }

  lemma JoinedIsEncode(x: seq<byte>, y: seq<byte>, z: seq<byte>)
    ensures Joined([Frame(x), Frame(y), Frame(z)]) == Encode([x, y, z])
  {
    hide Frame;
    assert [Frame(x), Frame(y), Frame(z)][1..] == [Frame(y), Frame(z)] && [Frame(y), Frame(z)][1..] == [Frame(z)];
    assert [x, y, z][1..] == [y, z] && [y, z][1..] == [z] && [z][1..] == [] && [Frame(z)][1..] == [];
    assert Joined([Frame(z)]) == Frame(z) + Joined([]) && Encode([z]) == Frame(z) + Encode([]);
    assert Joined([Frame(y), Frame(z)]) == Frame(y) + Joined([Frame(z)]);
    assert Encode([y, z]) == Frame(y) + Encode([z]);
  }

  /** The messages a new connection starts with. */
  function Greetings(bitfield: seq<byte>, writes: seq<Write>): (r: seq<seq<byte>>)
    requires |writes| == 3
    ensures |r| == 3
  {
    [Accepted(Frame(Payload(Bitfield(bitfield))), writes[0]), Accepted(Frame(Payload(Unchoke)), writes[1]),
     Accepted(Frame(Payload(Interested)), writes[2])]
  }

  /** How many writes succeed before the first that fails. */
  function Successes(writes: seq<Write>): (n: nat)
    requires |writes| == 3
    ensures n <= 3
  {
    if writes[0].Fails? then 0 else if writes[1].Fails? then 1 else if writes[2].Fails? then 2 else 3
  }

  /** Sends them until a write fails, which breaks the connection. */
  method Greet(download: Download, peerId: nat, writes: seq<Write>)
    returns (sent: seq<seq<byte>>, ghost bitfield: seq<byte>)
    requires download.Valid() && peerId < |download.peers| && |writes| == 3
    requires download.peers[peerId].stream.Some?
    modifies download`peers
    ensures download.Valid()
    ensures download.View() == if Successes(writes) == 3 then old(download.View())
                               else BreakConnection(old(download.View()), peerId)
    ensures Packs(bitfield, PieceFlags(old(download.pieces)))
    ensures sent == Greetings(bitfield, writes)[..Successes(writes)]
  {
    hide Sound, FlatTo, Packs, Frame, Payload, PieceFlags, Accepted;
    var first, second, third;
    first, bitfield := SendBitfield(peerId, download, writes[0]);
    second := SendMsg(download, peerId, Unchoke, writes[1]);
    third := SendMsg(download, peerId, Interested, writes[2]);
    sent := AsSeq(first) + AsSeq(second) + AsSeq(third);
  }

  function AsSeq(bytes: Option<seq<byte>>): seq<seq<byte>> {
    if bytes.Some? then [bytes.value] else []
  }

  /** One established connection in `process_new_connections`. It survives exactly if all
      three greetings can be written; after the first failure nothing more is sent. */
  method ProcessNewConnection(download: Download, peerId: nat, stream: Stream, writes: seq<Write>)
    returns (sent: seq<seq<byte>>, ghost bitfield: seq<byte>)
    requires download.Valid() && peerId < |download.peers| && |writes| == 3
    modifies download`peers
    ensures download.Valid()
    ensures download.View() == if Successes(writes) == 3 then Connect(old(download.View()), peerId, stream)
                               else BreakConnection(old(download.View()), peerId)
    ensures Packs(bitfield, PieceFlags(old(download.pieces)))
    ensures forall i :: 0 <= i < |download.pieces| ==> HasBit(bitfield, i) == old(download.pieces)[i].downloaded
    ensures sent == Greetings(bitfield, writes)[..Successes(writes)]
    ensures |sent| <= 3 && (forall k :: 0 <= k < |sent| ==> !writes[k].Fails?)
    ensures |sent| < 3 ==> writes[|sent|].Fails?
    ensures AllWhole(bitfield, writes) ==> GreetsWith(Joined(sent), bitfield)
  {
    ghost var s := download.View();
    assert PeerSound(s, s.peers[peerId]);
    WithPeerSound(s, peerId, s.peers[peerId].(stream := Some(stream), outstanding := 0));
    WithPeerSound(s, peerId, Connect(s, peerId, stream).peers[peerId]);
    hide Sound, FlatTo, Packs, Greetings, PieceFlags, GreetsWith, Joined, Encode, Decode, HasBit, AllWhole;
    download.peers := download.peers[peerId := download.peers[peerId].(stream := Some(stream))];
    download.peers := download.peers[peerId := download.peers[peerId].(outstanding := 0)];
    assert download.View() == WithPeer(s, peerId, s.peers[peerId].(stream := Some(stream), outstanding := 0));
    sent, bitfield := Greet(download, peerId, writes);
    GreetingSent(bitfield, writes, download.pieces, sent);
    if |sent| == 3 {
      download.peers := download.peers[peerId := download.peers[peerId].(weInterested := true)];
      assert download.View() == Connect(s, peerId, stream);
    } else {
      assert download.View() == BreakConnection(s, peerId);
    }
  }

  lemma GreetingSent(bitfield: seq<byte>, writes: seq<Write>, pieces: seq<PieceState>, sent: seq<seq<byte>>)
    requires |writes| == 3 && Packs(bitfield, PieceFlags(pieces))
    requires sent == Greetings(bitfield, writes)[..Successes(writes)]
    ensures CeilDiv(|pieces|, 8) == |bitfield|
    ensures forall i :: 0 <= i < |pieces| ==> i / 8 < |bitfield| && HasBit(bitfield, i) == pieces[i].downloaded
    ensures |sent| == Successes(writes) && (forall k :: 0 <= k < |sent| ==> !writes[k].Fails?)
    ensures |sent| < 3 ==> writes[|sent|].Fails?
    ensures AllWhole(bitfield, writes) ==> GreetsWith(Joined(sent), bitfield)
  {
    BitfieldOfPieces(bitfield, pieces);
    hide Packs, HasBit, PieceFlags, Greetings, Joined, GreetsWith;
    if AllWhole(bitfield, writes) {
      GreetingsGreet(bitfield, writes);
      assert Greetings(bitfield, writes)[..3] == Greetings(bitfield, writes);
    }
  }

  lemma BitfieldOfPieces(bitfield: seq<byte>, pieces: seq<PieceState>)
    requires Packs(bitfield, PieceFlags(pieces))
    ensures CeilDiv(|pieces|, 8) == |bitfield|
    ensures forall i :: 0 <= i < |pieces| ==> i / 8 < |bitfield| && HasBit(bitfield, i) == pieces[i].downloaded
  {
    assert |PieceFlags(pieces)| == |pieces|;
    forall i | 0 <= i < |pieces| ensures i / 8 < |bitfield| && HasBit(bitfield, i) == pieces[i].downloaded {
      assert PieceFlags(pieces)[i] == pieces[i].downloaded;
    }
    hide HasBit;
  }

  // ---------- writing to several peers ----------

  /** One of the first `k` writes went to peer `p` and failed. */
  predicate Lost(receivers: seq<nat>, writes: nat -> Write, k: nat, p: nat) {
    exists l :: 0 <= l < k && l < |receivers| && receivers[l] == p && writes(l).Fails?
  }

  /** The peers after the first `k` writes: a failing write disconnects its receiver. */
  function AfterWrites(peers: seq<PeerState>, receivers: seq<nat>, writes: nat -> Write, k: nat): (r: seq<PeerState>)
    ensures |r| == |peers|
  {
    seq(|peers|, p requires 0 <= p < |peers| =>
      if peers[p].stream.Some? && Lost(receivers, writes, k, p) then Disconnected(peers[p]) else peers[p])
  }

  /** What the first `k` of the frames get out, and to whom: nothing to a peer without a
      connection or from its first failing write on. */
  function GotOut(peers: seq<PeerState>, receivers: seq<nat>, frames: seq<seq<byte>>, writes: nat -> Write, k: nat)
    : seq<(nat, seq<byte>)>
    requires k <= |receivers| == |frames| && forall l :: 0 <= l < |receivers| ==> receivers[l] < |peers|
  {
    if k == 0 then []
    else
      var p := receivers[k - 1];
      if peers[p].stream.None? || Lost(receivers, writes, k, p) then GotOut(peers, receivers, frames, writes, k - 1)
      else GotOut(peers, receivers, frames, writes, k - 1) + [(p, Accepted(frames[k - 1], writes(k - 1)))]
  }

  /** What gets out is exactly what is written to a connected peer up to its first failing write. */
  lemma {:induction false} GotOutIff(peers: seq<PeerState>, receivers: seq<nat>, frames: seq<seq<byte>>,
                                     writes: nat -> Write, k: nat, p: nat, bytes: seq<byte>)
    requires k <= |receivers| == |frames| && forall l :: 0 <= l < |receivers| ==> receivers[l] < |peers|
    ensures (p, bytes) in GotOut(peers, receivers, frames, writes, k) <==>
            exists l :: 0 <= l < k && receivers[l] == p && peers[p].stream.Some? &&
              bytes == Accepted(frames[l], writes(l)) &&
              forall m :: 0 <= m <= l && receivers[m] == p ==> !writes(m).Fails?
  {
    hide Accepted;
    if k != 0 {
      GotOutIff(peers, receivers, frames, writes, k - 1, p, bytes);
      LostIff(receivers, writes, k, receivers[k - 1]);
    }
  }

  lemma LostIff(receivers: seq<nat>, writes: nat -> Write, k: nat, p: nat)
    requires k <= |receivers|
    ensures !Lost(receivers, writes, k, p) <==>
            forall m :: 0 <= m < k && receivers[m] == p ==> !writes(m).Fails?
  {
  }

  /** With connected receivers and no failing write everything gets out, in order. */
  lemma {:induction false} AllGetOut(peers: seq<PeerState>, receivers: seq<nat>, frames: seq<seq<byte>>,
                                     writes: nat -> Write, k: nat)
    requires k <= |receivers| == |frames| && forall l :: 0 <= l < |receivers| ==> receivers[l] < |peers|
    requires forall l :: 0 <= l < |receivers| ==> peers[receivers[l]].stream.Some? && !writes(l).Fails?
    ensures |GotOut(peers, receivers, frames, writes, k)| == k
    ensures forall l :: 0 <= l < k ==>
              GotOut(peers, receivers, frames, writes, k)[l] == (receivers[l], Accepted(frames[l], writes(l)))
  {
    hide Accepted;
    if k != 0 {
      AllGetOut(peers, receivers, frames, writes, k - 1);
    }
  }

  function Partway(s: State, receivers: seq<nat>, writes: nat -> Write, k: nat): State {
    s.(peers := AfterWrites(s.peers, receivers, writes, k))
  }

  lemma NothingWrittenYet(s: State, receivers: seq<nat>, writes: nat -> Write)
    ensures Partway(s, receivers, writes, 0) == s
  {
    assert AfterWrites(s.peers, receivers, writes, 0) == s.peers;
  }

  /** One more write. */
  lemma OneMoreWrite(s: State, receivers: seq<nat>, frames: seq<seq<byte>>, writes: nat -> Write, k: nat)
    requires k < |receivers| == |frames| && forall l :: 0 <= l < |receivers| ==> receivers[l] < |s.peers|
    ensures var p := receivers[k];
            var now := Partway(s, receivers, writes, k);
            p < |now.peers| && AfterSend(now, p, !writes(k).Fails?) == Partway(s, receivers, writes, k + 1) &&
            (now.peers[p].stream.None? || writes(k).Fails? <==>
             s.peers[p].stream.None? || Lost(receivers, writes, k + 1, p)) &&
            GotOut(s.peers, receivers, frames, writes, k + 1) ==
              if now.peers[p].stream.None? || writes(k).Fails? then GotOut(s.peers, receivers, frames, writes, k)
              else GotOut(s.peers, receivers, frames, writes, k) + [(p, Accepted(frames[k], writes(k)))]
  {
    var p := receivers[k];
    var now := Partway(s, receivers, writes, k);
    hide Accepted;
    forall q
      ensures Lost(receivers, writes, k + 1, q) <==> Lost(receivers, writes, k, q) || (q == p && writes(k).Fails?)
    {
      if q == p && writes(k).Fails? {
        assert receivers[k] == q;
      }
    }
    assert AfterSend(now, p, !writes(k).Fails?).peers == AfterWrites(s.peers, receivers, writes, k + 1);
  }

  // ---------- broadcasts ----------

  function Receivers(broadcasts: seq<HaveBroadcast>): (r: seq<nat>)
    ensures |r| == |broadcasts| && forall k :: 0 <= k < |r| ==> r[k] == broadcasts[k].peerId
  {
    seq(|broadcasts|, k requires 0 <= k < |broadcasts| => broadcasts[k].peerId)
  }

  function HaveFrames(broadcasts: seq<HaveBroadcast>): (r: seq<seq<byte>>)
    ensures |r| == |broadcasts|
    ensures forall k :: 0 <= k < |r| ==> r[k] == Frame(Payload(Have(AsU32(broadcasts[k].pieceId))))
  {
    seq(|broadcasts|, k requires 0 <= k < |broadcasts| => Frame(Payload(Have(AsU32(broadcasts[k].pieceId)))))
  }

  /** On the wire a broadcast names its piece. */
  lemma HaveOnWire(broadcasts: seq<HaveBroadcast>, k: nat)
    requires k < |broadcasts| && broadcasts[k].pieceId < U32_RANGE
    ensures var frame := HaveFrames(broadcasts)[k];
            |frame| == 9 && frame[4] == 4 && BytesToU32(frame[5..9]) == broadcasts[k].pieceId
  {
    WireFormat(Have(broadcasts[k].pieceId));
    assert |Payload(Have(broadcasts[k].pieceId))| == 5;
  }

  function AfterBroadcast(s: State, writes: nat -> Write): State {
    var broadcasts := Broadcasts(s.peers, s.recent, |s.recent|);
    Partway(s.(recent := []), Receivers(broadcasts), writes, |broadcasts|)
  }

  lemma ToldAreKnown(s: State)
    ensures forall h :: h in Broadcasts(s.peers, s.recent, |s.recent|) ==> h.peerId < |s.peers|
  {
    forall h | h in Broadcasts(s.peers, s.recent, |s.recent|) ensures h.peerId < |s.peers| {
      BroadcastsIff(s.peers, s.recent, |s.recent|, h);
    }
  }

  /** `broadcast_have`; `writes` says what becomes of each write. */
  method BroadcastHave(download: Download, writes: nat -> Write) returns (sent: seq<(nat, seq<byte>)>)
    requires download.Valid()
    modifies download`recentlyDownloadedPieces, download`peers
    ensures download.Valid() && download.View() == AfterBroadcast(old(download.View()), writes)
    ensures var s := old(download.View());
            var broadcasts := Broadcasts(s.peers, s.recent, |s.recent|);
            (forall k :: 0 <= k < |broadcasts| ==> broadcasts[k].peerId < |s.peers|) &&
            sent == GotOut(s.peers, Receivers(broadcasts), HaveFrames(broadcasts), writes, |broadcasts|)
  {
    ToldAreKnown(download.View());
    hide Sound, FlatTo, Broadcasts, Partway, GotOut;
    var broadcasts := DecideHaveBroadcasts(download);
    sent := SendHaves(download, broadcasts, writes);
  }

  method SendHaves(download: Download, broadcasts: seq<HaveBroadcast>, writes: nat -> Write)
    returns (sent: seq<(nat, seq<byte>)>)
    requires download.Valid() && forall k :: 0 <= k < |broadcasts| ==> broadcasts[k].peerId < |download.peers|
    modifies download`peers
    ensures download.Valid()
    ensures download.View() == Partway(old(download.View()), Receivers(broadcasts), writes, |broadcasts|)
    ensures sent == GotOut(old(download.peers), Receivers(broadcasts), HaveFrames(broadcasts), writes, |broadcasts|)
  {
    ghost var s := download.View();
    ghost var receivers, frames := Receivers(broadcasts), HaveFrames(broadcasts);
    NothingWrittenYet(s, receivers, writes);
    NothingOut(s.peers, receivers, frames, writes);
    hide Sound, FlatTo, Frame, Payload, Partway, AfterSend, GotOut, Accepted;
    sent := [];
    for k := 0 to |broadcasts|
      invariant download.Valid() && download.View() == Partway(s, receivers, writes, k)
      invariant sent == GotOut(s.peers, receivers, frames, writes, k)
    {
      OneMoreWrite(s, receivers, frames, writes, k);
      var bytes := SendHave(download, broadcasts[k].peerId, broadcasts[k].pieceId, writes(k));
      if bytes.Some? {
        sent := sent + [(broadcasts[k].peerId, bytes.value)];
      }
    }
  }

  lemma NothingOut(peers: seq<PeerState>, receivers: seq<nat>, frames: seq<seq<byte>>, writes: nat -> Write)
    requires |receivers| == |frames| && forall l :: 0 <= l < |receivers| ==> receivers[l] < |peers|
    ensures GotOut(peers, receivers, frames, writes, 0) == []
  {
  }

  // ---------- serving ----------

  function Askers(requests: seq<IncomingBlockRequest>): (r: seq<nat>)
    ensures |r| == |requests| && forall k :: 0 <= k < |r| ==> r[k] == requests[k].peerId
  {
    seq(|requests|, k requires 0 <= k < |requests| => requests[k].peerId)
  }

  predicate AllServable(s: State, requests: seq<IncomingBlockRequest>) {
    forall k :: 0 <= k < |requests| ==> requests[k].peerId < |s.peers| && Servable(s, requests[k])
  }

  function ReplyFrames(s: State, requests: seq<IncomingBlockRequest>): (r: seq<seq<byte>>)
    requires AllServable(s, requests)
    ensures |r| == |requests| && forall k :: 0 <= k < |r| ==> r[k] == Frame(Payload(ReplyTo(s, requests[k])))
  {
    seq(|requests|, k requires 0 <= k < |requests| => Frame(Payload(ReplyTo(s, requests[k]))))
  }

  /** The bytes of those of the first `k` requested blocks that are sent. */
  function Uploads(peers: seq<PeerState>, requests: seq<IncomingBlockRequest>, writes: nat -> Write, k: nat): nat
    requires k <= |requests| && forall l :: 0 <= l < |requests| ==> requests[l].peerId < |peers|
  {
    if k == 0 then 0
    else
      var r := requests[k - 1];
      Uploads(peers, requests, writes, k - 1) +
      if peers[r.peerId].stream.None? || Lost(Askers(requests), writes, k, r.peerId) then 0 else r.length
  }

  /** `execute_incoming_block_requests`: hands every queued request to `send_block`, in order. All
      of them must be servable, whoever is still connected. */
  method ExecuteIncomingBlockRequests(download: Download, stats: Stats, writes: nat -> Write)
    returns (sent: seq<(nat, seq<byte>)>)
    requires download.Valid() && stats.Valid()
    requires forall k :: 0 <= k < |download.View().pending| ==> Servable(download.View(), download.View().pending[k])
    modifies download`pendingBlockRequests, download`peers, stats`uploaded
    ensures download.Valid() && stats.Valid()
    ensures var s := old(download.View());
            AllServable(s, s.pending) &&
            download.View() == Partway(s.(pending := []), Askers(s.pending), writes, |s.pending|) &&
            sent == GotOut(s.peers, Askers(s.pending), ReplyFrames(s, s.pending), writes, |s.pending|) &&
            stats.uploaded == old(stats.uploaded) + Uploads(s.peers, s.pending, writes, |s.pending|)
  {
    ghost var s := download.View();
    assert AllServable(s, s.pending);
    hide Sound, FlatTo, Partway, GotOut, Frame, Payload, ReplyTo, Uploads;
    var requests := DecideIncomingBlockRequests(download);
    sent := SendBlocks(download, stats, requests, writes);
    assert ReplyFrames(s.(pending := []), s.pending) == ReplyFrames(s, s.pending) by {
      SameReplies(s);
    }
  }

  lemma SameReplies(s: State)
    requires AllServable(s, s.pending)
    ensures AllServable(s.(pending := []), s.pending)
    ensures ReplyFrames(s.(pending := []), s.pending) == ReplyFrames(s, s.pending)
  {
    hide Frame, Payload;
  }

  method SendBlocks(download: Download, stats: Stats, requests: seq<IncomingBlockRequest>, writes: nat -> Write)
    returns (sent: seq<(nat, seq<byte>)>)
    requires download.Valid() && stats.Valid() && AllServable(download.View(), requests)
    modifies download`peers, stats`uploaded
    ensures download.Valid() && stats.Valid()
    ensures download.View() == Partway(old(download.View()), Askers(requests), writes, |requests|)
    ensures sent == GotOut(old(download.peers), Askers(requests), ReplyFrames(old(download.View()), requests), writes,
                           |requests|)
    ensures stats.uploaded == old(stats.uploaded) + Uploads(old(download.peers), requests, writes, |requests|)
  {
    ghost var s := download.View();
    ghost var receivers, frames := Askers(requests), ReplyFrames(s, requests);
    NothingWrittenYet(s, receivers, writes);
    NothingOut(s.peers, receivers, frames, writes);
    hide Sound, FlatTo, Frame, Payload, Partway, AfterSend, GotOut, Accepted, ReplyTo, Servable;
    sent := [];
    for k := 0 to |requests|
      invariant download.Valid() && stats.Valid() && download.View() == Partway(s, receivers, writes, k)
      invariant sent == GotOut(s.peers, receivers, frames, writes, k)
      invariant stats.uploaded == old(stats.uploaded) + Uploads(s.peers, requests, writes, k)
    {
      OneMoreWrite(s, receivers, frames, writes, k);
      StillServable(s, receivers, writes, k, requests[k]);
      var bytes := SendBlock(download, stats, requests[k], writes(k));
      if bytes.Some? {
        sent := sent + [(requests[k].peerId, bytes.value)];
      }
    }
  }

  /** Writing to peers does not touch what is served. */
  lemma StillServable(s: State, receivers: seq<nat>, writes: nat -> Write, k: nat, r: IncomingBlockRequest)
    requires Servable(s, r)
    ensures var now := Partway(s, receivers, writes, k);
            |now.peers| == |s.peers| && Servable(now, r) && ReplyTo(now, r) == ReplyTo(s, r)
  {
  }

  // ---------- requests within a tick ----------

  predicate FreshRecord(b: Block, expiry: nat, decided: nat) {
    b.record.Some? && (expiry - b.record.value.time <= REQUEST_EXPIRATION || b.record.value.time == decided)
  }

  /** Every missing block has a fresh record, unless the tick was full or no peer can take it. */
  ghost predicate NoBlockStuck(s: State, full: bool, expiry: nat, decided: nat) {
    forall i, b :: 0 <= i < |s.pieces| && !s.pieces[i].downloaded &&
                   0 <= b < |s.pieces[i].blocks| && !BlockAt(s, i, b).downloaded ==>
      full || FreshRecord(BlockAt(s, i, b), expiry, decided) ||
      forall p :: 0 <= p < |s.peers| ==> !Eligible(s.peers[p], i, 0)
  }

  /** Expiry, broadcast and scheduling in the order of the main loop: no block stays stuck
      behind a lost request. */
  method RequestPhase(download: Download, expiry: nat, decided: nat, writes: nat -> Write)
    returns (sent: seq<(nat, seq<byte>)>, requests: seq<BlockRequest>)
    requires download.Valid() && RecordsBefore(download.View(), expiry)
    modifies download
    ensures download.Valid()
    ensures var s := AfterBroadcast(RemoveExpired(old(download.View()), expiry), writes);
            IsSchedule(s, requests) && RequestsInRange(s, requests) &&
            download.View() == IssueRequests(s, requests, decided)
    ensures NoBlockStuck(download.View(), |requests| == MAX_REQUESTS_PER_TICK_PER_DOWNLOAD, expiry, decided)
  {
    ghost var s := download.View();
    RemoveExpiredRequests(download, expiry);
    sent := BroadcastHave(download, writes);
    ghost var s1 := download.View();
    assert s1.pieces == RemoveExpired(s, expiry).pieces;
    hide Sound, FlatTo, RecordsBefore, IsSchedule, NoBlockStuck, RemoveExpired, IssueRequests, AfterBroadcast;
    requests := DecideBlockRequests(download, decided);
    TickCoverage(s, s1, requests, expiry, decided);
  }

  /** The same over states, whatever happens to the peers between expiry and scheduling. */
  lemma TickCoverage(s: State, s1: State, reqs: seq<BlockRequest>, expiry: nat, decided: nat)
    requires s1.pieces == RemoveExpired(s, expiry).pieces && IsSchedule(s1, reqs) && RequestsInRange(s1, reqs)
    ensures NoBlockStuck(IssueRequests(s1, reqs, decided),
                         |reqs| == MAX_REQUESTS_PER_TICK_PER_DOWNLOAD, expiry, decided)
  {
    var s' := IssueRequests(s1, reqs, decided);
    if |reqs| < MAX_REQUESTS_PER_TICK_PER_DOWNLOAD {
      GreedyMaximal(s1, reqs, decided);
      hide IsSchedule, IssueRequests;
      forall i, b | 0 <= i < |s'.pieces| && 0 <= b < |s'.pieces[i].blocks| && BlockAt(s', i, b).record.Some?
        ensures FreshRecord(BlockAt(s', i, b), expiry, decided)
      {
        RecordFresh(s, s1, reqs, expiry, decided, i, b);
      }
      forall i, b, p | 0 <= i < |s'.pieces| && !s'.pieces[i].downloaded && 0 <= b < |s'.pieces[i].blocks| &&
                       !BlockAt(s', i, b).downloaded && BlockAt(s', i, b).record.None? && 0 <= p < |s'.peers|
        ensures !Eligible(s'.peers[p], i, 0)
      {
        assert Candidate(s'.pieces, i, b);
      }
    }
  }

  lemma RecordFresh(s: State, s1: State, reqs: seq<BlockRequest>, expiry: nat, decided: nat, i: nat, b: nat)
    requires s1.pieces == RemoveExpired(s, expiry).pieces && RequestsInRange(s1, reqs)
    requires i < |s1.pieces| && b < |s1.pieces[i].blocks|
    ensures var s' := IssueRequests(s1, reqs, decided);
            BlockAt(s', i, b).record.Some? ==> FreshRecord(BlockAt(s', i, b), expiry, decided)
  {
    RecordedAt(s1, reqs, decided, |reqs|, i, b);
  }
}
