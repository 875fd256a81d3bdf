# rustorcli's download engine, modelled and proved in Dafny

rustorcli is a BitTorrent client. This project models the part of it that moves and
checks data: how a torrent's bytes lie across files, how pieces are verified, which blocks
are requested from whom, how messages are serialized and cut out of a byte stream again,
and how the transfer speed is measured. `dafny verify dfyconfig.toml` checks all of it.

## How it is laid out

The model has two layers. `Download` and `Stats` are classes whose methods follow the Rust
methods loop by loop and update their fields; each is proved to take `View()`, a plain value
of type `State`, to the next state given by a function in `TorrentState`. On those values the
remaining modules prove what the client is for, over single steps and over whole runs.

- `Config`, `Wrappers`, `IoPrimitives`, `Codec`, `Framing`: constants, options and results,
  bytes and bits, messages, and the resumable receiver.
- `Storage`, `Geometry`: files as one flat byte string; pieces and blocks as intervals of it.
- `TorrentState`, `Soundness`: the state of a download, every step, and what all steps keep.
- `Download`, `PeerProtocol`, `Decider`, `MainLoop`, `SpeedWindow`: the source's operations.
- `Runs`: traces of steps in any order (messages, socket changes, scheduling, expiry, broken
  and new connections, new peers).
- `Safety`, `Accounting`, `Rerequest`, `Signals`, `Announcing`, `Convergence`, `Relocation`,
  `Starvation`: the main results on one client.
- `Welcome`, `Exchange`, `TwoParty`, `Completion`: two clients and the connection between them.

## Main results

- Files. Reading and writing through any list of files, empty and physically short ones
  included, is slicing and splicing one flat string, and the panic after the last file is
  reached exactly when the range does not lie inside the torrent.
- Verified pieces. "Marked downloaded" means that all blocks are there and that the stored
  bytes have the hash, however corrupt, duplicate, misaligned or late the data, over every run
  whose piece messages overlap no marked piece but the one they name. The source does not
  check that they do not: for every hash and every accepted message, a step keeps the
  invariant if and only if the other marked pieces still have their hash, and the messages
  that are safe in all states are exactly those whose writes the hash never notices in another
  piece; for any hash that tells two concrete byte strings apart these are the messages that
  carry nothing past their piece's end.
- Tiling. Blocks are cut at the end of the torrent, not of the piece, so they partition the
  torrent exactly when there is one piece or the piece length is a multiple of 16 KiB.
- Completion. The download's flag is true exactly when all blocks were there at some moment
  so far. Unless a stored piece collides with an original one, it rises on the original content
  if and only if the message that raises it leaves the hashes of the other marked pieces
  intact; a message that runs over into a marked piece can raise it on wrong content. It is
  never cleared, so it does not speak about later moments.
- Scheduling. What `decide_block_requests` returns is the only greedy schedule for its state;
  unless the tick is full nothing more could have been requested; after expiry and scheduling
  no block is stuck behind a lost request.
- Who may be asked. Every request of every schedule is for a missing block nobody was asked for and
  goes to the first peer that is connected, has unchoked us, has shown the piece and has room; a
  missing block is left out of a tick that is not full only if every peer lacks one of these.
- What is known of a peer. On every run a peer counts as unchoking, interested, connected or in
  possession of a piece exactly if it said so, or connected, after it last took that back or its
  connection last broke (what a peer has is kept over a broken connection). So no schedule asks a
  peer between its choke, or the end of its connection, and its next unchoke.
- Announcing. On every run a piece message queues its piece for announcement exactly when it leaves
  all blocks of the piece there and bytes with its hash; nothing else but a broadcast changes the
  queue. So between broadcasts the queue is the list of pieces completed, in order, and a broadcast
  tells every connected peer not known to have them about all of them.
- Accounting. A peer's counter of outstanding requests never exceeds its records nor the cap of
  10, on all runs; it equals the number of records as long as, and a step destroys the match
  exactly when, no connection is dropped or replaced while records name its peer.
- No early re-request. Between two requests for a block more than 30 s pass, or the peer first
  asked delivers it and its piece then fails the hash check.
- Records beyond the cap. The cap of 10 is on the counter. The records of a peer stay within it,
  whatever the state and the schedule, exactly when its counter covers them, which it does
  until a connection is lost; then one peer can hold 20, on a run that is given. A counter can
  become negative exactly when its peer has records it does not cover.
- Who is asked. A peer that could take every block is asked if and only if the peers before it
  leave some block the tick has room for. So a peer that has everything and never answers can
  keep all later peers from ever being asked: if at most ten blocks are wanted, round after
  round asks only up to it, and every expiry restores the state.
- Bytes. Numbers are big-endian: the first byte weighs most, and every message is given byte by byte,
  as are the bits of a bitfield.
- Codec and framing. Decoding undoes serializing. Over every run of a connection the bytes
  consumed and the bytes still pending are the bytes sent if and only if no read met a length
  prefix of which only one to three bytes had arrived (those bytes are thrown away by the
  source), and exactly then the messages come out as they were sent, however they were chopped.
  When a call of such a run reports that the other side has closed, the messages returned before
  are exactly those that had arrived whole. A stream that replaces another is read as it was sent
  if and only if no message of the old one was half received.
- Convergence. For every piece length and total size: a download that receives original blocks
  in any order, repeated, and interleaved with anything else ends with the original content,
  fully verified. Blocks that overlap, where the piece length is no multiple of 16 KiB, do no
  harm, as no original block changes a byte of a marked piece.
- Recovery. A download may hold any corrupt data, and corrupt blocks may keep arriving as long as
  they overlap no other marked piece. What is marked is original, and stays so if and only if no
  check passes on other bytes, which would be a collision of two strings that the step compares.
  Every block it misses, and every block of a piece that holds corrupt data once more, is its
  distance from the end: original blocks never raise it and a missing one lowers it. Two passes
  of original blocks always complete the download, and one does not, whatever was on disk.
- Greeting. If no write fails or would block, a new connection starts with the bytes of a bitfield of
  the downloaded pieces, an unchoke and an interested message. A client that reads and handles
  these bytes is unchoked, knows the other's interest and exactly which pieces the other has.
- Two clients. A leecher and a seeder share one connection on which schedules, pipelined
  requests, replies, other messages, partial arrivals and everything either side does with other
  peers interleave freely; the connection may be lost and replaced at any time, and other peers
  may send the leecher any corrupt blocks that overlap no other marked piece, and requests that
  can be served. On every run, as long as no check passes on wrong bytes, neither client panics
  while reading, handling, scheduling or serving; each direction is a first-in first-out queue of
  messages; every piece message handled is an original block; every block requested on this
  connection since its piece last failed its check is downloaded or its request or reply is on
  its way. Without new corrupt data the distance never rises, lost connections included, and for
  a download free of it the number of missing blocks falls by exactly the blocks gained. When
  nothing is under way and every block is there or was requested, the leecher has the seeder's
  content.
- Moving the finished download. One panic is not excluded by that. Where the temporary path is not
  the destination (the `.part` suffix), the files are moved at every piece message that leaves
  all blocks there, and moving them twice panics. For a download not complete at its start that
  happens exactly at a piece message that finds the flag set and leaves all blocks there, for
  example any original block that arrives once more.
- No dead end. From every state such a run can reach, any corrupt data included, if the seeder is
  the only connection, has unchoked the leecher and announced its pieces, expiry, the greedy
  scheduler, delivery and serving alone can complete the download or lead to a check that passes
  on wrong bytes; without corrupt data they can complete it, so two new clients always can
  once the seeder's greeting has arrived, whatever bytes it consists of. And
  every run on which no check does so and that keeps asking does complete it: once it has asked
  the seeder and come to rest as often as the distance, whatever else happens in between, the
  leecher has the content and keeps it, if no further corrupt data arrives.

## Assumptions

SHA-1 is an arbitrary function from byte strings to byte strings. Where a result needs that two
strings do not collide, it says so, and they are strings that the client compares:
`Safety.Separates` for the stored pieces when a download starts or its flag rises, and
`Convergence.Unfooled` for the one check a piece message makes. A check that is fooled is an
explicit collision (`Convergence.FooledIsCollision`). The two-client results are for torrents
whose indices, offsets and lengths fit the protocol's u32 fields (`Exchange.Sensible`), and for
surroundings as in `TwoParty.Offered`. Time counts nanoseconds and is passed in; the clock does
not go backwards where the source would panic if it did. A write to a file is complete. A write
to a socket takes some of the bytes or fails; as in the source, would-block counts as success and
the rest is dropped. On a socket, reading returns what has arrived; an attempt to read more
reports would-block until the other side closes. Integers are unbounded except where a cast to
u32 is written out. The number of blocks and the bitfield's length are ceilings of integer
divisions, which the source computes through floating point.

## Model

| member | source | states |
|---|---|---|
| IoPrimitives.BytesOrdered | src/io_primitives.rs:6-26 | of two four-byte strings the one with the smaller first differing byte is the smaller number: the first byte weighs most |
| IoPrimitives.BytesToU32Injective | src/io_primitives.rs:21-26 | different strings are different numbers, so order and range leave no choice |
| IoPrimitives.DigitWeights | src/io_primitives.rs:28-38 | the digits of a number are its quotients by 2^24, 2^16, 2^8 and 1, modulo 256, in this order |
| IoPrimitives.U32Digits | src/io_primitives.rs:28-38 | four digits whose value is the number again |
| IoPrimitives.BytesRoundTrip | src/io_primitives.rs:21-38 | conversely, any four bytes are recovered from their value |
| IoPrimitives.U32ToBytes | src/io_primitives.rs:28-38 | the successive divisions and subtractions compute those digits, each stated by its weight, the heaviest first |
| IoPrimitives.TestAfterSet | src/peer_protocol.rs:164-187 | after or-ing in one bit, exactly that bit is added |
| IoPrimitives.ReadNToBuf | src/io_primitives.rs:40-77 | reads all n bytes, or takes what is there into the buffer and reports would-block on an open, failure on a closed connection |
| IoPrimitives.ReadUptoNNonblocking | src/io_primitives.rs:79-94 | appends up to n bytes and keeps them even when it reports would-block |
| Codec.Serialize | src/peer_protocol.rs:29-60 | produces the length prefix (cast to u32) and the payload of the message, whose bytes WireFormat gives |
| Codec.WireFormat | src/peer_protocol.rs:29-60 | every message byte by byte: a big-endian length of what follows, the type's number, the fields in order as big-endian numbers, and the data |
| Codec.HaveOne | src/peer_protocol.rs:35-38 | for one: `Have(1)` is 00 00 00 05 04 00 00 00 01 |
| Codec.TypeBytes | src/peer_protocol.rs:68-113 | each of the type bytes 0 to 7 means one kind of message and no other byte does |
| Codec.DecodePayload | src/peer_protocol.rs:63-113 | decoding a serialized payload gives back type, fields and data |
| Codec.PayloadDecode | src/peer_protocol.rs:63-113 | a decoded payload serializes to the same bytes if and only if it has no trailing bytes that the handlers ignore |
| Codec.PackBitfield | src/peer_protocol.rs:155-174 | ceil(n/8) bytes, the bit of every piece equal to its flag, all spare bits zero |
| Codec.BitfieldByte | src/peer_protocol.rs:163-171 | byte k of a packed bitfield is 128 for piece 8k, 64 for the next and so on, summed over those that are there |
| Codec.UnpackBitfield | src/peer_protocol.rs:176-199 | reads flag i from bit 7 - i mod 8 of byte i / 8 |
| Codec.BitfieldRoundTrip | src/peer_protocol.rs:155-199 | the receiver of a sent bitfield learns exactly the sender's flags |
| Framing.ReadyKept | src/peer_protocol.rs:280-301 | between calls the buffer is shorter than the expected message (or both are empty), so the remaining length never underflows; returned payloads are not empty |
| Framing.NothingLostIff | src/peer_protocol.rs:252-318 | open or closed, a call moves bytes from stream to result without loss if and only if it does not meet a partly arrived prefix |
| Framing.ConservedIff | src/peer_protocol.rs:242-319 | over any interleaving of arrivals and calls on a connection that may be closed at any point, consumed frames plus pending bytes are the bytes sent if and only if no call meets a partly arrived prefix |
| Framing.StreamConserved | src/peer_protocol.rs:242-319 | the sufficient half on its own: with whole prefixes nothing is lost over any run |
| Framing.RunShrinks | src/peer_protocol.rs:252-275 | the necessary half: bytes thrown away once are missing from every later total |
| Framing.CutUnique | src/peer_protocol.rs:242-319 | a stream can be cut into length-prefixed frames in one way only |
| Framing.FramingExact | src/peer_protocol.rs:242-319 | from any receive state, the calls return exactly the payloads sent (keepalives included), in order, with the rest still pending, if and only if no call meets a partly arrived prefix |
| Framing.MessagesDelivered | src/peer_protocol.rs:63-113 | what comes out of a stream of any list of messages decodes to the first of them, in order |
| Framing.ReadsExactlyIff | src/peer_protocol.rs:280-301 | a new stream is read as it was sent, whatever it is and however chopped, if and only if no message was half received before |
| Framing.HalfMessageSwallows | src/peer_protocol.rs:280-301 | otherwise the old message swallows the beginning of the new stream, shown on a concrete stream |
| Framing.AllDelivered | src/peer_protocol.rs:242-319 | once everything has arrived, every call consumes the next frame until none is left |
| Framing.BrokenAfterAll | src/peer_protocol.rs:242-319 | when a call reports the end and none before met a partly arrived prefix, the messages returned before are exactly those whose bytes had all arrived when the other side closed |
| Framing.BrokenIff | src/io_primitives.rs:40-94 | a call reports the end if and only if the connection is closed and nothing, or no more than a prefix, is left to read |
| Framing.ClosedEnds | src/io_primitives.rs:79-94 | on a closed connection a call that returns nothing is followed by one that reports the end |
| Storage.FlatByte | src/download.rs:531-548 | the flat string by bytes: byte x of a file lies behind all earlier files, and is zero where the file is physically shorter |
| Storage.ReadIsSlice | src/download.rs:550-559 | a physical read padded with zeros is a slice of the padded file |
| Storage.WriteIsSplice | src/download.rs:584-599 | a physical write, past the physical end too, splices the padded file and does not grow it past its declared length |
| Storage.FlatUpdate | src/download.rs:577-605 | splicing one file splices the concatenation of all files at the right place |
| Storage.ReadAfterWrite | src/download.rs:526-611 | after a write every byte of any range read back is the new one where it was written and the old one elsewhere; the written range returns the data, a disjoint one is unchanged |
| Download.Download.GetContent | src/download.rs:526-570 | returns exactly the requested slice of the flat string, or panics, if and only if the range is not inside the torrent |
| Download.Download.SetContent | src/download.rs:572-611 | lays the data over the flat string; panics if and only if the range is not inside the torrent, having written the part that is; keeps declared lengths and grows no file past them |
| Download.Download.InitPieces | src/download.rs:466-524 | builds the pieces and blocks of Geometry.InitialPieces, each marked downloaded if and only if the stored bytes have its hash |
| Download.Download.constructor | src/download.rs:344-371 | a new download is in the initial state, its flag set if and only if all blocks are there |
| Download.Download.GetIsDownloaded | src/download.rs:663-695 | the two block counts agree if and only if every piece is marked or has all its blocks |
| Download.Download.OnDone | src/download.rs:654-661 | moves the files if the paths differ, and fails if and only if they differ and the files were moved before |
| Download.Download.SetBlockDownloaded | src/download.rs:451-460 | marks the block, checks or resets its piece, queues the piece if and only if it is marked downloaded then, updates the flag, and moves the files whenever all is done, which fails if and only if the paths differ and they were moved before |
| Download.Download.SetPieceBlockDownloaded | src/download.rs:707-715 | the piece becomes downloaded if and only if it was or all its blocks now are |
| Download.Download.OnPieceDone | src/download.rs:613-638 | keeps and queues the piece if its bytes have the hash, resets it if not |
| Download.Download.Reset | src/download.rs:733-738 | unmarks the piece and all its blocks, keeping the request records |
| Download.Download.OnBrokenConnection | src/download.rs:640-652 | clears the peer's connection state and counter and nothing else; records stay |
| Download.Download.RegisterPeer | src/download.rs:395-409 | appends one fresh peer and returns its index |
| Announcing.QueueStep | src/download.rs:613-638 | for every event: a piece message puts its piece last in the queue if and only if it leaves all its blocks there and stored bytes with its hash; a broadcast empties the queue; nothing else changes it |
| Announcing.QueueIsCompletions | src/download.rs:451-455 | on every run the queue grows between broadcasts by exactly the pieces completed, in order, each time they are |
| Announcing.CompletedIsAnnounced | src/decider.rs:153-169 | so a broadcast tells every connected peer not known to have it about every piece completed since the last broadcast |
| Announcing.InitiallyMarksRight | src/download.rs:466-524 | a new download marks the pieces that have all their blocks and no others, as these results ask |
| Geometry.InitiallyMarked | src/download.rs:466-524 | each piece starts at its index times the piece length, has the hash listed there, and it and its blocks are marked if and only if the stored bytes have that hash; nothing is requested, queued or connected |
| Geometry.PiecesPartition | src/download.rs:472-482 | every position of the torrent lies in exactly one piece, every other in none |
| Geometry.BlocksPartitionIff | src/download.rs:497-513 | every byte lies in exactly one block if and only if there is one piece or the piece length is a multiple of the block size |
| Geometry.BlockInPiece | src/download.rs:497-513 | under that condition blocks are non-empty, at most 16 KiB, full but for the last, and end where their piece ends |
| Geometry.Overlap | src/download.rs:503-506 | otherwise the first byte of piece 1 also lies in the last block of piece 0 |
| PeerProtocol.ReceiveFrom | src/peer_protocol.rs:242-319 | one call on a peer is one step of the receiver of Framing |
| PeerProtocol.ProcessMessage | src/peer_protocol.rs:63-114 | handles the decoded message, as Signals, Announcing and TwoParty.PendingAfter say without it; only piece messages enter the speed statistics |
| Signals.PeerStep | src/peer_protocol.rs:69-90 | for every event and every peer, which events set and which clear the choke, the two interests, the connection and the receive state; no other event changes them |
| Signals.HasPieceStep | src/peer_protocol.rs:176-218 | a piece is known of a peer after an event if and only if the event shows it, or it was known and no bitfield without it arrived |
| Signals.JoinStep | src/download.rs:395-409 | a new peer chokes us, is not interested, and is not known to have any piece |
| Signals.SignalIff | src/peer_protocol.rs:63-114 | on every run: a peer is unchoking, interested, told of our interest, connected, or known to have a piece exactly if that was set after it was last cleared, or was so at the start and never cleared |
| Signals.NotAskedWhileChoked | src/decider.rs:177-179 | on every run no schedule asks a peer after its choke or the loss of its connection until it unchokes us again |
| Signals.AskedHasShown | src/decider.rs:171-191 | on every run from no peers, whoever is asked for a block of a piece has connected, has unchoked us and has shown the piece, none of it taken back since |
| TwoParty.PendingAfter | src/download.rs:447-449 | for every event: a request is filed last in the queue, with its sender, offset, length and piece; serving empties the queue; nothing else changes it |
| PeerProtocol.OnPiece | src/peer_protocol.rs:340-370 | writes the data whatever it is, settles the sender's own record, marks and checks the block's piece, moves a finished download, and enters the statistics unless that fails |
| PeerProtocol.SendMsg | src/peer_protocol.rs:372-400 | gets the serialized message out, or as much of it as the socket takes, which still counts as success; fails without a connection, and breaks the connection if the write fails |
| PeerProtocol.RequestBlock | src/peer_protocol.rs:133-153 | sends the block's index, offset and length, cast to u32, as far as the socket takes them; a failing write breaks the connection |
| PeerProtocol.SendBlock | src/peer_protocol.rs:220-240 | sends the requested range of the stored content, as far as the socket takes it, and counts it as uploaded in full unless the write failed, which breaks the connection |
| PeerProtocol.SendBitfield | src/peer_protocol.rs:155-174 | sends a bitfield that packs the downloaded flags of all pieces, as far as the socket takes it |
| Decider.FindPeer | src/decider.rs:171-191 | the lowest-index peer that has a stream, does not choke us, has the piece and is below its cap; every peer before it, and with no result every peer, lacks one of the four |
| Decider.AskedIsAllowed | src/decider.rs:45-70 | every request of every schedule is for a missing unrecorded block of an unmarked piece and goes to a connected, unchoking peer that has the piece, with its counter plus its earlier requests of the tick below 10; every peer before it lacks one of these |
| Decider.NotAskedLacks | src/decider.rs:45-70 | with fewer than 100 requests, every peer lacks one of these for every missing unrecorded block left out |
| Decider.ChooseRequests | src/decider.rs:39-70 | the nested loops with their per-tick break produce a greedy schedule, and the per-peer additions count its requests |
| Decider.DecideBlockRequests | src/decider.rs:39-84 | returns a greedy schedule, records exactly its requests and raises the counters by it |
| Decider.ScheduleUnique | src/decider.rs:39-70 | there is at most one greedy schedule for a state, so the result is determined |
| Decider.ScheduleExists | src/decider.rs:39-70 | there is one for every state |
| Decider.GreedyMaximal | src/decider.rs:45-83 | with fewer than 100 requests, no peer is left that could take any missing unrecorded block |
| Decider.RecordedAt | src/decider.rs:72-78 | exactly the requested blocks get a record of this tick, and nothing else about any block or piece changes |
| Decider.DecideIncomingBlockRequests | src/decider.rs:86-97 | hands over all pending requests in order and leaves none |
| Decider.DecideHaveBroadcasts | src/decider.rs:153-169 | returns the broadcasts of the queued pieces, piece by piece and peer by peer, empties the queue and changes nothing else |
| Decider.BroadcastsOrdered | src/decider.rs:153-169 | the broadcasts for one more queued piece follow all earlier ones, each peer at most once and in the order of the peers |
| Decider.BroadcastsIff | src/decider.rs:153-169 | a peer is told about a piece if and only if the piece is queued, the peer is connected and it is not known to have the piece |
| MainLoop.RemoveExpiredRequests | src/main_loop.rs:300-331 | drops exactly the records older than 30 s and lowers each counter by its number of them |
| Accounting.ExpiryExactly | src/main_loop.rs:300-331 | for each block and peer: a record goes if and only if it is more than 30 s old, nothing else about the block or the peer changes but the counter, which falls by the peer's records that went |
| MainLoop.MessagesInOrder | src/main_loop.rs:549-556 | the messages collected are those of the frames read, in order, without the keepalives |
| MainLoop.CollectMessages | src/main_loop.rs:539-562 | collects exactly the messages that some number of calls (1 to 100) take out of the stream, where every call before the last returned one and the last did not unless it was the hundredth, and asks for a reset if and only if the last call failed |
| MainLoop.ProcessNewConnection | src/main_loop.rs:229-248 | sends up to the first write that fails, which breaks the connection; if every write is whole, the bytes sent cut into three messages that decode to a bitfield of the downloaded flags, an unchoke and an interested, in this order; with all three written the stream is attached and the counter cleared, records kept |
| Welcome.GreetingHeard | src/peer_protocol.rs:63-113 | a client that reads exactly these bytes off a new connection and handles what each call returns is unchoked, knows the other is interested, and has for its pieces exactly the other's downloaded flags |
| MainLoop.GotOutIff | src/main_loop.rs:451-463 | of what is to be written to several peers, exactly what is addressed to a connected peer before its first failing write gets out |
| MainLoop.AllGetOut | src/main_loop.rs:451-463 | with every receiver connected and no failing write everything gets out, in order |
| MainLoop.HaveOnWire | src/peer_protocol.rs:120-131 | the nine bytes of a broadcast name its piece |
| MainLoop.BroadcastHave | src/main_loop.rs:451-463 | of the have messages for the decided broadcasts, in order, each peer gets those up to its first failing write, as far as the socket takes them, and loses its connection at that one; the queue is emptied |
| MainLoop.ExecuteIncomingBlockRequests | src/main_loop.rs:507-527 | if every queued request can be served: the replies go out in order to those who asked, each peer up to its first failing write, at which it loses its connection; their sizes are counted as uploaded and the queue is emptied |
| MainLoop.RequestPhase | src/main_loop.rs:417-420 | expiry, broadcast and one greedy schedule in this order; afterwards every missing block has a fresh record, or the tick was full, or no peer can take it |
| MainLoop.TickCoverage | src/main_loop.rs:300-331 | the same for all states and all schedules, whatever happens to the peers between expiry and scheduling |
| Runs.StepSound | src/main_loop.rs:408-428 | every step keeps the pieces' shape, all stored indices in range, those in records and in queued requests included, and every receive buffer ready |
| Runs.OtherEventsKeepContent | src/main_loop.rs:408-428 | no step but a piece message changes content, verification or the flag |
| Runs.ReplacedStreamIff | src/main_loop.rs:239-242 | a connection that replaces another is read as it was sent if and only if no message of the old one was half received; after a noticed break it always is |
| Safety.InitiallyVerified | src/download.rs:466-524 | the invariant holds after initialisation |
| Safety.OtherPiecesUntouched | src/peer_protocol.rs:352-354 | data that overlaps no other marked piece changes no byte of one |
| Safety.ReceiveVerifiedIff | src/peer_protocol.rs:340-370 | for every hash and every accepted piece message, "marked means complete and hash matches" survives for all pieces if and only if the other marked pieces still have their hash after the write |
| Safety.UndisturbingMatches | src/peer_protocol.rs:352-354 | that is so when the data is empty or overlaps no other marked piece, which can be checked beforehand |
| Safety.StepVerifiedIff | src/main_loop.rs:408-428 | the same exact condition for every kind of step |
| Safety.AlwaysVerified | src/download.rs:613-638 | the invariant holds at every moment of every run whose piece messages overlap no marked piece but the one they name, with arbitrary other steps |
| Safety.AlwaysVerifiedIff | src/download.rs:613-638 | the runs that are verified throughout are exactly those whose piece messages leave the hashes of the other marked pieces intact |
| Safety.ShapeSafeIff | src/peer_protocol.rs:340-366 | for every hash, messages of a given piece, offset and size are safe in all states, from all peers and with all data, if and only if the hash never notices such a write in another piece |
| Safety.SafeIffInside | src/peer_protocol.rs:340-366 | for any hash that tells two concrete byte strings apart these are exactly the messages that are empty or stay inside their piece |
| Safety.SpillReaches | src/peer_protocol.rs:352-354 | those two strings do differ: a message of ones past its piece's end changes another piece of an all-zero torrent |
| Safety.DoneMeansOriginal | src/download.rs:663-695 | when every piece is done the flat content is the original, absent a collision |
| Safety.FlagRisesOnOriginal | src/download.rs:451-460 | absent a collision, the step that sets the flag leaves the original content if and only if it leaves the hashes of the other marked pieces intact |
| Safety.FlagRisesOnWrong | src/peer_protocol.rs:352-366 | where it does not: for every original of two one-block pieces, a message that completes the first and runs over into the marked second raises the flag on wrong content without a collision |
| Safety.FlagIffOnceDone | src/download.rs:451-460 | at every moment of every run the flag is set if and only if all was done at some moment so far |
| Safety.StaysCompleteIff | src/download.rs:613-638 | a late message leaves a complete download complete if and only if the bytes it leaves in its piece have the hash; the flag stays set either way |
| Accounting.StepSurplus | src/main_loop.rs:300-331 | how each step moves a peer's records against its counter: together, except for lost connections and for settling against an already cleared counter |
| Accounting.ExactKeptIff | src/download.rs:640-652 | counters equal to record counts stay so in a step if and only if it does not drop or replace a connection that records name |
| Accounting.AlwaysBounded | src/decider.rs:171-191 | on every run each counter is at most its peer's records and at most 10 |
| Accounting.AlwaysExact | src/decider.rs:72-81 | on runs that lose no requests each counter equals its peer's records and lies in 0..10 |
| Accounting.CanGoNegativeIff | src/main_loop.rs:327-330 | some expiry can take a counter below zero if and only if its peer has more records than it counts |
| Accounting.LostConnectionGoesNegative | src/main_loop.rs:327-330 | after a broken connection expiry takes the cleared counter below zero by the number of records that are gone |
| Accounting.CapSafeIff | src/decider.rs:171-191 | for a counter and a number of records up to 10: no schedule in any state with these takes the records past 10 if and only if the counter covers the records |
| Accounting.ExactKeepsRecordsCapped | src/decider.rs:171-191 | no step of any kind does while the counter equals the records |
| Accounting.TwentyRecords | src/download.rs:640-652 | ten requests, a lost connection, a new one, an unchoke and ten more requests leave one peer with 20 records |
| Accounting.IdleState | src/download.rs:344-371 | a concrete new download with one peer where that happens |
| Rerequest.RecordStep | src/main_loop.rs:312-323 | a record survives every step until it expires or its own peer delivers the block |
| Rerequest.DownloadedStep | src/download.rs:624-637 | a downloaded block survives every step until its piece fails the hash check |
| Rerequest.NoEarlyRerequest | src/decider.rs:56-58 | two requests for a block are more than 30 s apart, or its first peer delivered it and the piece then failed |
| Starvation.AskedIff | src/decider.rs:171-191 | a peer that could take every block is asked by the schedule if and only if the schedule for the peers before it alone passes over some block within the first 100 requests |
| Starvation.NobodyAbove | src/decider.rs:171-191 | a peer with room for all wanted blocks leaves nothing to the peers after it |
| Starvation.SilentPeerStarves | src/main_loop.rs:408-428 | if such a peer never answers, any number of rounds of scheduling and expiry asks no later peer and ends where it began |
| Convergence.HonestKeepsMarked | src/peer_protocol.rs:352-354 | an original block leaves the hashes of all marked pieces intact, also where it runs over into the next piece |
| Convergence.HonestNeverFails | src/download.rs:613-638 | an original block, whenever it arrives, never makes a piece without corrupt data fail the hash check |
| Convergence.HonestUnfooled | src/download.rs:613-638 | nor does it make such a piece pass on other bytes |
| Convergence.FooledIsCollision | src/download.rs:613-638 | a piece that passes its check on other than the original bytes exhibits two different strings of its length with one hash |
| Convergence.HonestMarks | src/download.rs:451-460 | an original block is accepted and marks its block and changes no other mark, or its piece fails the check and loses all its marks |
| Convergence.StepRecoverable | src/main_loop.rs:408-428 | whatever corrupt data a download holds, a step other than corrupt data that overlaps another marked piece leaves everything marked original if and only if no piece passes its check on other bytes |
| Convergence.StepOnTrack | src/main_loop.rs:408-428 | every step but corrupt data keeps every downloaded block original |
| Convergence.HonestProgress | src/download.rs:707-715 | an original block lowers the distance from the end by at least one if it was missing and never raises it, whatever corrupt data there is |
| Convergence.HonestProgressExact | src/download.rs:707-715 | without corrupt data it lowers the number of missing blocks by one if its block was missing and leaves it otherwise |
| Convergence.StepDistance | src/main_loop.rs:408-428 | no step without corrupt data raises the distance; one that does not lower it fails no piece and gains or loses no block |
| Convergence.InitiallyOnTrack | src/download.rs:466-524 | a fresh download holds original bytes in every downloaded block, absent a collision |
| Convergence.NothingMissingMeansOriginal | src/download.rs:663-695 | with no block missing the content is the original, all pieces have their hash, all with blocks are marked, and the flag is set, also if corrupt data was received before |
| Convergence.Converges | src/download.rs:451-460 | any run that delivers every missing block at least once, in any order and among any other steps, ends with the original content, verified and flagged |
| Convergence.TwoPassesSuffice | src/download.rs:624-637 | with any corrupt data to begin with, any run on which no check is fooled and that delivers every block in one stretch and every block in a second one ends with the original content, verified and flagged |
| Convergence.OnePassFails | src/download.rs:624-637 | one delivery of every block is not enough: whatever was found on disk and whatever corrupt first block arrived, a run on two blocks ends with one missing |
| Relocation.MovesAgainIff | src/download.rs:654-661 | over every run of a download not complete at its start, the files are moved a second time exactly at a piece message that finds the flag set and leaves all blocks there |
| Relocation.FinishesIff | src/download.rs:451-460 | for a complete download those are the messages that leave bytes with the hash of their piece |
| Relocation.RepeatFinishes | src/download.rs:451-460 | any original block that arrives once more is one of them |
| Exchange.FiledIsServed | src/peer_protocol.rs:220-240 | a request filed at any earlier moment can be served, and the reply is the requested block of the original |
| Exchange.ReplyIsHonest | src/peer_protocol.rs:340-370 | whatever happened since the request, the reply is accepted and is an honest delivery into the download as it is then |
| Exchange.ReadFlows | src/peer_protocol.rs:242-319 | a call on a connection carrying any number of messages returns the next one sent or nothing, and the rest stays on its way |
| TwoParty.InitiallyInv | src/main_loop.rs:229-248 | a download on track, a seeder and a new connection satisfy the invariant |
| Completion.FreshInv | src/download.rs:344-409 | so do two new clients that have just connected |
| TwoParty.ActKeeps | src/main_loop.rs:408-428 | every act of the two clients and the network, the loss of their connection included, is survived and, if no check is fooled, keeps the invariant: everything marked original, all requests queued on either side servable, the seeder intact, the channels in order, every block requested on this connection since its piece last failed accounted for |
| TwoParty.NeverPanics | src/peer_protocol.rs:63-113 | wherever a run leads, the next message is readable and in range, and every request queued at either client servable; moving the finished files is a matter of `Relocation` |
| TwoParty.UpIsQueue | src/peer_protocol.rs:372-400 | the way up is a queue: sending appends the messages, arriving and reading leave it alone, handling processes the first, and a lost connection keeps the ones already collected |
| TwoParty.DownIsQueue | src/main_loop.rs:507-527 | so is the way down, where one answer appends the replies to all of the leecher's queued requests in order |
| TwoParty.LocatedKept | src/peer_protocol.rs:321-370 | no act but a lost connection loses a request or a reply: it moves on until the block is downloaded, unless its piece fails the check |
| TwoParty.ReopenedDistance | src/download.rs:640-652 | a connection lost and replaced costs the leecher no block and takes it no farther from its end |
| TwoParty.HandlesHonestly | src/peer_protocol.rs:340-370 | wherever a run leads, every piece message the leecher handles from the seeder is an honest delivery |
| TwoParty.DistanceAfter | src/download.rs:613-638 | whatever corrupt data the leecher holds, no act without new corrupt data raises its distance from the end; one that does not lower it fails no piece and gains or loses no block |
| TwoParty.CleanRunAdvances | src/main_loop.rs:408-428 | so over every such run, however often the connection is lost, the leecher is nearer to the end or no block is lost or gained; while it is not lost no request is forgotten either |
| TwoParty.MissingAfter | src/download.rs:707-715 | for a leecher without corrupt data, an act lowers the number of missing blocks by one if it delivers a missing block and leaves it otherwise |
| TwoParty.MissingFalls | src/download.rs:707-715 | over every run without corrupt data the number of missing blocks falls by exactly the missing blocks delivered |
| TwoParty.ExchangeConverges | src/main_loop.rs:408-428 | at the end of any run, corrupt blocks from other peers and lost connections included, with nothing under way and every block there or requested, the leecher's content is the seeder's, verified and flagged |
| Completion.Drain | src/main_loop.rs:465-566 | from every state what is under way can be delivered, answered and handled to the end, taking the leecher no farther from its end, unless a check is fooled on the way |
| Completion.SomethingAsked | src/decider.rs:39-84 | with expired records cleared and a block missing, the schedule asks the seeder for a missing block |
| Completion.SeederAskedIff | src/decider.rs:171-191 | with other peers connected, it asks the seeder if and only if the peers before it leave some block the tick has room for |
| Completion.AskedBringsNearer | src/download.rs:613-638 | once that block was asked for and nothing is under way, the leecher is nearer to its end: the block arrived or corrupt data was found out |
| Completion.Greeted | src/main_loop.rs:243-247 | sent over the connection of two clients at rest, the bytes of a seeder's greeting leave the leecher unchoked, with every piece announced and the seeder's interest known, and the invariant intact |
| Completion.AlwaysCanFinish | src/main_loop.rs:408-428 | from every state, any corrupt data included, with the seeder as only connection, unchoked and announced, waiting for expiry, scheduling, delivering, serving and handling alone, on a clock that runs forward from any given time, can lead to the original content, verified and flagged, or to a message that makes a piece pass its check on wrong bytes |
| Completion.CleanCanFinish | src/main_loop.rs:408-428 | without corrupt data they can lead to the original content, whatever the hash |
| Completion.StretchAdvances | src/main_loop.rs:408-428 | whatever happens before, and after it short of a lost connection, a schedule that asks the seeder and a later moment with nothing under way bring the leecher nearer to its end, if it is not there |
| Completion.AlwaysFinishes | src/main_loop.rs:408-428 | so every run without new corrupt data and fooled checks that does this as often as the distance, whatever else it does then and later, lost connections included, ends with the original content, verified and flagged |
| Completion.SinglePieceFresh | src/download.rs:466-524 | for every hash and every single-piece torrent there are two such clients |
| Completion.FreshCanFinish | src/main_loop.rs:229-248 | so can two new clients that have just connected: whatever bytes the seeder greets with, from there on local acts alone can lead the leecher to the original content; and there are such bytes |
| SpeedWindow.EntryCounts | src/download.rs:243-268 | an entry counts in the sum of the window if and only if it is at most 10 s old |
| SpeedWindow.Stats.AddDownloaded | src/download.rs:228-236 | extends the history by one entry and the total by its size |
| SpeedWindow.Stats.GetDownloadSpeed | src/download.rs:243-268 | prunes the queue and returns the sum over the full history of the last 10 s, divided by 10 |
| SpeedWindow.PruneKeepsAnswers | src/download.rs:245-256 | pruning never changes the answer at that or any later time |

## Left out

- Pieces, blocks, peers and files as separate objects: Rust's vectors own them and nothing else refers to them, so they are values in sequences that the methods of `Download` replace; sharing between them is not modelled because the source cannot express it. `receive_message`, which borrows one peer mutably, takes and returns that peer.
- Several downloads at once: every loop over the map of downloads treats each one separately; the model is of one.
- Sockets, channels, threads, sleeping, listeners, handshake, tracker requests, logging, command line and persistence: input and output without a property of their own.
- Short file writes: a write to a file is whole. Partial socket writes, which `send_msg` takes for success, are modelled where messages are sent, but not across the connection of `TwoParty`, where a sent message is whole; in `Runs` and `TwoParty` a failing write is a `Break` event of its own.
- Creating and opening files: operating-system behaviour. Of renaming the finished download only the failure of a second one is modelled. A download whose destination already exists at its start is, where a suffix is used, opened for reading only and cannot be written to; the model starts from files at the temporary path.
- Bencode, info-hash and SHA-1 computation: library code; the list of hashes is an input.
- Messages on which the source panics (indices or ranges outside the torrent, payloads too short): excluded by `MessageInRange`, `PieceInRange`, `Readable` and `Servable`, which hold exactly where it does not panic; no check is added.
- Widths of counters, totals and file sizes (u64, i32, usize) and the i64 arithmetic of `on_piece`: unbounded integers; overflow would need torrents beyond 2^53 bytes or counters beyond 2^31.
- Which connection attempts are made, how often, and how peers are filtered on registration: easy, and no result here depends on it.
- The order in which one tick processes the collected messages and resets failed connections: each is a step of its own in `Runs`, which allows every order.
- IoPrimitives.ReadNToBuf: does not model the waiting of blocking mode, used by the handshake only; there `inbox` stands for what arrives before the read times out.
- The interested messages that `execute_outgoing_block_requests` sends ahead of a request to a peer not yet told: in `TwoParty` they are messages the leecher may send at any time; the flag behind them influences no other step.
- `TwoParty` and `Completion` assume of their surroundings what `TwoParty.Offered` lists: a lost connection is replaced at once, noticed by each side or with no message half received, no read meets a partly arrived prefix, messages from other peers are well-formed and in range, their requests can be served, their blocks reach the leecher only and are original or overlap no other marked piece, and the seeder requests nothing from the leecher.
