# Astrix: a verified model

Astrix tunnels TCP streams through batched HTTP polls. A SOCKS5 client is handed to a `VirtualConn`,
which queues frames in a session; workers drain the sessions of the pool into batches, seal them and
post them; the exit server demultiplexes a batch, feeds one upstream connection per session, and
answers each poll with the frames its sessions have queued meanwhile.

The project models that path and proves what holds over every run of it:

- `Octets`, `Utf8`, `Frames`, `ByteArrays`, `Encoder`, `BatchMarshal`, `Codec`, `Adaptive`: the wire
  format, the in-place encoders of both programs, the inline decoder, and adaptive compression.
- `Sessions`, `Pools`: the session pool, on values and as classes changed in place.
- `Carrier`: the drain pass of the client, its workers, and response dispatch.
- `Exit`, `LongPoll`: the server's demultiplexing, its reply drain and its long poll.
- `Chunks`, `Stream`: the server-to-client direction as a protocol with any number of replies in flight.
- `VirtualConns`, `Socks`, `Targets`, `Connect`: from the SOCKS client's bytes to the server's dial.
- `Sending`, `Upload`: what drain passes put on the wire for one connection, and the client-to-server
  direction up to the bytes written upstream.
- `Transport`: batches and replies through the codec, so that what one side drained the other decodes.
- `Endpoints`, `Outages`: round-trip times, batch size, health, back-off and the watchdog, and the
  back-off against the clock.

Code that updates fields is a class here, and each method's contract gives the whole new state as a
function of the old one; the lemmas are about those functions, so they hold of the methods. A
`bytearray` grows when a slice is assigned past its end, which the encoders depend on, so it is a class
over a sequence and not an array. The locks of the pool guard only code that never suspends, so every
pool operation and every drain pass is one step. A coroutine that waits is a step that may happen at
any time; clocks are inputs. AES-GCM, Zstandard, inflate, Base64, lossy UTF-8 decoding and `inet_ntop`
are function parameters; encryption, Zstandard and Base64 are assumed to be inverse pairs
(`Codec.Lawful`). Times, sizes of
samples and scores are reals; rounding is not modelled. The programs' two copies of the frame, session
and crypto code agree, so each is modelled once, except the encoders, which differ.

## Where the code departs from what is promised

- Order: frames are numbered, but the client never reorders them. With two replies in flight the
  stream is in order exactly when they are dispatched in drain order (`Stream.InOrderIffPrefix`).
- Drain: a snapshot cut by the byte budget is rolled back whole although its first frames are already
  in the batch (`Carrier.VisitEffect`). They are sent again exactly if a later pass takes a frame of the
  session (`Sending.SentOnceIff`); then bytes can be written twice upstream (`Upload.CutDoublesBytes`),
  and a SYN sent again starts another upstream connection (`Upload.WorkerForEverySyn`).
- While its first m frames together exceed the budget, a queue is not drained by any pass whose batch
  size is at least m (`Carrier.BlockedForever`). With m = 1: a chunk of more than 262114 bytes, once at
  the head of the queue, stops its connection for good.
- Encoding: `_marshal_size` counts characters. The encoder still works for other than ASCII targets
  as long as the last payload of the batch is long enough (`Encoder.EncodePlaintext`), but a SYN
  alone with such a target always fails (`Connect.SynEncodable`).
- "Rechecks every 10" (line 152 of the program's README.md) holds exactly for runs in which some batch
  whose turn it is is large (`Adaptive.RecheckedIff`); it can fail for good (`Adaptive.RecheckCanStarve`).
- "Exponential backoff (3s → 1h)" (line 29 of the program's README.md): a health tick that
  finds the endpoint dead already starts one more revival. The ticks come every 30 s, so this begins with the fifth outage, whose
  back-off is 48 s; from then until the eleventh the back-off is ahead of its schedule
  (`Outages.BackoffPerDeath`, `Outages.FifthOutageCountsTwice`).
- Batch sizing goes by the number of frames in the answer, not by round-trip time as line 153 of the
  program's README.md says (`Endpoints.BatchSizeOfRun`).
- Expired sessions are collected inside the long poll 30 seconds after its start, but a poll lasts 8: a
  poll collects exactly if an idle pass of it ends that late (`LongPoll.PurgesWhen`), which an idle
  poll of full length does not (`LongPoll.ExpiredStay`).
- The semaphore that would make the server answer "busy" is only asked whether it is locked, and never
  taken, so no batch gets that answer, however many SYNs it holds (`Exit.EverySynSpawns`). `busy` is an
  input of the model; its half of the contracts describes a branch this program does not enter.
- SOCKS bytes that follow a message in the same segment are dropped (`Socks.TailIsDropped`).

## Model

| member | source | states |
|---|---|---|
| `Stream.StreamConservation` | astrix-server/astrix_server/exit/server.py:158-164 | over every run of upstream reads, dials that fail, poll drains, dispatches (any reply in flight, in any order) and client reads, the frames produced for a session are, as a multiset, exactly those consumed, queued at the client, in flight and queued at the server |
| `Stream.InOrderIffPrefix` | astrix-client/astrix_client/carrier/client.py:296-301 | what has reached the client is a prefix of what the upstream sent if and only if every reply was dispatched after all replies drained before it that hold frames of the session |
| `Stream.EndOfStream` | astrix-client/astrix_client/socks/conn.py:115-129 | with in-order dispatch, a reader that has closed has written every upstream byte in order and consumed everything produced, the FIN last, or the RST of a failed dial, whose text it does not write; before that it has written a prefix |
| `Stream.OvertakingLosesBytes` | astrix-client/astrix_client/socks/conn.py:124-127 | a concrete run: two replies in flight, the one with the FIN dispatched first, and the reader closes with the data frame unwritten |
| `Stream.StepMoves` | astrix-server/astrix_server/exit/server.py:241-259 | every step keeps the invariant and moves frames only from the server queue to the end of what is in flight, and from inside that to the client |
| `Stream.OrderOrDivergence` | astrix-client/astrix_client/carrier/client.py:296-301 | an in-order run keeps produced = delivered + in flight + queued; after any out-of-order dispatch delivered and produced differ at some position for good |
| `Stream.ClosedMeansAll` | astrix-client/astrix_client/socks/conn.py:122-129 | a reader whose input is a prefix of numbered data frames and one FIN has, when closed, consumed all of it |
| `Carrier.DrainAll` | astrix-client/astrix_client/carrier/client.py:266-294 | the pass in place leaves exactly the pool and the batch of the visit-by-visit definition, whose effect DrainPass states |
| `Carrier.VisitSession` | astrix-client/astrix_client/carrier/client.py:282-292 | one session of the pass: drained, its frames appended while the budget lasts, the whole snapshot rolled back on the first frame that exceeds it |
| `Carrier.DrainPass` | astrix-client/astrix_client/carrier/client.py:266-294 | for each visited session the share T of the batch is a prefix of the queue Q of at most batch_size frames, and Q = T + Q' or Q' = Q; it is Q = T + Q' exactly unless the snapshot is cut after its first frame, a condition on the queues before the pass; unvisited sessions are unchanged; the batch is within 262144 bytes |
| `Carrier.VisitEffect` | astrix-client/astrix_client/carrier/client.py:282-292 | one visit removes its snapshot if all of it fits the budget left and removes nothing otherwise; some frames are both sent and still queued exactly when it is cut inside |
| `Carrier.VisitRest` | astrix-client/astrix_client/carrier/client.py:282-292 | a visit keeps the books of the session; a cut one leaves it as it was but for the time of its last activity |
| `Carrier.FitIsLongestPrefix` | astrix-client/astrix_client/carrier/client.py:285-291 | the budget admits the longest prefix that fits it |
| `Carrier.WithinBudget` | astrix-client/astrix_client/carrier/client.py:271-291 | the running total is the size of the batch and never exceeds the budget |
| `Carrier.BlockedForever` | astrix-client/astrix_client/carrier/client.py:282-292 | once the first m queued frames together exceed 262144 bytes, no pass with a batch size of at least m ever takes a frame off that queue, whatever else is visited or queued |
| `Carrier.SentAgain` | astrix-client/astrix_client/carrier/client.py:285-291 | with two frames queued that fit the budget singly but not together, every pass that reaches the session first sends the first one and keeps both queued |
| `Carrier.StripesPartition` | astrix-client/astrix_client/carrier/client.py:276-281 | the three workers of an endpoint visit disjoint sets of sessions, each session once, that together are exactly the list |
| `Carrier.WorkersCommute` | astrix-client/astrix_client/carrier/client.py:276-294 | the passes of any workers, in any two orders, give the same final pool, and each worker the batch it would have sent first |
| `Carrier.PassDepends` | astrix-client/astrix_client/carrier/client.py:276-294 | a pass depends on nothing but the sessions it visits |
| `Carrier.DispatchResponseFrames` | astrix-client/astrix_client/carrier/client.py:296-301 | the dispatch loop in place; what it delivers is DispatchDelivers |
| `Carrier.DispatchDelivers` | astrix-client/astrix_client/carrier/client.py:296-301 | every session in the pool gains exactly its own frames, in order, its byte count, event and last activity follow, and nothing else changes |
| `Carrier.DropFailedSessions` | astrix-client/astrix_client/carrier/client.py:251-256 | a refused poll drops exactly the sessions whose SYN it carried, and nothing else changes |
| `Carrier.RefusedPollDrops` | astrix-client/astrix_client/carrier/client.py:251-256 | what is left of the pool is exactly the sessions without a SYN among the frames, as they were |
| `Pools.Session.EnqueueTx` | astrix-client/astrix_client/session/session.py:38-44 | the whole new state, and whether the queue is below the high-water mark |
| `Pools.Session.EnqueueRx` | astrix-client/astrix_client/session/session.py:46-51 | the whole new state |
| `Pools.Session.TakeTx` | astrix-client/astrix_client/session/session.py:126-137 | popping one by one leaves the state and snapshot of the drain whose laws are DrainAccounted and DrainsRollBack |
| `Pools.SessionPool.GetOrCreate` | astrix-client/astrix_client/session/session.py:80-99 | an existing session is returned untouched; otherwise a fresh one is added last |
| `Pools.SessionPool.Remove` | astrix-client/astrix_client/session/session.py:106-109 | exactly that session goes, the order of the others stays |
| `Pools.SessionPool.DrainTxLimited` | astrix-client/astrix_client/session/session.py:114-137 | one session is drained, all others are unchanged; an unknown id gives an empty snapshot |
| `Pools.SessionPool.RollbackDrain` | astrix-client/astrix_client/session/session.py:139-149 | one session gets its snapshot back, all others are unchanged; an unknown id does nothing |
| `Pools.SessionPool.CleanupExpired` | astrix-client/astrix_client/session/session.py:151-162 | the two-pass expiry removes exactly the expired sessions, keeps the order of the rest and counts them |
| `Pools.SessionPool.TxBufferedBytes` | astrix-client/astrix_client/session/session.py:167-168 | the loop returns the total over the pool, which BufferedBytesOverRuns identifies |
| `Pools.CleanupKeepsQueued` | astrix-client/astrix_client/session/session.py:151-162 | a session survives expiry if and only if it has queued frames or was active recently, and survives unchanged |
| `Pools.UsedSurvives` | astrix-client/astrix_client/session/session.py:38-51 | a session that sent or received a frame, or got a snapshot back, within the timeout survives a cleanup as it is, drained in between or not |
| `Pools.NewSession` | astrix-client/astrix_client/session/session.py:80-99 | a session that is there is left as it is; a new one is empty, numbered from 0 and last in order |
| `Pools.AccountingOverRuns` | astrix-client/astrix_client/session/session.py:38-51 | over every run of pool operations, with any snapshot rolled back at any time, each pooled session has tx_bytes equal to its queued payload and tx_event set exactly when its queue is not empty |
| `Pools.BufferedBytesOverRuns` | astrix-client/astrix_client/session/session.py:167-168 | after any run tx_buffered_bytes is the payload queued anywhere in the pool |
| `Sessions.DrainAccounted` | astrix-client/astrix_client/session/session.py:126-135 | a drain keeps the books, never needs its clamp at zero, and splits the queue in two |
| `Sessions.RollbackAccounted` | astrix-client/astrix_client/session/session.py:139-149 | a rollback keeps the books |
| `Sessions.DrainsRollBack` | astrix-client/astrix_client/session/session.py:114-149 | any number of drains, interleaved with any enqueues and rolled back latest first, leave the session as the enqueues alone would have: queue, counters and events |
| `Sessions.RollbackOrderMatters` | astrix-client/astrix_client/session/session.py:139-149 | rolled back in drain order instead, two snapshots come back swapped |
| `Frames.ReadsFrame` | astrix-client/astrix_client/frame/frame.py:147-190 | both parsers read back what was written for a frame, whatever follows it |
| `Frames.FrameLayout` | astrix-client/astrix_client/frame/frame.py:69-95 | where every field of a written frame lies |
| `Frames.FlagBits` | astrix-client/astrix_client/frame/frame.py:53-54 | the four flag bits, whatever lies above them |
| `Frames.WalkErrors` | astrix-client/astrix_client/crypto/crypto.py:216-235 | where a step of the walk fails for want of bytes, and with which error |
| `Frames.TextReadsBack` | astrix-client/astrix_client/crypto/crypto.py:229 | well-formed text decodes to what was encoded, anything else as the library does it |
| `Frames.ReadsHeader` | astrix-client/astrix_client/crypto/crypto.py:224-235 | the inline parser takes as much of the announced payload as there is, `unmarshal` refuses a short one |
| `Frames.TruncatedPayload` | astrix-client/astrix_client/crypto/crypto.py:232-235 | a frame cut inside its payload is accepted shortened by the inline parser and refused by `unmarshal` |
| `Frames.WalkFrameVersusUnmarshal` | astrix-client/astrix_client/crypto/crypto.py:224-235 | `unmarshal` succeeds exactly where the inline parser stays in bounds, within the size limit and on well-formed text, and then they agree |
| `Frames.WalkRefinesUnmarshal` | astrix-client/astrix_client/crypto/crypto.py:216-243 | over whole bodies: repeated `unmarshal` succeeds exactly when all length prefixes match the frames inside, and then gives the same frames and length as the inline walk |
| `Frames.WalkRoundTrip` | astrix-client/astrix_client/crypto/crypto.py:216-243 | walking over written records, even ones with too small a prefix, gives the frames back and stops at their end |
| `Utf8.RoundTrip` | astrix-client/astrix_client/frame/frame.py:76-91 | every string survives encoding and strict decoding |
| `Utf8.EncodeLength` | astrix-client/astrix_client/frame/frame.py:56-63 | a string has at least as many bytes as characters, and as many only if it is ASCII |
| `Utf8.AsciiIsItself` | astrix-client/astrix_client/frame/frame.py:76-91 | ASCII text is its own encoding |
| `Utf8.Examples` | astrix-client/astrix_client/frame/frame.py:76-91 | a character of each length, and overlong, surrogate, too large and cut forms that strict decoding refuses |
| `Octets.BigEndianRoundTrip` | astrix-client/astrix_client/frame/frame.py:83-92 | unpacking gives back a number that fits its field |
| `Octets.BigEndianDigits` | astrix-client/astrix_client/frame/frame.py:83-92 | packing puts the most significant byte first |
| `ByteArrays.ByteArray.SetSlice` | astrix-client/astrix_client/frame/frame.py:81 | slice assignment lays the bytes over the array and may extend it |
| `ByteArrays.ByteArray.PackInto` | astrix-client/astrix_client/frame/frame.py:83 | packing succeeds exactly when the number fits the field and the field the array |
| `ByteArrays.ByteArray.SetByte` | astrix-client/astrix_client/frame/frame.py:85-87 | index assignment succeeds exactly for a byte value inside the array |
| `Encoder.MarshalInto` | astrix-client/astrix_client/frame/frame.py:69-95 | the header is written at the offset exactly when every field is in range and the array reaches its end; it returns the bytes written |
| `Encoder.WriteRecord` | astrix-client/astrix_client/crypto/crypto.py:135-143 | prefix, header and payload land at the offset and nowhere else; exact success condition |
| `Encoder.PlainSize` | astrix-client/astrix_client/crypto/crypto.py:117-122 | the pre-computed size counts characters of the targets |
| `Encoder.WriteHeader` | astrix-client/astrix_client/crypto/crypto.py:124-132 | flags byte, client id and frame count |
| `Encoder.EncodePlaintext` | astrix-client/astrix_client/crypto/crypto.py:109-145 | filling the pre-sized buffer succeeds exactly when all fields are in range and the bytes the targets have beyond their characters do not exceed the last payload; then the array holds exactly the batch plaintext and has its length |
| `Encoder.PlaintextLayout` | astrix-client/astrix_client/crypto/crypto.py:124-145 | flags byte, client id and count where they belong, and the frames behind them |
| `Encoder.RecordAt` | astrix-client/astrix_client/crypto/crypto.py:134-145 | each frame lies behind its stated length, and that behind the frames before it |
| `Encoder.DeficitCountsNonAscii` | astrix-client/astrix_client/frame/frame.py:61-63 | the size set aside is never too large, and exact if and only if every target is ASCII |
| `Encoder.AsciiIsEncodable` | astrix-client/astrix_client/crypto/crypto.py:109-145 | with ASCII targets a batch is encodable exactly when its fields are in range |
| `BatchMarshal.MarshalBatch` | astrix-client/astrix_client/frame/frame.py:193-224 | succeeds exactly when every field is in range and fills the array with the exactly prefixed frames |
| `BatchMarshal.UnmarshalRoundTrip` | astrix-client/astrix_client/frame/frame.py:147-224 | `unmarshal`, repeated, reads back what `marshal_batch` wrote |
| `BatchMarshal.MarshalBatchInjective` | astrix-client/astrix_client/frame/frame.py:193-224 | different frame lists have different images |
| `BatchMarshal.MatchesEncoder` | astrix-client/astrix_client/frame/frame.py:193-224 | its output is the frame part of the encoder's buffer if and only if every target is ASCII |
| `Codec.BatchEncoder.ClientSealInput` | astrix-client/astrix_client/crypto/crypto.py:145-171 | from a rebuilt copy of the plaintext: the sealed bytes and the next adaptive state that the server's in-place form also gives |
| `Codec.BatchEncoder.ServerSealInput` | astrix-server/astrix_server/crypto/crypto.py:133-158 | with the flags byte overwritten in place: the same sealed bytes and next state as the client, for the same state and buffer |
| `Codec.BatchEncoder.ClientEncode` | astrix-client/astrix_client/crypto/crypto.py:97-174 | succeeds exactly on encodable batches, returns their wire form, and changes the globals only on success |
| `Codec.BatchEncoder.ServerEncode` | astrix-server/astrix_server/crypto/crypto.py:97-161 | the same success condition, wire form and next state as the client, for one batch |
| `Codec.EncodeOnBothSides` | astrix-server/astrix_server/crypto/crypto.py:97-161 | over any sequence of batches both encoders give the same bodies and refusals and end in the same state |
| `Codec.SequenceRoundTrip` | astrix-client/astrix_client/crypto/crypto.py:97-245 | from any adaptive state, exactly the encodable batches of a sequence are encoded, each decodes to itself, and the adaptive state runs through exactly those encodes |
| `Codec.SealInputSize` | astrix-client/astrix_client/crypto/crypto.py:159-171 | never more bytes are sealed than the raw plaintext has |
| `Codec.SealInputIs` | astrix-client/astrix_client/crypto/crypto.py:147-171 | what is sealed, exactly: packed behind a flags byte of 2 if the body has at least 512 bytes, skipping is off or the count a multiple of ten, and its packed form is shorter; as it is behind a flags byte of 0 in every other case |
| `Codec.WireIs` | astrix-client/astrix_client/crypto/crypto.py:172-174 | the body is Base64 of the nonce and, behind it, what decrypts to that |
| `Codec.UnsealingCases` | astrix-client/astrix_client/crypto/crypto.py:181-212 | what each first byte behind the seal stands for, and what too short or malformed bodies give |
| `Codec.ReadInlineAt` | astrix-client/astrix_client/crypto/crypto.py:224-235 | the inline parser at its absolute offset is the parser on the bytes from there on |
| `Codec.ReadFrames` | astrix-client/astrix_client/crypto/crypto.py:216-243 | the offset loop computes the recursive walk, errors included |
| `Codec.DecodeBatch` | astrix-client/astrix_client/crypto/crypto.py:181-245 | the imperative decoder computes the decoding that BatchRoundTrip inverts, with every error case |
| `Codec.UnpacksSealInput` | astrix-client/astrix_client/crypto/crypto.py:194-206 | whatever was sealed, raw or packed, unpacks to the same body |
| `Codec.BatchRoundTrip` | astrix-client/astrix_client/crypto/crypto.py:97-245 | for every adaptive state, nonce, client id and encodable frame list, decoding the wire form gives the client id and the frames (flags cut to the byte the wire has) |
| `Adaptive.SkipIffThreeFailures` | astrix-client/astrix_client/crypto/crypto.py:159-170 | over every run, skipping is on if and only if the counter has reached three |
| `Adaptive.ThreeInARow` | astrix-client/astrix_client/crypto/crypto.py:159-170 | while skipping is off the counter is the number of large bodies in a row that did not shrink; the third in a row, and nothing else, turns skipping on |
| `Adaptive.GainEndsSkipping` | astrix-client/astrix_client/crypto/crypto.py:159-170 | while skipping is on, exactly an attempt that gains turns it off |
| `Adaptive.RecheckWithinTen` | astrix-client/astrix_client/crypto/crypto.py:149-151 | from any state, ten encodes in a row with a large body include an attempt |
| `Adaptive.AttemptIffTurn` | astrix-client/astrix_client/crypto/crypto.py:149-151 | while skipping, an encode is tried exactly when the count is a multiple of ten and its body is large |
| `Adaptive.AttemptsWhileSkipping` | astrix-client/astrix_client/crypto/crypto.py:163-170 | during n encodes that gain nothing with skipping on, at most n/10 + 1 attempts are made |
| `Adaptive.RecheckedIff` | astrix-client/astrix_client/crypto/crypto.py:149-151 | while skipping, a run includes an attempt if and only if some encode whose turn it is, by the counter at the start, is large |
| `Adaptive.NeverRechecked` | astrix-client/astrix_client/crypto/crypto.py:149-170 | if the batches whose turn it is are small, no attempt is ever made again |
| `Adaptive.RecheckCanStarve` | astrix-client/astrix_client/crypto/crypto.py:149-170 | such runs start after any three large batches that do not shrink, and have any length, although every later batch would shrink |
| `Exit.HandleFrames` | astrix-server/astrix_server/exit/server.py:113-144 | the demultiplexing loop in place computes the frame-by-frame fold on pool, spawn log and replies |
| `Exit.HandleFrame` | astrix-server/astrix_server/exit/server.py:115-144 | one turn of it, every branch |
| `Exit.SessionIsolation` | astrix-server/astrix_server/exit/server.py:115-144 | pool entry, spawns and replies of a session after a batch equal those from its own frames alone |
| `Exit.BatchesCompose` | astrix-server/astrix_server/exit/server.py:115-144 | a batch in two parts is the two parts one after the other |
| `Exit.ReceivedFromBatch` | astrix-server/astrix_server/exit/server.py:115-144 | a session receives exactly the data and FIN frames after its last kill, and if it was not there, after the first SYN that follows, which also fixes its target |
| `Exit.CounterAfterSyn` | astrix-server/astrix_server/exit/server.py:116-120 | a SYN sets the counter to its seq plus one, for a new session and for an old one (where it may go down), and until the next SYN or kill only a later acknowledgement raises it |
| `Exit.EntryOfBatch` | astrix-server/astrix_server/exit/server.py:115-144 | the pool entry of a session after a whole batch is its entry after its own frames |
| `Exit.SpawnsAndReplies` | astrix-server/astrix_server/exit/server.py:116-130 | one upstream worker for every SYN, or, were the semaphore locked, one busy reset for every SYN |
| `Exit.EverySynSpawns` | astrix-server/astrix_server/exit/server.py:121-130 | the semaphore is never taken, so a batch starts as many upstream workers as it has SYNs, however many, and none is refused |
| `Exit.CounterAfterBatch` | astrix-server/astrix_server/exit/server.py:135-138 | without SYN or kill the counter becomes the largest it was or was acknowledged to be |
| `Exit.DrainForReply` | astrix-server/astrix_server/exit/server.py:158-164 | one drain pass in place: every session gives up to eight frames |
| `Exit.PollShare` | astrix-server/astrix_server/exit/server.py:158-164 | the reply holds for each session exactly what its queue lost, in order, at most eight frames |
| `Exit.PollEntries` | astrix-server/astrix_server/exit/server.py:158-164 | every visited session is drained once, the others are unchanged |
| `LongPoll.LongPoll` | astrix-server/astrix_server/exit/server.py:146-184 | the loop ends: at most 91 sleeps, at most 14 short and at most 77 long ones; it replies in the first pass that drains a frame; it collects exactly if an idle pass ends 30 seconds after the start, once, and purges exactly the sessions expired then |
| `LongPoll.PurgesWhen` | astrix-server/astrix_server/exit/server.py:180-184 | that guard, and that the collecting pass takes over 22 seconds and is the last |
| `LongPoll.ExpiredStay` | astrix-server/astrix_server/exit/server.py:180-184 | an idle poll over the full window purges nothing although the pool holds an expired session in every pass |
| `LongPoll.ElapsedAtPass` | astrix-server/astrix_server/exit/server.py:146-178 | the time that must have passed before the i-th pass |
| `LongPoll.SleepLimits` | astrix-server/astrix_server/exit/server.py:169-178 | the three bounds on sleeps made before the deadline |
| `LongPoll.BoundReached` | astrix-server/astrix_server/exit/server.py:146-178 | a clock on which the bounds are reached |
| `VirtualConns.VirtualConn.Open` | astrix-client/astrix_client/socks/conn.py:29-64 | the session is taken from the pool, which makes it if the id is new, and its SYN with the printed target is queued; nothing else in the pool changes |
| `VirtualConns.BeginIs` | astrix-client/astrix_client/socks/conn.py:46-64 | a connection starts with its SYN, numbered 0, for host, colon and port, and its data will be numbered from 0 |
| `VirtualConns.VirtualConn.Write` | astrix-client/astrix_client/socks/conn.py:80-84 | data is queued unless the connection is closed; on a full queue the writer waits with its chunk |
| `VirtualConns.VirtualConn.Admit` | astrix-client/astrix_client/socks/conn.py:84 | a waiting writer, any of them, gets its turn once there is room, closed or not |
| `VirtualConns.VirtualConn.TxTurn` | astrix-client/astrix_client/socks/conn.py:86-104 | one chunk becomes one numbered frame; the loop ends once the connection is closed |
| `VirtualConns.VirtualConn.Close` | astrix-client/astrix_client/socks/conn.py:138-147 | the first half of a close: the flag is set, and only the first call goes on |
| `VirtualConns.VirtualConn.Finish` | astrix-client/astrix_client/socks/conn.py:148-158 | the second half, behind the wait for the read task: the FIN is queued, once |
| `VirtualConns.ClientStream` | astrix-client/astrix_client/socks/conn.py:86-104 | over every run of writes, writers admitted, drain turns, drain passes (kept or rolled back) and both halves of a close, the data frames queued are numbered consecutively up to the counter and carry the last chunks taken; chunks taken and queued are those accepted in order; none written is lost or doubled on the way |
| `VirtualConns.NobodyWaits` | astrix-client/astrix_client/socks/conn.py:80-84 | as long as no write finds 4096 chunks queued, as when the drain loop keeps up, no writer waits and all that is written is accepted at once, in order |
| `VirtualConns.WritersInOrderIff` | astrix-client/astrix_client/socks/conn.py:80-84 | for any interleaving of writers and drain loop at all: if all chunks written are different, they are accepted in the order they were written if and only if no writer overtook one that waited |
| `Sending.SentOnceIff` | astrix-client/astrix_client/carrier/client.py:282-292 | over every run of writes, drain turns, a close and drain passes, what the batches carry is a prefix of the frames queued, each once and in order, if and only if no pass takes a frame after a pass that cut the session's snapshot inside |
| `Sending.WireIffNeverCut` | astrix-client/astrix_client/carrier/client.py:282-292 | frames sent and frames still queued are together the frames ever queued if and only if no pass cut the snapshot inside |
| `Sending.LogDistinct` | astrix-client/astrix_client/socks/conn.py:92-104 | no frame is ever queued twice: one SYN, numbered data, one FIN |
| `Sending.PrefixIffDistinct` | astrix-client/astrix_client/carrier/client.py:282-292 | SYNs aside, the first frames on the wire are the first ones queued if and only if none of them is there twice |
| `Sending.SentForEver` | astrix-client/astrix_client/carrier/client.py:282-292 | once the first two frames queued do not fit a batch together, every pass of at least two frames with room for the first sends it again, and nothing else of the connection goes out |
| `Sending.StuckBehindSyn` | astrix-client/astrix_client/socks/conn.py:57-64 | a SYN and a first chunk that do not fit a batch together are such a queue |
| `VirtualConns.CloseStopsTheLoop` | astrix-client/astrix_client/socks/conn.py:92-104 | after a close at most one more chunk is taken, whatever is queued |
| `VirtualConns.WaitingGetsIn` | astrix-client/astrix_client/socks/conn.py:80-84 | a writer that waits gets in once there is room, even behind a close; a new write behind a close is dropped |
| `VirtualConns.LateChunk` | astrix-client/astrix_client/socks/conn.py:92-104 | that chunk is queued behind the FIN, or in front of it if it is taken while the close waits |
| `Socks.Protocol.DataReceived` | astrix-client/astrix_client/socks/server.py:91-100 | the chunk handler in place, every state |
| `Socks.Protocol.HandleHandshake` | astrix-client/astrix_client/socks/server.py:106-133 | greeting: wait, refuse or choose a method |
| `Socks.Protocol.HandleAuth` | astrix-client/astrix_client/socks/server.py:135-163 | credentials: wait, refuse or accept |
| `Socks.Protocol.HandleCommand` | astrix-client/astrix_client/socks/server.py:165-216 | request: wait, refuse or connect |
| `Socks.ChunkingIndependence` | astrix-client/astrix_client/socks/server.py:91-247 | however valid messages are cut into non-empty chunks, none reaching over the end of a message, the replies are the same, one connection is opened to the host and port asked for, the state is 3, and later chunks are forwarded unchanged |
| `Socks.MessageInChunks` | astrix-client/astrix_client/socks/server.py:106-216 | a message is accepted when its last chunk arrives, with the same outcome for every split |
| `Socks.TunnelForwards` | astrix-client/astrix_client/socks/server.py:99-100 | every later chunk is forwarded, and also stays in the buffer |
| `Socks.TailIsDropped` | astrix-client/astrix_client/socks/server.py:133-186 | bytes behind the end of a message in the same chunk are lost |
| `Socks.AuthDecides` | astrix-client/astrix_client/socks/server.py:135-163 | complete credentials are accepted if and only if name and password are a pair of the user table; any other gets 01 FF and a hang-up |
| `Socks.RequestOpens` | astrix-client/astrix_client/socks/server.py:165-216 | a complete request is answered with success and opens a connection to the port asked for and the host: the text of its name, its IPv6 address, or an IPv4 text whose i-th part reads as the i-th octet |
| `Socks.DottedReadsBack` | astrix-client/astrix_client/socks/server.py:218-223 | the text of an IPv4 address has four parts between dots, and the i-th reads as the i-th octet |
| `Socks.DomainComesThrough` | astrix-client/astrix_client/socks/server.py:229-236 | a domain name comes through as it was written |
| `Socks.Greetings` | astrix-client/astrix_client/socks/server.py:106-133 | greetings, accepted and refused, as the bytes they are |
| `Socks.Conversation` | astrix-client/astrix_client/socks/server.py:106-216 | a whole conversation byte by byte, up to a connection to 10.20.30.40 port 443 |
| `Socks.ClosedForwardsNothing` | astrix-client/astrix_client/socks/server.py:241-247 | once the connection is closed nothing is forwarded |
| `Socks.NoTunnelWithoutProof` | astrix-client/astrix_client/socks/server.py:123-163 | for any bytes in any chunks: where authentication is required, state 2 or 3 is reached only after a message whose name and password are a pair of the user table |
| `Socks.OneConnection` | astrix-client/astrix_client/socks/server.py:188-216 | never more than one connection is opened, and it is the recorded host and port |
| `Socks.RefusedForGood` | astrix-client/astrix_client/socks/server.py:106-174 | a client is hung up on exactly for a refused message, with the reply for it, and never gets a connection afterwards |
| `Socks.UnknownAddressTypeIsGranted` | astrix-client/astrix_client/socks/server.py:238-239 | an unknown address type gets a success reply and an empty host |
| `Targets.TargetRoundTrip` | astrix-server/astrix_server/exit/server.py:304-311 | for every host, colons included, and every port below 65536, parsing the printed target gives the host and the port |
| `Targets.DecimalRoundTrip` | astrix-server/astrix_server/exit/server.py:308 | `int` reads a printed number back exactly if it has at most 4300 digits |
| `Targets.DecimalDigitAt` | astrix-client/astrix_client/socks/conn.py:38 | the printed digits are those of the number, the highest first |
| `Targets.ParseTargetElse` | astrix-server/astrix_server/exit/server.py:304-311 | without a colon, or with no number behind the last one, the whole text is the host and the port 0 |
| `Targets.PyIntAccepts` | astrix-server/astrix_server/exit/server.py:308 | signs, white space around and single underscores are accepted |
| `Targets.PyIntRefuses` | astrix-server/astrix_server/exit/server.py:308 | text that is no number is refused |
| `Targets.LastColonAt` | astrix-server/astrix_server/exit/server.py:306 | the split is at the colon in front of the port |
| `Connect.SynEncodable` | astrix-client/astrix_client/socks/conn.py:57-63 | a batch holding only a SYN can be encoded exactly when the host is ASCII and host, colon and port fit 255 bytes |
| `Connect.SynReachesServer` | astrix-server/astrix_server/exit/server.py:115-130 | then the server decodes that SYN, opens the session, starts one worker and gets the host and port the SOCKS client asked for |
| `Upload.ReceivedInOrderIff` | astrix-server/astrix_server/exit/server.py:117-144 | over every run of client steps, batches arriving in drain order (among frames of other sessions) and turns of the upstream writers, what the server's session received is a prefix of the frames queued behind the SYN if and only if no frame but a SYN has arrived twice |
| `Upload.EndOfUpload` | astrix-server/astrix_server/exit/server.py:261-284 | as long as what arrived is a prefix of what was queued, there is at most one upstream connection, and the bytes written to it are the first chunks taken, a prefix of the bytes accepted; once the FIN closed it, all chunks taken but at most one taken after the close |
| `Upload.NeverResentSuffices` | astrix-client/astrix_client/carrier/client.py:282-292 | runs in which no pass takes a frame after a cut are such runs |
| `Upload.CutDoublesBytes` | astrix-client/astrix_client/carrier/client.py:282-292 | a run with a cut snapshot: the first of two frames arrives twice, and what is written upstream is no prefix of what was accepted |
| `Upload.WorkerForEverySyn` | astrix-server/astrix_server/exit/server.py:116-130 | a SYN stuck with a frame it does not fit a batch with: every arrival starts one more upstream worker, and none of them ever gets a frame |
| `Upload.ConsumedShape` | astrix-server/astrix_server/exit/server.py:268-278 | the writer has written the payloads before the first FIN, which are numbered data frames from the first on |
| `Transport.ClientQueuesSendable` | astrix-client/astrix_client/socks/conn.py:57-104 | whatever its connections did, to ASCII hosts that fit and with chunks that fit a frame, the queues of the client's pool hold only sendable frames |
| `Transport.ClientBatchDecodes` | astrix-client/astrix_client/carrier/client.py:266-294 | the batch of any worker over such a pool is encodable, never too long for its count field, and the server decodes exactly it |
| `Transport.ReplyDecodes` | astrix-server/astrix_server/exit/server.py:158-187 | the reply of a drain pass is encodable exactly up to 65535 frames, and then the client decodes exactly it |
| `Transport.RepliesDecode` | astrix-server/astrix_server/exit/server.py:241-259 | over every run of the server-to-client protocol, each reply in flight of at most 65535 frames is what its wire form decodes to, so the dispatches of the model are those of decoded replies |
| `Endpoints.Endpoint.RecordRtt` | astrix-client/astrix_client/carrier/client.py:71-79 | the whole new state of the endpoint |
| `Endpoints.Endpoint.HandleAnswer` | astrix-client/astrix_client/carrier/client.py:222-261 | counters and batch size after a poll, every status; a 200 whose body does not decode resets the failures and ends the worker |
| `Endpoints.Endpoint.Revive` | astrix-client/astrix_client/carrier/client.py:323-330 | a completed revival |
| `Endpoints.HealthRound` | astrix-client/astrix_client/carrier/client.py:307-316 | one round over all endpoints: which die, which get a revival, and that one with fewer than five failures is left as it is |
| `Endpoints.WatchdogRound` | astrix-client/astrix_client/carrier/client.py:342-344 | one round over all endpoints: those that are not dead get five failures, dead ones are left as they are |
| `Endpoints.HealthOverRuns` | astrix-client/astrix_client/carrier/client.py:303-344 | for every interleaving of answers, health ticks, revivals and alarms: the failures are the polls failed in a row since a success or revival, or five and those since an alarm; a dead endpoint has a revival pending, after r revivals the back-off is min(3 * 2^r, 3600), the batch size is in 1..64, and revivals done and pending are deaths plus ticks that found it dead |
| `Endpoints.DeathNeedsFailures` | astrix-client/astrix_client/carrier/client.py:308-309 | an endpoint dies only in a health tick, with at least five failures that are five failed polls in a row or a watchdog alarm |
| `Endpoints.BackoffCountsTicks` | astrix-client/astrix_client/carrier/client.py:303-330 | whatever the timing: with no revival pending the back-off is the one scheduled for the number of deaths exactly when no tick found the endpoint already dead, or the hour is reached |
| `Outages.SeenOnceUntilFifth` | astrix-client/astrix_client/carrier/client.py:303-330 | with ticks 30 s apart and revivals after their back-off, each less than 6 s late: no tick finds the endpoint dead already up to the fourth outage, and in the fifth one always does |
| `Outages.BackoffPerDeath` | astrix-client/astrix_client/carrier/client.py:303-330 | over every such run, with no revival pending, the back-off is the one scheduled for the number of outages exactly up to the fourth outage and from the eleventh on |
| `Outages.TicksPerOutage` | astrix-client/astrix_client/carrier/client.py:303-330 | how many ticks see an outage, from both sides, by its back-off |
| `Outages.OneOutage` | astrix-client/astrix_client/carrier/client.py:303-330 | from any quiet state an outage with a back-off over 30(n-1) and up to 30n seconds can be seen by n ticks and counts as n on the schedule |
| `Outages.FifthOutageCountsTwice` | astrix-client/astrix_client/carrier/client.py:303-330 | a timed run from the start: five outages, the last with a back-off of 48 s, and then 192 s where 96 s are scheduled |
| `Endpoints.BatchSizeOfRun` | astrix-client/astrix_client/carrier/client.py:222-261 | over every run the batch size follows from the numbers of frames in the decoded answers alone, whatever the round-trip times, ticks, revivals and alarms |
| `Endpoints.BatchSizeRuns` | astrix-client/astrix_client/carrier/client.py:237-241 | full answers raise the batch size by two to 64, empty ones lower it by one to 1 |
| `Endpoints.ResizedExactly` | astrix-client/astrix_client/carrier/client.py:238-241 | in whole numbers: it grows exactly for at least four fifths of a batch |
| `Endpoints.RttWindow` | astrix-client/astrix_client/carrier/client.py:71-78 | over every run the window is the last twenty samples and, from the third on, the score is max(10, 100 - median/10) of it |
| `Endpoints.RttOfRun` | astrix-client/astrix_client/carrier/client.py:222-226 | over every run of answers, ticks, revivals and alarms, whatever the answers: the samples are the last twenty round-trip times, the score from the third on is 100 - median/10 but at least 10, and the average is the weighted sum of all |
| `Endpoints.ScoreAndAverageBounds` | astrix-client/astrix_client/carrier/client.py:71-79 | the score stays in 10..100 and the average between 0 and the largest sample |
| `Endpoints.AverageIsWeighted` | astrix-client/astrix_client/carrier/client.py:79 | the average is the exponentially weighted sum of all samples |
| `Endpoints.MedianSplits` | astrix-client/astrix_client/carrier/client.py:76 | the median has half of the samples on either side |
| `Endpoints.MedianWithin` | astrix-client/astrix_client/carrier/client.py:76 | it lies within any bounds of the samples |

## Left out

- `marshal`: it writes into a copy of the buffer and returns zeros (frame.py:119), and its use when encoding a response fails.
- Frames lost with a poll that is not answered by 200: drained frames are not put back; the stream results assume every reply arrives.
- Client-to-server batches that arrive out of drain order, as they may with several endpoints: `Upload` lets the batches of the followed connection arrive only in the order they were drained.
- The unsealed empty reply (exit/server.py:202), which `decode_batch` cannot read and which ends the worker that receives it; no claim about workers staying alive is made.
- The dial itself, and what happens after a local close of the SOCKS transport; a writer that fails or is cancelled just stops (`Upload.WriterStops`).
- `_global_event` and `wait_for_activity`, which only shorten an idle wait.
- Session ids: taken as 16 fresh bytes. `VirtualConn.open` as written cannot produce them, since a float has no `to_bytes`.
- A poll that raises before its answer is there ends its worker without touching the endpoint; it is no event of `Endpoints`.
- A revival that completes between a tick and the first turn of the revival task this tick started: `Outages` reads the back-off at the tick.
- Cancellation, `connection_lost`, and the scheduling of coroutines other than as arbitrary interleaving.
- `int` on other than ASCII text: digits and white space of other scripts are refused by `Targets.PyInt`.
- HTTP and TLS fronting, Apps Script, command line, daemon, configuration, statistics, logging, DNS cache, and the pools of buffers and compressors, which do not affect results.
