# Streamweld in Dafny

Streamweld keeps token streams alive: every chunk is journaled before a client
sees it, a client can resume from any sequence number, a failed backend is
replaced in mid-stream, and memory stays bounded throughout. This project models
the algorithms those promises rest on and proves the promises about the models.

| module | models |
|---|---|
| `Utf8`, `Ascii`, `JsonGrammar`, `JsonPrefix`, `JsonScanner`, `JsonSound`, `JsonComplete` | the JSON-prefix recogniser against sections 2 to 7 of RFC 8259, with section 4 of RFC 3629 for the bytes inside strings |
| `Seam`, `Utf8Window` | the seam between accepted text and a continuation, and the leading-window buffer |
| `Feed`, `Handoff`, `HandoffCursor` | the process-local relay, a reader's switch to it from the journal tail, and the cursors it can serve |
| `MemoryStreams`, `MemoryJournal`, `Tail` | the memory journal: rings, caps, eviction, expiry, tail readers |
| `Pool`, `Drain`, `Probes`, `Wakeup`, `Routes` | the backend pool, retained drains, health probes, waiting for a backend, the route registry |
| `RedisLog`, `RedisCalls`, `RedisReplay`, `RedisTail`, `Idempotency`, `Readers` | the Redis journal's scripts and the protocols over them |
| `Budget` | token accounting across attempts |
| `SseWire`, `Sse`, `SseCodec` | the event-stream encoder and decoder (sections 9.2.5 and 9.2.6 of the HTML Living Standard) |
| `UlidBits`, `Ulid` | stream identifiers (ULID specification, Encoding and Monotonicity) |
| `Multicast` | the TypeScript client's replay multicast |
| `Options`, `Sequences` | the option type, and equalities of slices |

How the source is rendered:

- Code that changes fields in place is a class with those fields, or a method
  with the source's loop, proved against a function of the old state. What the
  source promises is then proved about those functions and states.
- Concurrency is a state machine. One action is one critical section, one Lua
  script or one channel operation, and a theorem about a run quantifies over
  every finite sequence of actions. Key expiry, cancellation, lost messages and
  the passing of time are actions of their own.
- Clock readings, entropy and what the network delivers are parameters.
- Integers are unbounded unless a width decides something (retry durations,
  48-bit timestamps, the bytes of a ULID).

Five promises do not hold as stated, and the models show exactly when they do:

- A resumed reader can be sent an entry it already has. The reader subscribes to
  the relay with nothing acknowledged, so an entry up to its cursor that is
  broadcast after it subscribed is queued, and is sent when the reader enters the
  relay before its tail delivers anything. The entry may be committed already
  and wait for its broadcast, or the cursor may be past the last entry and the
  stream may catch up with it before the tail is opened.
  `HandoffCursor.RepeatedEntry` builds such a run from every state and cursor
  that `HandoffCursor.Safe` excludes, `HandoffCursor.UnsafeReachable` shows that
  both kinds of state are reached, and `HandoffCursor.ResumeExactIff` proves that
  every run is exact if and only if the cursor is safe. What `Safe` asks for can
  be read off before the call: the cursor's entry has been broadcast, or the
  stream can no longer reach the cursor, or the entries up to it cannot all stay
  in the queue.
- The JSON-prefix recogniser's depth limit counts values that have been started.
  `JsonComplete.PrefixAccepted` gives the exact condition for every cut of every
  JSON text; `JsonComplete.AcceptsExactly` restates it without mentioning a text,
  and `JsonComplete.NestAccepted` shows the limit at work.
- A deleted model is refused so that it does not fall through to a static
  wildcard backend, but the deletion is remembered only by the route's own
  record. `Routes.RefusalEnds` proves that the refusal lasts exactly until an
  update names the model in a live route or puts another model in the place of
  the only record of its deletion, and `Routes.ForgottenModel` gives updates that
  do the latter.
- The revision that fences off a stale health probe belongs to the record, and a
  new record starts at revision 1. A backend that is removed while it is probed,
  is used by nobody and comes back under another address is marked with the
  health of the old address; `Probes.UnprobedHealthy` gives that run.
  `Probes.FenceExact` proves that the fence is exact for one record, and
  `Probes.StaleProbe` that a stale probe has an effect if and only if the
  identifier now leads to another unretired record with that same revision (and
  other health). While a lease is not released or a pin not closed this cannot
  happen (`Probes.LeaseKeepsRecord`, `Probes.PinKeepsRecord`).
- The timer that wakes a waiter at the end of a quarantine is late by the time
  between reading the clock and starting the timer. `Wakeup.NoLostWakeup` gives
  that bound.

## Model

| member | source | states |
|---|---|---|
| `JsonScanner.SkipWhitespace` | internal/migrate/jsonprefix.go:287-297 | stops at the first byte that is not JSON whitespace |
| `JsonScanner.ParseString` | internal/migrate/jsonprefix.go:172-217 | the loop agrees with the recursive scan of escapes, hex digits and UTF-8 runes, for complete, cut and bad strings |
| `JsonScanner.ParseLiteral` | internal/migrate/jsonprefix.go:219-229 | a literal is complete, a cut prefix of one, or bad |
| `JsonScanner.ParseNumber` | internal/migrate/jsonprefix.go:231-285 | the staged number scanner agrees with the recursive one at every cut |
| `JsonScanner.ParseValue` | internal/migrate/jsonprefix.go:52-81 | dispatch with the depth limit, mutually recursive with objects and arrays |
| `JsonScanner.ParseObject` | internal/migrate/jsonprefix.go:83-133 | the member loop agrees with the recursive scan of entries |
| `JsonScanner.ParseArray` | internal/migrate/jsonprefix.go:135-170 | the element loop agrees with the recursive scan of entries |
| `JsonScanner.ValidateJSONPrefix` | internal/migrate/jsonprefix.go:25-42 | accepts exactly what the recogniser's specification accepts |
| `JsonSound.AcceptedExtends` | internal/migrate/jsonprefix.go:25-285 | soundness: every accepted byte string is a prefix of a well-formed JSON text, which is constructed |
| `JsonComplete.PrefixAccepted` | internal/migrate/jsonprefix.go:25-285 | for every JSON text and every cut of it: accepted if and only if the bytes start no value deeper than 10,000 |
| `JsonComplete.ShallowAccepted` | internal/migrate/jsonprefix.go:25-285 | completeness: every prefix of a text nested at most 10,000 deep is accepted |
| `JsonComplete.AcceptsExactly` | internal/migrate/jsonprefix.go:25-285 | a byte string is accepted if and only if some JSON text extends it without a value started below the limit |
| `JsonComplete.NestAccepted` | internal/migrate/jsonprefix.go:52-55 | of arrays nested in one another, all well-formed, exactly those within the limit are accepted |
| `Utf8.RuneSizeFinds` | internal/migrate/jsonprefix.go:205-213 | the decoder's table finds the rune of RFC 3629 at the head of a slice whenever there is one |
| `Utf8.CutRune` | internal/migrate/jsonprefix.go:206-210 | a slice without a full rune can be completed to a rune |
| `Seam.Utf8BoundaryAtOrBefore` | internal/migrate/utf8buffer.go:105-113 | the loop finds the boundary |
| `Seam.BoundaryBeforeIsLast` | internal/migrate/utf8buffer.go:105-113 | it is a boundary and no later one is within reach |
| `Seam.LongestUtf8Overlap` | internal/migrate/seam.go:41-52 | the countdown finds the overlap |
| `Seam.OverlapIsLongest` | internal/migrate/seam.go:41-52 | it is a rune-aligned repetition and every other one is at most as long |
| `Seam.ReconcileSeam` | internal/migrate/seam.go:20-39 | refuses exactly a window that is not positive or text that is not UTF-8; otherwise the longest overlap within the window |
| `Seam.StripTextPrefix` | internal/proxy/producer.go:1018-1028 | strips up to the given count, and fails exactly inside a rune |
| `Seam.RewriteLeadingText` | internal/proxy/producer.go:964-1016 | over all text fields of a chunk: fails exactly when the cut falls inside a rune, else removes that many bytes in all |
| `Seam.AppendStripped` | internal/proxy/producer.go:940-962 | over all buffered chunks: fails exactly when the cut falls inside a rune, bytes are left over or the stream ends before the last chunk; the text added is that of the chunks taken minus its first bytes |
| `Seam.FlushSeam` | internal/proxy/producer.go:919-962 | after reconciliation fails only if the stream ends: no cut inside a rune, no bytes left over; appends the chunks taken minus the overlap of the whole continuation |
| `Seam.RunContinuation` | internal/proxy/producer.go:273-371 | however the continuation is cut into chunks: refused exactly for a bad window, bad text, a full buffer or a stream that ends; otherwise the accepted text is the accumulated text followed by the continuation minus its longest overlap in the window, and up to the last chunk taken in a stream that ends |
| `Seam.KeptOnward` | internal/proxy/producer.go:365-371 | once the window is full, chunks that an ended stream does not take leave the accepted text as it is |
| `Seam.RepeatedStable` | internal/proxy/producer.go:338-360 | once the window is full, later text cannot change the overlap |
| `Seam.WeldValid` | internal/migrate/seam.go:20-56 | the accepted text stays valid UTF-8 |
| `Utf8Window.NewWindowBuffer` | internal/migrate/utf8buffer.go:30-37 | refuses exactly a window that is not positive |
| `Utf8Window.CompleteUtf8Prefix` | internal/migrate/utf8buffer.go:90-103 | the loop computes where whole runes end and whether what follows is bad |
| `Utf8Window.CompleteValid` | internal/migrate/utf8buffer.go:90-103 | the part before that point is valid UTF-8 |
| `Utf8Window.CompleteFlag` | internal/migrate/utf8buffer.go:90-103 | the rest is flagged if and only if no further bytes can make it valid |
| `Utf8Window.WindowFixed` | internal/migrate/utf8buffer.go:39-61 | whole runes filling the window fix what is held of any longer text |
| `Utf8Window.Utf8WindowBuffer.Write` | internal/migrate/utf8buffer.go:39-61 | rejects a fragment exactly when the text could no longer become valid, and keeps its data; once ready, the held length is what reconciliation would hold of any valid text that begins this way |
| `Utf8Window.Utf8WindowBuffer.Finish` | internal/migrate/utf8buffer.go:63-77 | succeeds exactly for valid text and then holds what reconciliation holds of it; keeps the buffer usable |
| `Utf8Window.Utf8WindowBuffer.Split` | internal/migrate/utf8buffer.go:82-88 | held and remainder make up the data; held is reconciliation's window of the text if the attempt ended, and of every continuation otherwise |
| `Utf8Window.RunWindow` | internal/migrate/utf8buffer.go:30-88 | for every valid text, every way to cut it into fragments and every positive window: writing until ready and finishing if the attempt ends first holds exactly what reconciliation holds of the whole text, and no byte is lost |
| `Feed.DegradedFeed.Subscribe` | internal/proxy/degradation.go:76-90 | fails exactly when the feed is active or closed; adds a fresh empty subscriber |
| `Feed.DegradedFeed.Enqueue` | internal/proxy/degradation.go:197-215 | drops acknowledged shadows, evicts over budget, else appends; the byte counter stays the sum of the queue and only a single frame may exceed the budget |
| `Feed.DegradedFeed.Broadcast` | internal/proxy/degradation.go:169-195 | the loop over readers gives each present one exactly this frame |
| `Feed.DegradedFeed.Activate` | internal/proxy/degradation.go:121-139 | the boundary is set once, by the first activation |
| `Feed.DegradedFeed.Acknowledge` | internal/proxy/degradation.go:246-271 | the loop removes the acknowledged head of the queue and exactly its bytes |
| `Feed.DegradedFeed.Next` | internal/proxy/degradation.go:273-313 | a lagged reader gets an error, else frames come in queue order, else the end or a wait |
| `Handoff.ProducerKeeps` | internal/proxy/durable.go:433-484 | commit, failure, activation, broadcast and close keep the invariant |
| `Handoff.EnqueueKeeps` | internal/proxy/degradation.go:197-219 | the queue stays the unacknowledged shadows in sequence followed by unsequenced frames |
| `Handoff.AcknowledgeKeeps` | internal/proxy/degradation.go:246-271 | an acknowledgement that races with broadcasts leaves no acknowledged shadow behind |
| `Handoff.RelayKeeps` | internal/proxy/durable_http.go:522-556 | at every switch the relay takes over exactly where the tail left off |
| `Handoff.ResumedReaderExact` | internal/proxy/durable_http.go:503-642 | in every interleaving, if the entry at the cursor was broadcast before subscribing or there is no subscription: the frames are cursor+1, cursor+2, ... without gap or repeat, none sequenced after an unsequenced one, and a drained relay has left nothing out |
| `Handoff.InitialReaderExact` | internal/proxy/durable_http.go:432-501 | the same for the reader that opened the stream, from entry 1 |
| `HandoffCursor.StuckRun` | internal/journal/memory.go:845-848 | a cursor that a finished or degraded stream never reaches is never served anything |
| `HandoffCursor.EarlyRun` | internal/proxy/degradation.go:197-215 | a cursor so far ahead that the entries before it overflow the queue is served no entry twice, in every run |
| `HandoffCursor.RepeatedEntry` | internal/proxy/durable_http.go:354-394 | from every reachable state and every cursor that is not safe, a run in which the reader is sent an entry its cursor covers |
| `HandoffCursor.UnsafeReachable` | internal/proxy/durable_http.go:354-394 | states with a cursor that is not safe are reached, both with an entry waiting for its broadcast and with a cursor past the last entry |
| `HandoffCursor.ResumeExactIff` | internal/proxy/durable_http.go:354-394 | for every reachable state and every cursor: all runs are exact if and only if the cursor is safe |
| `MemoryJournal.TrimCountLeast` | internal/journal/memory.go:523-531 | exactly the drops of at least that many entries leave enough room |
| `MemoryJournal.CountTrim` | internal/journal/memory.go:523-531 | the loop finds the count and its bytes |
| `MemoryJournal.TrimStream` | internal/journal/memory.go:558-570 | the ring without its oldest entries, its bytes and its new first sequence number |
| `MemoryJournal.PushedRing` | internal/journal/memory.go:500-511 | a push keeps the ring contiguous, counted exactly and within the stream's cap |
| `MemoryJournal.EvictionSpares` | internal/journal/memory.go:539-554 | eviction removes terminal streams only and changes no other stream |
| `MemoryJournal.Memory.RemoveStream` | internal/journal/memory.go:788-805 | the stream leaves the map, the list and the total, and leaves a tombstone while one is due |
| `MemoryJournal.Memory.CleanupExpired` | internal/journal/memory.go:773-786 | exactly the expired terminal or degraded streams go, and exactly the due tombstones remain |
| `MemoryJournal.Memory.Choose` | internal/journal/memory.go:539-548 | the shortest least-recently-used end of the list that frees enough, or all of it |
| `MemoryJournal.Memory.Reclaim` | internal/journal/memory.go:533-555 | room is refused if and only if the open streams alone leave too little; then nothing changes |
| `MemoryJournal.Memory.MakeRoom` | internal/journal/memory.go:518-556 | both caps together: refused exactly when the entry or the open streams are too large, else the least trim and the fewest evictions |
| `MemoryJournal.Memory.Commit` | internal/journal/memory.go:495-516 | one entry goes in with everything accounted for, or nothing changes |
| `MemoryJournal.Memory.Open` | internal/journal/memory.go:164-238 | each outcome exactly when; no healthy open stream is touched; the total equals the sum over streams within the cap |
| `MemoryJournal.Memory.Append` | internal/journal/memory.go:241-277 | each outcome exactly when; a refusal changes no retained entry; the sequence number is the next one; no healthy open stream is evicted |
| `MemoryJournal.Memory.Close` | internal/journal/memory.go:411-457 | as an append, and the stream joins the list at its front, so that the list holds exactly the terminal streams |
| `MemoryJournal.Memory.MarkDegraded` | internal/journal/memory.go:461-493 | seals exactly an open stream and lets it expire |
| `MemoryJournal.Memory.Visit` | internal/journal/memory.go:807-811 | a read moves a terminal stream to the front and changes no stream |
| `Tail.CommitKeeps` | internal/journal/memory.go:572-604 | a commit, its trim, the drop of readers behind the ring and the lag count keep the reader's invariant |
| `Tail.ReaderKeeps` | internal/journal/memory.go:606-697 | every step of the reader does, including a send that wins after a stop |
| `Tail.TailExact` | internal/journal/memory.go:335-388 | in every run the channel gets fromSeq+1, fromSeq+2, ...; the lag is the bytes of undelivered live entries; an ended reader has missed nothing |
| `Tail.FallbacksDead` | internal/journal/memory.go:615-660 | a running reader is never behind the ring, always finds its entry in it, and its lag never needs the clamp |
| `Pool.RetiredMore` | internal/backend/pool.go:221-228 | the order in which records are retired does not matter |
| `Pool.BackendPool.Admit` | internal/backend/pool.go:193-220 | a new, updated or revived record, with revision, health and drain flags, and one notification |
| `Pool.BackendPool.Replace` | internal/backend/pool.go:176-230 | both loops together: all given backends admitted, all others retired and the spent ones dropped; a duplicate changes nothing |
| `Pool.BackendPool.Upsert` | internal/backend/pool.go:134-158 | one backend admitted |
| `Pool.BackendPool.Remove` | internal/backend/pool.go:234-248 | retires exactly a known backend |
| `Pool.BackendPool.AcquireID` | internal/backend/pool.go:361-376 | a lease exactly for an eligible backend, under a new number |
| `Pool.BackendPool.Release` | internal/backend/pool.go:403-415 | gives a lease back once and drops a spent retired record |
| `Pool.BackendPool.BeginRetainedDrain` | internal/backend/pool.go:526-538 | drains and pins the record the identifier leads to and returns its leases |
| `Pool.BackendPool.CloseDrain` | internal/backend/pool.go:621-631 | a pin is released once |
| `Pool.BackendPool.ProbeOne` | internal/backend/health.go:127-164 | a probe takes effect only on the revision it was made for |
| `Drain.NextKeeps` | internal/backend/pool.go:693-787 | every operation keeps waiter counts equal to open pins, and keeps a held record held unless it undrains it or closes the pin |
| `Drain.RetainedDrainHolds` | internal/backend/pool.go:526-631 | over every run from an empty pool through a retained drain: the record's leases stay within the snapshot, its identifier keeps leading to it, and once it has none every lease of the snapshot was released |
| `Probes.RevisionRises` | internal/backend/pool.go:193-220 | over every run a record keeps its place and identifier and its revision never falls; an unchanged revision means an unchanged address and no return of a record that was away |
| `Probes.FenceExact` | internal/backend/health.go:142-147 | over every run: a record in use has its old revision if and only if at no point of the run it was taken away or had another address |
| `Probes.LandsExactly` | internal/backend/health.go:142-147 | a probe's result is applied if and only if it still describes the record it was made of, or the identifier leads to another unretired record with that revision |
| `Probes.StaleProbe` | internal/backend/health.go:127-164 | after any run, a result that no longer describes its record changes the pool if and only if the identifier leads to another unretired record with that revision and other health |
| `Probes.LeaseKeepsRecord` | internal/backend/pool.go:768-772 | while a lease of the record is not released the identifier keeps leading to it, so no stale result lands |
| `Probes.PinKeepsRecord` | internal/backend/pool.go:768-772 | the same while a drain or wait on it is not closed |
| `Probes.UnprobedHealthy` | internal/backend/pool.go:768-799 | a run from an empty pool in which an address that was never probed is marked healthy |
| `Drain.RemoveThenUpsert` | internal/backend/pool.go:774-787 | a backend taken away while leased and brought back is the same record and serves again unless an administrator had drained it |
| `Wakeup.NextTold` | internal/backend/pool.go:757-766 | no operation changes what selection can see without closing the change channel |
| `Wakeup.NextQuarantineExpiry` | internal/backend/pool.go:97-129 | the loop finds the earliest quarantine end of a backend that is otherwise selectable |
| `Wakeup.LookKeeps` | internal/backend/pool.go:322-332 | a look that finds no candidate means that none was free when the timer's clock was read |
| `Wakeup.RecheckKeeps` | internal/backend/pool.go:344-357 | a lost race, and so all 64 of them, means that the channel is closed |
| `Wakeup.ApplyKeeps` | internal/proxy/routes.go:166-181 | a route update that ends a refusal closes the channel unless it finds and leaves the pool empty |
| `Wakeup.NoLostWakeup` | internal/proxy/producer.go:622-673 | in every run of pool operations, route updates and waiter steps: when the waiter blocks and a backend is ready, its channel is closed, or its timer is due no later than that backend's quarantine end plus the time between the clock reading and the timer's start, or the registry refuses the model as deleted |
| `RedisLog.RedisStream.Append` | internal/journal/redis_receipts.go:21-71 | the append script, with its receipt and every refusal |
| `RedisLog.RedisStream.Close` | internal/journal/redis_receipts.go:73-125 | the close script, with its receipt and every refusal |
| `RedisLog.StoredPasses` | internal/journal/redis_replay.go:73-155 | keys that satisfy the scripts' invariant pass the retained-bounds validation |
| `RedisCalls.ScriptEffect` | internal/journal/redis_receipts.go:21-174 | a script writes nothing, or exactly one entry of its own with a receipt that names it |
| `RedisCalls.ExactlyOnce` | internal/journal/redis.go:414-468 | with lost messages, late execution, one retry and interleaved replicas: an append or close adds at most one entry, a returned number is the number of that entry, and no nonce meets a foreign receipt |
| `RedisCalls.ReachablePasses` | internal/journal/redis_replay.go:73-155 | every reachable state with both keys present passes the retained-bounds validation |
| `RedisCalls.EventsGrow` | internal/journal/redis_replay.go:157-180 | over any run in which the events do not expire, an earlier read is a prefix of a later one |
| `RedisCalls.DegradeMarks` | internal/journal/redis.go:643-682 | in every run: a mark whose caller got a result, by a reply or by its receipt, was made at some point of the run, and from there on the stream stays marked and takes no entry until the hash expires |
| `RedisCalls.DegradedWritesNothing` | internal/journal/redis_receipts.go:51-53 | over any run, a stream marked as degraded gets no further entry while the mark is kept |
| `RedisReplay.ObservedOneLog` | internal/journal/redis_replay.go:157-180 | reads made anywhere along a run of scripts, with expiry, see one log that only grows |
| `RedisReplay.ReplayRange` | internal/journal/redis_replay.go:159-228 | over such reads and any positive page size: exactly the entries after fromSeq in order, all of them unless the consumer stopped or the events expired; the sequence checks never fail |
| `RedisReplay.Read` | internal/journal/redis.go:473-511 | over any run of scripts between the reads: refused exactly when; otherwise a prefix of the entries that the first read found, all of them if it completes |
| `RedisTail.Follow` | internal/journal/redis.go:902-1038 | the loop sends the next entry each time, whether a blocking read or a look at the state finds it |
| `RedisTail.Tail` | internal/journal/redis.go:863-1039 | over any run of scripts and any number of reads: exactly the entries after the cursor in order, each once; complete only after the terminal entry; a gap reported only with everything up to the mark sent; otherwise keys are gone or the reader left |
| `Idempotency.NextKeeps` | internal/journal/redis.go:143-228 | resolve, refresh, release, open, removal and expiry keep every reservation and every opened binding accounted for |
| `Idempotency.OneStreamPerDigest` | internal/journal/redis.go:36-117 | in every run, two different streams opened under one digest have an expiry or removal of the first binding between them |
| `Idempotency.OneCreatorPerDigest` | internal/journal/redis.go:143-189 | in every run, a second caller is told to create the stream of a digest only after the first reservation, or the stream opened from it, was given up |
| `Idempotency.ResolvesToOpened` | internal/journal/redis.go:143-189 | until then every request with the digest gets the opened stream and is not told to open one |
| `Readers.ScriptFenced` | internal/journal/redis_readers.go:13-152 | each script, and the release of a lease, keeps leases and claims apart |
| `Readers.NeverBoth` | internal/journal/redis_readers.go:13-152 | in every run under a monotone clock: no live claim and unexpired lease together while the stream is open |
| `Budget.StreamProgress.Apply` | internal/proxy/chunk.go:94-113 | a report counts from the attempt's base and never lowers a total |
| `Budget.StreamProgress.TakeSnapshot` | internal/proxy/chunk.go:115-127 | every byte no report covers counts as a token, flagged as an estimate |
| `Budget.StreamProgress.BeginAttempt` | internal/proxy/chunk.go:130-138 | the accepted totals become the base of the next attempt |
| `Budget.RecomputeTokenLimit` | internal/migrate/continuation.go:195-210 | the remaining limit and what was emitted make up the original; none exactly when it is spent |
| `Budget.BudgetHolds` | internal/proxy/producer.go:445-448 | over any number of attempts that keep to their limits: no more visible tokens than asked for, none uncounted, total equals prompt plus completion |
| `Budget.UsageHonest` | internal/proxy/chunk.go:94-138 | prompt tokens are always the reports of all attempts added up, and so are completion tokens unless the snapshot is marked as an estimate |
| `SseWire.SplitJoins` | internal/proxy/sse/encoder.go:53-57 | data split into lines and read back as lines is the data |
| `SseWire.RetryParses` | internal/proxy/sse/decoder.go:232-246 | every duration the encoder writes is read back |
| `SseWire.LinesBuild` | internal/proxy/sse/decoder.go:183-223 | the lines of an encoded event build that event, presence made precise, and nothing else |
| `Sse.LinesClean` | internal/proxy/sse/encoder.go:63-121 | no encoded line is empty, contains a line ending, is invalid UTF-8 or can be taken for a byte-order mark |
| `Sse.RoundTrip` | internal/proxy/sse/decoder.go:91-261 | for any events within the size limit and LF, CR or CRLF endings: decoding the concatenated encodings returns them, and the input may end there |
| `Sse.Truncated` | internal/proxy/sse/decoder.go:91-137 | any prefix of an LF stream yields exactly its complete frames, and is at rest only between frames |
| `Sse.WireReplaced` | internal/proxy/sse/encoder.go:26-61 | the stream with other line endings is the encoder's output with every line feed replaced |
| `SseCodec.WriteField` | internal/proxy/sse/encoder.go:111-121 | one field line |
| `SseCodec.CheckEvent` | internal/proxy/sse/encoder.go:63-109 | accepts exactly the encodable events |
| `SseCodec.Encode` | internal/proxy/sse/encoder.go:26-61 | refuses exactly what is not encodable and writes the frame of the rest |
| `SseCodec.Decoder.Take` | internal/proxy/sse/decoder.go:138-164 | one byte does what the specification's step does |
| `SseCodec.Decoder.ReadLine` | internal/proxy/sse/decoder.go:111-165 | consumes a prefix of the input that specifies the line, the failure or the end it reports |
| `SseCodec.Decoder.Decode` | internal/proxy/sse/decoder.go:91-109 | returns the next event of the specified decoding, or how the input ended |
| `SseCodec.Decoder.FinishFrame` | internal/proxy/sse/decoder.go:248-261 | returns a frame with a recognised field and resets |
| `SseCodec.DecodeAll` | internal/proxy/sse/decoder.go:91-109 | decoding to the end returns exactly the events and the end of the specified decoding, for any input |
| `SseCodec.DecodeCut` | internal/proxy/sse/decoder.go:91-165 | of an encoded stream cut anywhere the decoder returns exactly the events with complete frames, then the end of input exactly at a frame boundary, otherwise an incomplete frame or bad text |
| `SseCodec.DecodeWire` | internal/proxy/sse/decoder.go:91-261 | encoded events under any of the three line endings are decoded to those events and the end of input |
| `Ulid.EncodeULID` | internal/journal/id.go:154-169 | the bit loops compute the padded base-32 grouping |
| `Ulid.DecodeStreamID` | internal/journal/id.go:171-199 | accepts exactly the canonical texts and sets exactly their bits |
| `Ulid.EncodeThenDecode` | internal/journal/id.go:154-199 | every 16 bytes survive encoding and decoding |
| `Ulid.DecodeThenEncode` | internal/journal/id.go:171-199 | every accepted text is the encoding of what it decodes to, so the two are inverse |
| `Ulid.EncodedOrder` | internal/journal/id.go:154-169 | texts sort as their bytes do |
| `Ulid.IncrementEntropy` | internal/journal/id.go:144-152 | in place, the next larger value, or a report that there is none |
| `Ulid.SuccessorLarger` | internal/journal/id.go:144-152 | that value is larger |
| `Ulid.TimeBytes` | internal/journal/id.go:135-139 | the loop writes the timestamp highest byte first |
| `Ulid.IDGenerator.New` | internal/journal/id.go:102-142 | issues the specified stamp and otherwise changes nothing; none exactly for a bad time, missing entropy or exhausted entropy; the text is larger than that of the identifier before |
| `Ulid.IssuedLater` | internal/journal/id.go:102-142 | for any clock reading the next stamp's text sorts after the last one's |
| `Ulid.IdentifiersIncrease` | internal/journal/id.go:102-142 | over any clock readings and entropy, an identifier is larger than every one before it |
| `Ulid.GenerateAll` | internal/journal/id.go:102-142 | every call returns an identifier exactly when the readings allow one, and it is the specified one; all of them strictly increase as strings |
| `Multicast.ReplayMulticast.CumulativeBefore` | packages/client/src/multicast.ts:207-214 | the bytes published before an index |
| `Multicast.ReplayMulticast.LeastIndex` | packages/client/src/multicast.ts:184-185 | the slowest cursor |
| `Multicast.ReplayMulticast.OldestWithinLimits` | packages/client/src/multicast.ts:186-193 | the loop ends within both limits |
| `Multicast.ReplayMulticast.Compact` | packages/client/src/multicast.ts:181-205 | drops nothing an attached iterator still needs |
| `Multicast.ReplayMulticast.Publish` | packages/client/src/multicast.ts:61-86 | the buffer respects both limits afterwards, and every iterator that does not fail keeps its cursor |
| `Multicast.ReplayMulticast.Subscribe` | packages/client/src/multicast.ts:101-118 | an iterator fails exactly when the beginning is gone, else it starts at the first item |
| `Multicast.ReplayMulticast.Next` | packages/client/src/multicast.ts:121-150 | an attached iterator yields the published items in order from the first; its cursor is never behind the buffer, so the skip ahead is dead; it ends having yielded all; one that was dropped throws |
| `Routes.ReplacedActive` | internal/backend/pool.go:176-230 | after a replacement exactly the given backends are not retired |
| `Routes.OthersKeepActive` | internal/backend/pool.go:403-631 | leases, health, drains and pins leave that set alone |
| `Routes.Combined` | internal/proxy/routes.go:185-226 | refused exactly when two live routes share a model or a backend; otherwise their union, or the static set |
| `Routes.RouteRegistry.Apply` | internal/proxy/routes.go:133-183 | each outcome exactly when; after it the pool's active backends are those of the live routes; a rejected update changes nothing |
| `Routes.RouteHistory` | internal/proxy/routes.go:144-159 | over any updates under one UID the generation never falls and a deletion is final |
| `Routes.RouteRegistry.AcquireModel` | internal/proxy/routes.go:256-278 | a lease exactly when the model is not refused and a backend can take it; while any route is live the backend belongs to the live route of that model |
| `Routes.RefusalEnds` | internal/proxy/routes.go:263-276 | a deleted model stays refused through an update if and only if the update neither revives nor forgets it |
| `Routes.DeletedStaysRefused` | internal/proxy/routes.go:253-276 | over any updates that never do, it stays refused |
| `Routes.ForgottenModel` | internal/proxy/routes.go:144-149 | updates from an empty registry: a model is refused as deleted, and two updates later it has no live route and is not refused |

## Left out

- HTTP handling, telemetry, logging, configuration parsing and the command line: plumbing around the modelled steps.
- Configuration validation in constructors (positive caps, windows and retention times, defaulting of a zero retention time): the models start from valid settings.
- JSON marshalling and SHA-256: payloads are opaque values, a digest stands for the whole canonical update.
- Machine widths of byte counters, sequence numbers and token counts: overflow at 64 bits is not modelled.
- The seam anomaly warning of `internal/migrate/seam.go`: it changes no text, and a stream that refuses it takes no chunk either.
- A chunk whose choice has no index: observation treats it as index 0 while the rewrite requires the index; the seam model takes the index as present.
- Chunk observation in `internal/proxy/chunk.go`: a chunk enters the seam model as its text fields in order and the size of the rest.
- The refusal path for an external migration in `internal/proxy/producer.go` after durability was lost: the producer model commits only while durable.
- Handoff: the journal tail is taken to deliver committed entries in order, which `Tail.TailExact` proves for the memory journal and `RedisTail.Tail` for Redis; a failed append is taken to commit nothing.
- Handoff: asking the feed for its status and subscribing are one action, since the boundary does not change once it is set.
- The buffered entry that a discarding stop may take back from a tail's channel: order is stated over what is put on the channel.
- Pool: pod-wide drains, `SetHealth`, `MarkPassiveFailure`, `MarkDraining` and `Undrain` are steps of the pool's transition function without methods of their own; round-robin choice among candidates is nondeterministic.
- Redis key time-to-live values: expiry is an action that may happen at any time, except that a receipt outlives its own call and a stream identifier is opened once where reader leases are concerned.
- Idempotency: expiry and unconditional removal of a digest's key are one action; legacy value formats and the string encoding of reservations; a reservation is a value with an identifier and a creator.
- RedisReplay, RedisTail: decoding of entries, network errors between reads and the byte-bounded pump behind the tail; between two reads a stream whose events expired is not opened again under the same identifier.
- Probes: the time and error text of the last probe; the callback after a transition.
- Routes.RouteRegistry.AcquireModel: the choice and the lease are one step; the races between them are in `Wakeup`.
- Sse: reader errors other than the end of input, and use of a decoder after it has failed.
- Multicast: sizes are not negative, promises and wake-ups are reduced to one turn of the wait, and an iterator is not used after it has returned or ended.
- Kubernetes controllers, conformance probes, the fetch and reconnect loop of the client and the sites: no state that carries a hard promise.
