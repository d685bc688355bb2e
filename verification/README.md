# TurboDB: a Dafny model of its protocols

TurboDB is a set of database clients in C. This project models the parts of it that are protocols, parsers or state
machines, and proves what they promise on every input, every run and every reachable state.

**The ordered-apply journal** (`Decimal`, `Journal*`). Five Lua scripts keep a replicated log in Redis: a metadata hash, a
journal hash, an identity hash and an outbox stream. `Journal` states each script as a step of one store. A step may be
cut short by the server after any number of its writes, replies may be lost, and the outbox may be trimmed up to the
commit marker. `JournalSafety` and `JournalRuns` prove the invariants and what clients may rely on; `JournalLoop` proves
that the interleaved check-and-write loop of the apply script behaves as if all checks came first; `JournalScripts` is
the scripts themselves, on decimal texts and Redis hashes, loop by loop, proved to be those steps.

**RESP** (`Resp*`). The incremental reply reader is an explicit-stack machine that can stop for more input anywhere.
`RespProofs` proves that chunking does not matter and that the machine is a recursive-descent decoder; `RespRoundTrip`
accounts for the allocation budget and proves that printed values are read back; `RespReader` is the reader as a class
with its fixed frame array and saved scan position; `RespCommand` is the command printer.

**SQL placeholder lowering** (`Lowering*`). A lexer-driven rewriting of `?N` and `?` placeholders, its meaning, and the
in-place loop that performs it.

**MySQL packets** (`Packets`). The streaming reassembler against the framing of multi-packet messages.

**MySQL transactions** (`Session*`, `TransactionSessions`). The callbacks and calls that decide what is reported about
COMMIT; `SessionCases` has the runs that reach each situation.

**Redis connection layer** (`IoRuntime*`, `Pool*`, `ConnectionPools`, `CommandOutcome`, `CommandStreams`). The
mutex-gated runtime as interleaved gated sections; the pool of leased connections; what is known of a command that was
or was not sent, and that the pool sees of it exactly what it counts on.

**Cluster routing** (`Crc`, `KeySlots`, `ClusterSlots`). The CRC16 table against the bit-by-bit definition, hash tags
(Redis Cluster specification, "Hash tags"), and the CLUSTER SLOTS reply.

Bytes are `char` where the code handles text and numbers from 0 to 255 where it handles packets. What other code answers
(the server, the network layer, the operating system) is a parameter of the step it affects. Concurrency is modelled as
steps that interleave freely; a step is a section under the mutex or one move of the executor.

## Where the code differs from what is documented or expected

- `redis/redis_lua_apply_batch.h:84` says that PENDING allows the exact request to be retried. An aborted batch may have
  prepared other data above the commit marker, and then apply answers CONFLICT. `JournalRuns.PendingIsNotEnough` shows
  it; `JournalRuns.ReconcileForecastsApply` gives the exact condition.
- Compaction checks everything before its first deletion, but a server that gives up between its writes leaves an index
  above the floor with a hash missing. From then on every compaction is refused: `JournalRuns.DensityKept` says exactly
  when that happens, `JournalRuns.StuckForGood` that it is permanent, `JournalCases.CompactionIsCut` is a run.
- In a session, a failed phase is not final: the completion of a send already under way overwrites it.
  `SessionRuns.FailedIsOverwritten` and `SessionRuns.FailedStays` say exactly when, `SessionCases.FailedIsRevived` is a run.
- A malformed reply to COMMIT is reported as a protocol error and not as COMMIT_UNKNOWN; `SessionRuns.WindowReports` says
  which failures are reported how, `SessionCases.MalformedIsProtocol` is a run.
- A wake-up request that finds the flag already set is told OK, and is dropped with the post it relied on if that post is
  refused or its queued task cancelled. `IoRuntimeRuns.WakeupGivenUp` shows it; `IoRuntimeRuns.WakeupAnswered` gives the
  exact moves, `IoRuntimeRuns.WakeupFate` what they mean over a run, and `IoRuntimeRuns.WakeupDecided` when a caller's
  request is already decided.
- A reported COMMIT_UNKNOWN can be replaced by PROTOCOL, by a bad packet that began to arrive before it.
  `SessionRuns.UnknownIsOverwritten` says exactly when, `SessionCases.UnknownIsLost` is a run.
- A COMMIT that was acknowledged can still be reported as failed, if a failure of the connection is delivered after its OK.
  `SessionRuns.AcknowledgedIsReported` says exactly when it is not, `SessionCases.AcknowledgedIsLost` is a run.
- Aborting a cursor on a session that has failed does nothing, so that the completion of a send under way can revive the
  session and its transaction. `SessionCases.AbortPreventsCommit` says exactly when a COMMIT remains possible.

## Model

| member | source | states |
|---|---|---|
| Decimal.CanonicalIsNumeral | redis/redis_lua_apply_batch.c:36-39 | a canonical text is the numeral of its own value, so no number has two canonical texts |
| Decimal.CompareIsOrder | redis/redis_lua_apply_batch.c:31-35 | on canonical texts of any length the comparison is the order of the numbers, and equal texts are equal numbers |
| Decimal.ValidU64IsRange | redis/redis_lua_apply_batch.c:36-39 | exactly the canonical texts of numbers up to 2^64-1 are accepted |
| Decimal.SuccessorIsNext | redis/redis_lua_apply_batch.c:40-49 | carrying over trailing nines gives digits worth one more, for any length, with no leading zero for a canonical text |
| Decimal.Increment | redis/redis_lua_apply_batch.c:40-49 | the digit loop returns a text worth one more, and the canonical one for a canonical input |
| Journal.ParsedIsContiguous | redis/redis_lua_apply_batch.c:71-82 | arguments that pass the checks are consecutive well-formed records, spelled in order |
| Journal.ParsedCompactIsValid | redis/redis_lua_apply_batch.c:227-238 | accepted compaction arguments have 1 <= first <= last <= snapshot within 64 bits and a positive limit |
| JournalSafety.IdentityInjective | redis/redis_lua_apply_batch.c:92 | equal stored identities mean equal term and equal command id |
| JournalSafety.WriteRecord | redis/redis_lua_apply_batch.c:116-120 | the writes for one record, stopped anywhere, touch only data above the commit marker and never a logged event |
| JournalSafety.WriteBatch | redis/redis_lua_apply_batch.c:103-126 | the same for a whole batch: complete exactly when the server does not give up, and then every record is in the outbox at its index |
| JournalSafety.CommitBatch | redis/redis_lua_apply_batch.c:127-130 | writing the marker last commits exactly the batch and keeps every invariant |
| JournalSafety.ApplyStep | redis/redis_lua_apply_batch.c:63-131 | an apply step fails only if the server gives up; only APPLIED changes what is committed; CONFLICT, GAP and REPLAYED change nothing; an accepted batch is in the log |
| JournalLoop.LoopIsPlan | redis/redis_lua_apply_batch.c:99-131 | the loop that mixes checks and writes replies, writes and stops as if every check had come before the first write |
| JournalRuns.StepSafe | redis/redis_lua_apply_batch.c:63-348 | every operation, cut short or not, keeps the log and acknowledges only records that are in it |
| JournalRuns.RunSafe | redis/redis_lua_apply_batch.c:63-348 | over every run the invariant holds, the log only grows, and every acknowledged record is in the final log |
| JournalRuns.Agreement | redis/redis_lua_apply_batch.c:83-131 | two requests that were both told APPLIED or REPLAYED carry the same record at any shared index, in every run with aborts, retries, compactions and lost replies |
| JournalRuns.AcknowledgedIsDurable | redis/redis_lua_apply_batch.c:127-131 | an acknowledged record stays committed at its index for the rest of the run |
| JournalRuns.OutboxIsTheLog | redis/redis_lua_apply_batch.c:91-129 | in every reachable state the events have the ids 1, 2, 3, ... at least up to the commit marker, none is ever changed or removed except by trimming committed ones, and whatever journal and identity hold at a committed index is what its event says |
| JournalRuns.StreamNeverRefuses | redis/redis_lua_apply_batch.c:118-120 | in every reachable state XADD's increasing-id rule is never violated: an apply fails only when the server gives up |
| JournalRuns.DensityKept | redis/redis_lua_apply_batch.c:254-272 | after any run both hashes hold every index in (floor, applied] and none at or below the floor, if and only if no compaction in it that would apply was stopped between its writes; floor <= applied always |
| JournalRuns.StuckForGood | redis/redis_lua_apply_batch.c:254-272 | after a compaction that was stopped between its writes no compaction ever applies again, whatever is applied or retried |
| JournalCases.CompactionIsCut | redis/redis_lua_apply_batch.c:266-271 | a run of one apply and one compaction stopped after its first write, which leaves no compaction able to apply whatever follows |
| JournalRuns.ScanMeaning | redis/redis_lua_apply_batch.c:254-265 | the range scan completes exactly when every index is present and the range is within the limit |
| JournalRuns.CompactCondition | redis/redis_lua_apply_batch.c:246-265 | compaction applies exactly when the snapshot is applied and carries the term, the range starts right above the floor, is complete and within the limit |
| JournalRuns.CompactStep | redis/redis_lua_apply_batch.c:246-272 | compaction never touches the log; applied, it moves the floor to last and stores the marker; otherwise floor and marker stay; refused, nothing changes |
| JournalRuns.CompactReconcilePending | redis/redis_lua_apply_batch.c:321-348 | in every state PENDING is answered exactly when compaction would apply |
| JournalRuns.FloorMovesOnlyByCompaction | redis/redis_lua_apply_batch.c:266-272 | over any run floor and marker change exactly if a compaction applies, and then the floor rises |
| JournalRuns.CompactionIsRemembered | redis/redis_lua_apply_batch.c:318-327 | after a compaction applied, the same request is answered REPLAYED exactly until another compaction applies |
| JournalRuns.ReconcileForecastsApply | redis/redis_lua_apply_batch.c:178-194 | REPLAYED exactly when apply would replay; apply would be APPLIED, at the last index, exactly when PENDING is answered and no prepared data disagrees |
| JournalRuns.ReconcileInEveryRun | redis/redis_lua_apply_batch.c:158-194 | the same for request texts and real replies in every reachable state |
| JournalRuns.PendingIsNotEnough | redis/redis_lua_apply_batch.h:83-87 | a state left by an aborted batch in which PENDING is answered and apply says CONFLICT |
| JournalRequests.Validate | redis/redis_lua_apply_batch.c:438-448 | the client accepts exactly 1 to 1024 consecutive records with non-zero index and term and a non-empty id |
| JournalRequests.RequestRoundTrip | redis/redis_lua_apply_batch.c:563-599 | a printed request is refused by the scripts exactly when its records are not consecutive and sound, and otherwise read back unchanged |
| JournalScripts.CheckRecords | redis/redis_lua_apply_batch.c:70-82 | the loop over texts finds the same refusal, with the same reason, as the check on numbers |
| JournalScripts.StreamIsRepresented | redis/redis_lua_apply_batch.c:91 | for every Redis stream there are events of which every lookup of an id says what the stream does |
| JournalScripts.HashIsRepresented | redis/redis_lua_apply_batch.c:89-90 | for every hash there is a map over indices with the same lookups |
| JournalScripts.Keys.Represented | redis/redis_lua_apply_batch.c:64-69 | whatever readable keys hold, some store represents it, so the scripts below are specified on all of them |
| JournalScripts.ScriptClashIsClash | redis/redis_lua_apply_batch.c:89-96 | the text comparison of identity, payload and event is disagreement with the stored record, on any stream |
| JournalScripts.Keys.SetPayload | redis/redis_lua_apply_batch.c:116 | one write: either it happens and spends one unit of the server's budget, or the budget is spent and nothing changes |
| JournalScripts.Keys.SetIdentity | redis/redis_lua_apply_batch.c:117 | the same for the identity hash |
| JournalScripts.Keys.AddEvent | redis/redis_lua_apply_batch.c:119 | while the server has not given up, appends the event if its id exceeds the last one; otherwise it is refused and nothing changes |
| JournalScripts.Keys.Commit | redis/redis_lua_apply_batch.c:127-129 | writing index, term and id of the marker is one write |
| JournalScripts.Keys.CheckRecord | redis/redis_lua_apply_batch.c:89-96 | reports a clash exactly if the stored data disagree, and whether the event exists |
| JournalScripts.Keys.CheckStored | redis/redis_lua_apply_batch.c:83-98 | the second loop finds a conflict exactly if some record disagrees, and notes which events exist |
| JournalScripts.Keys.WriteRecord | redis/redis_lua_apply_batch.c:116-120 | the planned writes of one record, stopped anywhere |
| JournalScripts.Keys.Consider | redis/redis_lua_apply_batch.c:103-126 | one turn on hashes: compare below the marker, report a gap, or write |
| JournalScripts.Keys.Turn | redis/redis_lua_apply_batch.c:103-126 | a turn leaves the rest of the loop to be done, or its reply is the loop's |
| JournalScripts.Keys.WriteRecords | redis/redis_lua_apply_batch.c:99-131 | the third loop on hashes and texts is the step-by-step write loop, abort included; CONFLICT, GAP and REPLAYED leave every key as it was |
| JournalScripts.Keys.FinishBatch | redis/redis_lua_apply_batch.c:127-130 | the commit marker of a written batch, or the abort before it |
| JournalScripts.Keys.ApplyBatch | redis/redis_lua_apply_batch.c:83-131 | for accepted arguments the loops together execute the plan |
| JournalScripts.Keys.Examine | redis/redis_lua_apply_batch.c:63-82 | key and argument checks give the refusal of the parser, or refuse unreadable keys |
| JournalScripts.Keys.Apply | redis/redis_lua_apply_batch.c:63-131 | the whole script, on any arguments and any readable keys, is the apply step; on unreadable keys it replies INVALID; unless it replies APPLIED or fails part way, every key is left as it was |
| JournalScripts.Keys.Compares | redis/redis_lua_apply_batch.c:183-188 | true exactly if identity and payload are the stored ones |
| JournalScripts.Keys.CompareBatch | redis/redis_lua_apply_batch.c:178-193 | the loop gives the verdict over the whole batch |
| JournalScripts.Keys.Reconcile | redis/redis_lua_apply_batch.c:158-194 | the whole script, on any arguments and readable keys, is the reconcile step and writes nothing |
| JournalScripts.Keys.ExamineCompact | redis/redis_lua_apply_batch.c:227-245 | arguments and keys are accepted exactly when they parse and are readable |
| JournalScripts.Keys.ScanRange | redis/redis_lua_apply_batch.c:254-265 | the while loop over decimal texts is the range scan, with the limit as the double that Lua makes of it, and collects exactly the texts of the range |
| JournalScripts.Keys.SnapshotKnown | redis/redis_lua_apply_batch.c:248-253 | the prefix comparison decides whether the snapshot's identity has the term |
| JournalScripts.Keys.StartsAtFloor | redis/redis_lua_apply_batch.c:246-247 | decides whether the snapshot is applied and the range starts right above the floor |
| JournalScripts.Keys.DropPayloads | redis/redis_lua_apply_batch.c:266 | deletes exactly the range, or nothing |
| JournalScripts.Keys.DropIdentities | redis/redis_lua_apply_batch.c:267 | the same for the identity hash |
| JournalScripts.Keys.SetFloor | redis/redis_lua_apply_batch.c:268-271 | floor and marker are one write |
| JournalScripts.Keys.DropRange | redis/redis_lua_apply_batch.c:266-271 | the three writes, stopped anywhere, are the planned ones |
| JournalScripts.Keys.Compact | redis/redis_lua_apply_batch.c:227-272 | the whole script, on any arguments and readable keys, is the compaction step; unless it applies or fails part way, every key is left as it was |
| JournalScripts.Keys.CompactReconcile | redis/redis_lua_apply_batch.c:299-348 | the whole script is the compact-reconcile step and writes nothing |
| JournalScripts.Keys.ReadFloor | redis/redis_lua_apply_batch.c:361-365 | returns the floor, or CONFLICT exactly if the metadata key has another type or its floor is unreadable |
| RespProofs.FindStable | redis/redis_parser.c:193-210 | a line end, once found, stays the first when more input arrives |
| RespProofs.StepStable | redis/redis_parser.c:239-375 | a turn that did not run out of input is the same with more input |
| RespProofs.RunResumes | redis/redis_parser.c:239-375 | stopping for input and resuming with more is one uninterrupted run |
| RespProofs.ChunkingIrrelevant | redis/redis_parser.c:239-375 | for every byte string and every split into appends the reader gives the same reply, consumed count or error as one call on the whole; the one exception, no call at all with a zero budget, is excluded |
| RespProofs.ReaderIsDecoder | redis/redis_parser.c:239-375 | on every input and budget a fresh reader answers what the recursive decoder says, after refusing a zero budget and a budget too small for the owner |
| RespRoundTrip.DecodeAccounts | redis/redis_parser.c:51-58 | an accepted value was charged exactly its cost, within the budget, and nests at most 128 non-empty arrays |
| RespRoundTrip.ReadBack | redis/redis_parser.c:239-375 | a printed value anywhere in a buffer decodes to itself exactly if the budget covers its cost, else the limit is reported; positions up to INT_MAX, nesting up to 128 |
| RespRoundTrip.ChunkedReadBack | redis/redis_parser.c:239-375 | a printed value of at most INT_MAX bytes nested at most 128 deep, split into any appends, is read back consuming exactly its text if the budget covers its cost, else the limit is reported |
| RespReader.ReplyReader.CompleteValue | redis/redis_parser.c:160-191 | a finished value goes to the innermost array, closing every array it fills; frame indices stay in range |
| RespReader.ReplyReader.ScanLine | redis/redis_parser.c:193-210 | scanning on from the saved position finds the first line end, also one whose CR was the last byte before |
| RespReader.ReplyReader.Charge | redis/redis_parser.c:51-58 | charges exactly when the budget allows, so the charge never exceeds it |
| RespReader.ReplyReader.Start | redis/redis_parser.c:132-158 | a new reader is charged for its owner and is where the machine begins |
| RespReader.ReplyReader.Deliver | redis/redis_parser.c:160-191 | a value attached in place is the machine's attachment |
| RespReader.ReplyReader.OpenFrame | redis/redis_parser.c:239-375 | a new array takes the next frame and is charged for its elements, or is refused |
| RespReader.ReplyReader.ValueTurn | redis/redis_parser.c:239-375 | every header but that of a bulk string is handled as classified |
| RespReader.ReplyReader.BodyTurn | redis/redis_parser.c:239-375 | a turn inside a bulk string is a turn of the machine |
| RespReader.ReplyReader.HeaderTurn | redis/redis_parser.c:239-375 | a turn at a header line is a turn of the machine |
| RespReader.ReplyReader.Loop | redis/redis_parser.c:239-375 | the loop terminates and gives the outcome of the stack machine |
| RespReader.ReplyReader.NextBuffer | redis/redis_parser.c:239-375 | a call with the buffer grown since the last one gives the modelled answer and keeps the modelled state |
| RespCommand.DecimalDigits | redis/redis_protocol.c:9-16 | the number of digits of the decimal text |
| RespCommand.Measure | redis/redis_protocol.c:29-41 | the precomputed size is the exact length of the printed command, or refusal exactly when that exceeds the limit |
| RespCommand.BuildBounded | redis/redis_protocol.c:18-79 | refuses exactly empty commands, a zero limit and commands over the limit, and otherwise prints the command |
| RespCommand.CommandRoundTrip | redis/redis_protocol.c:18-79 | printed and cut into any chunks, a command is read back as an array of exactly its arguments if and only if the budget covers an explicit sum |
| LoweringProofs.SourceIsText | mysql/parameters.c:209-444 | cutting the statement into pieces loses nothing |
| LoweringProofs.PlaceholdersInCode | mysql/parameters.c:394-435 | a piece is a placeholder exactly at a `?` in code, with all digits that follow it |
| LoweringProofs.LiteralIsCopied | mysql/parameters.c:247-299 | a quoted literal, with doubled quotes and escapes, is copied and code resumes after it |
| LoweringProofs.CommentIsCopied | mysql/parameters.c:212-222 | a comment to the end of the line, or of the text, is copied and code resumes after it |
| LoweringProofs.BlockIsCopied | mysql/parameters.c:224-245 | a block comment is copied and code resumes after it |
| LoweringProofs.ExecutableIsCode | mysql/parameters.c:301-325 | the text of an executable comment is scanned as code until its end mark |
| LoweringProofs.Rereads | mysql/parameters.c:209-444 | the lowered text splits into the same pieces, with every placeholder bare |
| LoweringProofs.QuotedIsCopied | mysql/parameters.c:247-299 | inside a literal everything up to its closing quote is copied |
| LoweringProofs.LineCommentIsCopied | mysql/parameters.c:212-222 | inside a line comment everything up to the end of the line, or of the text, is copied |
| LoweringProofs.BlockCommentIsCopied | mysql/parameters.c:224-245 | inside a block comment everything up to its end mark is copied |
| LoweringProofs.LowerAllIff | mysql/parameters.c:137-158 | the element-wise rewriting succeeds exactly on acceptable elements, with the given text, order and style |
| LoweringProofs.LowerIff | mysql/parameters.c:190-455 | lowering succeeds exactly on text that ends outside quotes and comments, uses one style, numbers within 1..max and fits both buffers; then text, bind order and style are determined |
| LoweringProofs.MeaningKept | mysql/parameters.c:190-455 | bound in order, the lowered text says what value N at each `?N`, or value k at the k-th `?`, says in the original |
| LoweringProofs.LoweringIsIdempotent | mysql/parameters.c:190-455 | the lowered text lowers to itself with bind order 1..n |
| LoweringLoop.ParsePortableIndex | mysql/parameters.c:160-188 | the digit loop with its overflow check accepts exactly numbers in 1..max and stops after the digits |
| LoweringLoop.CopyLength | mysql/parameters.c:209-444 | the branches on buffer positions choose the same piece as the lexer |
| LoweringLoop.Sink.Emit | mysql/parameters.c:122-135 | appends to the output exactly when there is room |
| LoweringLoop.Sink.Record | mysql/parameters.c:137-158 | records an index exactly in range, in one style and within both capacities, with the error of the first check that fails |
| LoweringLoop.Sink.Placeholder | mysql/parameters.c:394-435 | a placeholder is parsed, recorded and emitted as specified, or refused alike |
| LoweringLoop.Sink.CopyBytes | mysql/parameters.c:122-135 | a copied piece is emitted as specified |
| LoweringLoop.Sink.Element | mysql/parameters.c:209-444 | one turn handles exactly the next piece |
| LoweringLoop.Sink.Turn | mysql/parameters.c:209-444 | after a turn the rest of the text still lowers to the result of the whole |
| LoweringLoop.Sink.Lower | mysql/parameters.c:190-455 | the loop over the caller's buffers computes exactly the specified text, bind order and style, or the same refusal |
| Packets.BytesConcat | mysql/wire/packet.c:51-131 | reading a concatenation is reading its parts in turn |
| Packets.HeaderBytes | mysql/wire/packet.c:64-71 | header bytes accumulate until the fourth |
| Packets.PayloadBytes | mysql/wire/packet.c:100-130 | payload bytes accumulate until the declared length |
| Packets.FailedStays | mysql/wire/packet.c:51-131 | after a refused header nothing more is delivered |
| Packets.FrameIsRead | mysql/wire/packet.c:51-131 | a framed message is given back whole and the next sequence id expected, exactly if it fits the limit or the limit is the protocol's; otherwise its first header is refused and nothing is delivered |
| Packets.PacketStream.TakeHeader | mysql/wire/packet.c:64-71 | header bytes are collected across calls, at most four |
| Packets.PacketStream.ReadHeader | mysql/wire/packet.c:64-93 | the header part of a call reads exactly its bytes, with the status of the decoded header |
| Packets.PacketStream.ReadPayload | mysql/wire/packet.c:100-130 | the payload part delivers exactly the bytes it takes, with their offset, and notes the end of packet and message |
| Packets.PacketStream.FeedPayload | mysql/wire/packet.c:95-130 | inside a payload a call asks for more or delivers all it can take |
| Packets.PacketStream.Feed | mysql/wire/packet.c:51-131 | one call reads exactly the bytes it consumes and its event is what they deliver; a non-empty call on a stream that has not failed consumes something |
| Packets.Drain | mysql/wire/packet.c:51-131 | calling until a chunk is used up reads exactly the chunk |
| Packets.Reassemble | mysql/wire/packet.c:51-131 | for every split of a byte stream into calls the messages delivered are those of the whole |
| Packets.FramedInChunks | mysql/wire/packet.c:51-131 | so a framed message is delivered once and whole for every split |
| SessionRuns.StepKeeps | mysql/session.c:1724-1872 | every callback, call and deadline keeps the session invariant, unsolicited errors included |
| SessionRuns.RunKeeps | mysql/session.c:1724-1872 | the invariant holds in every run |
| SessionRuns.LostAcknowledgement | mysql/session.c:218-238 | between the observed completion of COMMIT's send and its OK, a failed state, close, poll error, deadline, refused receive or idle error 4031 is reported as COMMIT_UNKNOWN |
| SessionRuns.UnknownOnlyInWindow | mysql/session.c:218-238 | COMMIT_UNKNOWN is never reported before that completion or after that OK |
| SessionRuns.AtMostOneCommit | mysql/session.c:3077-3122 | a session sends at most one COMMIT and is done after it only when its OK was processed |
| SessionRuns.WindowReports | mysql/session.c:1044-1090 | inside the window a failure is COMMIT_UNKNOWN exactly if it is of the transport; an error reply is SQL_ERROR, a malformed reply or frame PROTOCOL |
| SessionRuns.FailedIsOverwritten | mysql/session.c:1738-1775 | a connection failure while COMMIT is being sent is reported as IO, and overwritten when the send completes |
| SessionRuns.FailedStays | mysql/session.c:1724-1872 | a failed session leaves that phase exactly on the completion of a send under way |
| SessionRuns.AckIsWindow | mysql/session.c:218-225 | in every reachable state the flags tested are the window between COMMIT's observed completion and its processed OK |
| SessionRuns.UnknownIsOverwritten | mysql/session.c:1494-1592 | in every run exactly two events overwrite a reported COMMIT_UNKNOWN, both with PROTOCOL: an unsolicited error already arriving that is bad, and the completion of a send not under way |
| SessionRuns.AcknowledgedIsReported | mysql/session.c:1810-1872 | after the OK of COMMIT the session is still reported done exactly if none of five callbacks follows, for any callbacks |
| SessionRuns.FinishTells | mysql/session.c:3077-3122 | what each outcome of COMMIT or ROLLBACK implies about what was sent, observed and acknowledged |
| SessionRuns.AbandonedNeverCommits | mysql/session.c:2692-2705 | whatever is called and whatever arrives after a cursor was aborted on a session that was not over, no COMMIT is ever sent |
| SessionCases.AbortPreventsCommit | mysql/session.c:2692-2707 | in every reachable state, after a cursor was aborted some run still sends a COMMIT if and only if the session had failed with a send under way in an active transaction |
| SessionCases.SurvivorIsReached | mysql/session.c:1841-1857 | a run that gets to that exception |
| SessionCases.ReadyIsReached | mysql/session.c:1044-1090 | a run that gets to a ready transaction |
| SessionCases.WindowIsReached | mysql/session.c:1760-1775 | a run that gets to the window, with the OK of COMMIT awaited |
| SessionCases.MalformedIsProtocol | mysql/session.c:1044-1090 | a run in which a malformed reply in the window is reported as PROTOCOL |
| SessionCases.FailedIsRevived | mysql/session.c:1738-1775 | a run in which a failed session is revived into the window by the completion of COMMIT's send |
| SessionCases.UnknownIsLost | mysql/session.c:1494-1592 | a run in which a reported COMMIT_UNKNOWN is replaced by PROTOCOL |
| SessionCases.AcknowledgedIsLost | mysql/session.c:1841-1857 | a run in which an acknowledged COMMIT is reported as IO |
| TransactionSessions.TransactionSession.RequestReceive | mysql/session.c:255-266 | a refused receive fails the session: with COMMIT_UNKNOWN exactly if COMMIT's completion was observed and its OK was not, else with IO |
| TransactionSessions.TransactionSession.SetTransportError | mysql/session.c:218-238 | the flags the code tests report COMMIT_UNKNOWN exactly if, in the history of the session, COMMIT's completion was observed and its OK was not processed |
| TransactionSessions.TransactionSession.OnSend | mysql/session.c:1724-1808 | after any completion, COMMIT's own was observed exactly if a COMMIT was taken; if this was it, the window opens and the reply is awaited; every reachable state is kept reachable |
| TransactionSessions.TransactionSession.HandleControlReply | mysql/session.c:1044-1090 | the window closes exactly on an OK; an error reply in it is SQL_ERROR, any other PROTOCOL, and no reply is ever COMMIT_UNKNOWN |
| TransactionSessions.TransactionSession.HandleMessage | mysql/session.c:1428-1475 | while COMMIT or ROLLBACK is awaited or over, a message acknowledges COMMIT exactly if it is the OK awaited in the window |
| TransactionSessions.TransactionSession.OnUnsolicited | mysql/session.c:1494-1617 | bytes that are no message: error 4031 in the window is COMMIT_UNKNOWN, a bad frame is PROTOCOL and the only one of them that can replace a reported COMMIT_UNKNOWN |
| TransactionSessions.TransactionSession.OnState | mysql/session.c:1810-1872 | in the window a failed connection is COMMIT_UNKNOWN, and so is a closed one unless the session had failed already; outside it neither ever is |
| TransactionSessions.TransactionSession.EndProgress | mysql/session.c:2014-2060 | a poll error, or the deadline of a session not over yet, is COMMIT_UNKNOWN exactly in the window; the session is over afterwards |
| TransactionSessions.TransactionSession.ProgressUntilDone | mysql/session.c:2014-2060 | for any callbacks in any polls, the loop ends with the session done or failed, in the state of the run it has seen |
| TransactionSessions.TransactionSession.Finish | mysql/session.c:3077-3122 | the whole call, for any callbacks, poll error and deadline: OK means one COMMIT, sent and acknowledged; COMMIT_UNKNOWN means its completion was observed and its OK was not; any other failure in that situation is SQL_ERROR or PROTOCOL; refused outside a ready transaction |
| TransactionSessions.TransactionSession.AbortCursor | mysql/session.c:2692-2705 | unless the session is over, the transaction is abandoned, so that it never commits |
| TransactionSessions.TransactionSession.DestroyCursor | mysql/session.c:2769-2792 | afterwards the transaction accepts calls exactly if it is active and the session ready |
| IoRuntimeRuns.StepKeeps | redis/redis_io.c:135-815 | every gated section and every move of the executor keeps the runtime invariant |
| IoRuntimeRuns.RunKeeps | redis/redis_io.c:135-815 | the invariant holds in every interleaving |
| IoRuntimeRuns.OneDriver | redis/redis_io.c:380-415 | in every interleaving a slot has at most one task queued or running, and a set flag has exactly one task queued, running or being posted, or one thread that has yet to report its refused post |
| IoRuntimeRuns.TasksOutliveNothing | redis/redis_io.c:597-620 | work in flight always belongs to the present attachment of its slot, so a task that begins finds it attached |
| IoRuntimeRuns.WakeupAnswered | redis/redis_io.c:387-427 | a set flag is cleared exactly by three moves that can be made: a drive that begins, a thread that gives up after a refused post, the cancellation of a queued task |
| IoRuntimeRuns.WakeupFate | redis/redis_io.c:380-427 | in every run from a set flag it stays set until a drive begins, or until a refused or cancelled post drops it, which leaves no work for the slot |
| IoRuntimeRuns.WakeupDecided | redis/redis_io.c:554-567 | a request that finds the refusal not yet reported is never answered by a drive; one that finds the driver taken by the executor is never dropped |
| IoRuntimeRuns.WakeupGivenUp | redis/redis_io.c:554-567 | a request told OK because the flag was set is dropped with a refused post |
| IoRuntimeRuns.RetiringIsUnused | redis/redis_io.c:216-246 | no owned operation is ever on a socket in the retiring set |
| IoRuntimeRuns.ForgottenIsGone | redis/redis_io.c:682-699 | a forgotten socket is no longer retiring |
| IoRuntimeRuns.IdleMeansQuiet | redis/redis_io.c:109-119 | when the idle check succeeds nothing is queued, running or about to be posted |
| IoRuntimeRuns.OneBridgeTask | redis/redis_io.c:153-176 | the bridge has at most one task in flight and, while up, one whenever its flag is set |
| IoRuntimeGate.Runtime.AttachPublisher | redis/redis_io.c:511-540 | takes the first free slot with a new generation, with no work of an earlier attachment left for it, or says why not |
| IoRuntimeGate.Runtime.SchedulePublisher | redis/redis_io.c:549-559 | accepted exactly for a matching handle of an open runtime; the caller must post exactly if no work is in flight for the slot, and exactly one piece is afterwards |
| IoRuntimeGate.Runtime.DriverBegin | redis/redis_io.c:387-394 | a task that begins always finds its slot attached, by the attachment it was posted for, clears the flag, and is the only work in flight |
| IoRuntimeGate.Runtime.DriverFinish | redis/redis_io.c:400-405 | the driver is posted again exactly if it was asked for meanwhile; otherwise no work is left for the slot |
| IoRuntimeGate.Runtime.DetachPublisher | redis/redis_io.c:601-619 | succeeds exactly for a matching handle with no work in flight and no operation, and then leaves none |
| IoRuntimeGate.Runtime.TakeOperation | redis/redis_io.c:227-246 | an operation is taken exactly by an attached free slot on a socket that is not retiring |
| IoRuntimeGate.Runtime.RetireSocket | redis/redis_io.c:706-729 | one pass decides: busy exactly if the socket is in use or retiring already, else the first free entry is taken and no operation is on the socket |
| IoRuntimeGate.Runtime.ForgetSocket | redis/redis_io.c:689-698 | clearing the first active entry of the socket leaves it in no entry |
| IoRuntimeGate.Runtime.IdleLocked | redis/redis_io.c:109-119 | true exactly if every flag and counter is clear, and then no task is queued, running or about to be posted |
| PoolRuns.StepKeeps | redis/redis_pool.c:247-505 | every call keeps the lease invariant |
| PoolRuns.RunKeeps | redis/redis_pool.c:247-505 | the invariant holds in every run |
| PoolRuns.LeasesConserved | redis/redis_pool.c:176-194 | in every run a slot is lent iff exactly one live stream has not given it back, references count live streams, admitted = completed + failed + held, cancelled <= failed |
| PoolRuns.OneHolder | redis/redis_pool.c:402-428 | no two live streams hold one slot |
| PoolRuns.FinishedIsHarmless | redis/redis_pool.c:465-481 | destroying a finished stream while its connection works for another command changes that slot only in its reference count, and the other command not at all |
| PoolRuns.ClosesOnlyIdle | redis/redis_pool.c:483-494 | closing starts only when no stream is live |
| PoolRuns.RepairIsUnobserved | redis/redis_pool.c:254-294 | connecting or repairing never touches a slot that a live stream refers to |
| PoolRuns.ReleaseConserves | redis/redis_pool.c:176-194 | giving a slot back conserves completed + failed + held and the agreement of slot and streams |
| PoolRuns.EndConserves | redis/redis_cflow.c:164-189 | a connection that gives a command up works for nobody, or still for another command |
| PoolCommands.NextIsAnswer | redis/redis_cflow.c:454-598 | every call on a command stream is one of the four answers the pool reckons with: it ends and spends the connection exactly when the command does, and takes for an end or a failure exactly what the caller is handed as one |
| PoolCommands.CancelIsAnswer | redis/redis_cflow.c:600-617 | the same for cancelling; with nothing in flight it always succeeds |
| ConnectionPools.ConnectionPool.CommandOpen | redis/redis_pool.c:390-430 | the first idle slot is lent, or the rejection counted |
| ConnectionPools.ConnectionPool.ReleaseStream | redis/redis_pool.c:176-194 | the command is booked as completed or failed once, completed + failed + held is conserved, the slot still agrees with the streams on it, and goes back to be lent only if usable in a ready pool |
| ConnectionPools.ConnectionPool.ReleaseActive | redis/redis_cflow.c:164-189 | afterwards no connection works for the stream; one that worked for another command still does, and its slot still agrees with the streams on it |
| ConnectionPools.ConnectionPool.CancelCommand | redis/redis_cflow.c:600-617 | cancelling ends the command unless its operation cannot be stopped |
| ConnectionPools.ConnectionPool.StreamNext | redis/redis_pool.c:432-449 | the slot is given back exactly at the first end or error the caller is handed; no other slot and no other stream is touched, and the books balance |
| ConnectionPools.ConnectionPool.StreamCancel | redis/redis_pool.c:451-463 | OK exactly when the stream is over, always if the operation in flight can be stopped; no other slot or stream is touched, and the books balance |
| ConnectionPools.ConnectionPool.DropHandle | redis/redis_pool.c:475-480 | the handle goes and its slot has one reference less |
| ConnectionPools.ConnectionPool.StreamDestroy | redis/redis_pool.c:465-481 | OK exactly when the handle is gone, with exactly one reference; no other slot or stream is touched |
| ConnectionPools.ConnectionPool.BeginClose | redis/redis_pool.c:483-494 | refused exactly while a slot is lent or referred to; once closing, no stream is live |
| CommandOutcome.NextTells | redis/redis_cflow.c:454-598 | acceptance is never forgotten, an error says "not sent" exactly when no send was accepted, items and ends come only after the whole command went out |
| CommandOutcome.TakeIoKeeps | redis/redis_cflow.c:473-502 | finishing the operation in flight keeps the stream consistent and never changes what is known of acceptance; if it returns to the caller, the send was accepted and no reply read |
| CommandOutcome.ReplyThenEnd | redis/redis_cflow.c:524-531 | after the reply was delivered the next call ends the stream |
| CommandOutcome.NextLeaves | redis/redis_cflow.c:454-598 | what a call can leave behind: an error that does not end the stream is a wait that could not be set up |
| CommandOutcome.ActKeeps | redis/redis_lua_apply_batch.c:801-860 | every call keeps what the reports rely on |
| CommandOutcome.ReportsAreHonest | redis/redis_lua_apply_batch.c:801-860 | over every run STEP_ERROR is reported only if no send was ever accepted, every later failure as COMMIT_UNKNOWN, a receipt only after a whole reply, and the first report is final |
| CommandOutcome.OpenedIsHonest | redis/redis_lua_apply_batch.c:801-860 | for a new operation the final report is STEP_ERROR exactly if no send was accepted |
| CommandStreams.CommandStream.TakeIo | redis/redis_cflow.c:473-502 | either nothing is in flight any more, or the call returns and the command was accepted and no reply read; acceptance never changes and the offset never decreases |
| CommandStreams.CommandStream.Receive | redis/redis_cflow.c:519-597 | an item is a reply just read, the end comes exactly after one, the whole command is out, and nothing says "not sent" |
| CommandStreams.CommandStream.Next | redis/redis_cflow.c:454-598 | for every answer of the I/O flow and the reader: acceptance is never forgotten, an error says "not sent" exactly if no send was accepted, items and ends follow a whole command, an ended stream repeats its end |
| CommandStreams.CommandStream.Cancel | redis/redis_cflow.c:600-617 | over unless the operation in flight cannot be stopped; a connection that still worked for it is spent either way |
| CommandStreams.BatchOperation.Next | redis/redis_lua_apply_batch.c:801-860 | STEP_ERROR exactly if the operation is over and no send was ever accepted, COMMIT_UNKNOWN only if one was, a receipt only after the whole command and a whole reply; the first report is final |
| Crc.ShiftDivides | redis/redis_cluster.c:77-84 | the reference register takes one step of division by the polynomial 0x1021 for each bit |
| Crc.OneByte | redis/redis_cluster.c:77-84 | eight shifts move the low byte up and combine the high byte with the data byte |
| Crc.Lookup | redis/redis_cluster.c:53-75 | each of the 256 table entries is what its index does to an empty register in eight shifts |
| Crc.TableStep | redis/redis_cluster.c:81-82 | one table step equals eight shifts of the register |
| Crc.Crc16 | redis/redis_cluster.c:77-84 | the table-driven loop computes the bit-by-bit CRC on every byte string |
| KeySlots.TagIsUnique | redis/redis_cluster.c:90-97 | a key has at most one hash tag |
| KeySlots.ScanTag | redis/redis_lua_apply_batch.c:386-397 | the scan finds the tag exactly if there is one |
| KeySlots.KeySlot | redis/redis_cluster.c:86-99 | the slot is the low fourteen bits of the CRC of the tag, or of the whole key if there is none |
| KeySlots.SlotIsUnique | redis/redis_cluster.c:86-99 | a key is in at most one slot |
| KeySlots.CheckKeys | redis/redis_lua_apply_batch.c:415-437 | keys are accepted exactly when all four have one and the same tag |
| KeySlots.BatchInOneSlot | redis/redis_lua_apply_batch.c:415-437 | all four keys of an accepted request are in one slot |
| ClusterSlots.Topology.FindOrAddNode | redis/redis_cluster.c:153-187 | one node for each host and port; full exactly when the endpoints are more than there is room for |
| ClusterSlots.Topology.Mark | redis/redis_cluster.c:229-232 | marks the slots of a range, or finds another range that claims one of them for another endpoint |
| ClusterSlots.Topology.AddRange | redis/redis_cluster.c:223-232 | a range is added to the filled table, or clashes with an earlier one; full exactly when its endpoint is one too many |
| ClusterSlots.Topology.ReadRanges | redis/redis_cluster.c:193-233 | the loop stops at the first range that is unsound, clashes or does not fit, with the status that says which |
| ClusterSlots.Topology.AllServed | redis/redis_cluster.c:234-237 | for ranges without a clash, no slot is left without a node exactly if they partition the slots |
| ClusterSlots.FilledIsPartition | redis/redis_cluster.c:234-238 | a filled table with no gap means that the ranges cover every slot without a clash |
| ClusterSlots.Topology.ParseSlots | redis/redis_cluster.c:189-238 | the longest run of ranges that are sound, do not clash and fit is read; OK exactly if that is all of them and they partition the 16384 slots, and then each slot has the node of every range that covers it; full exactly if the next range is sound and one endpoint too many, before any clash; else a protocol error |

## Left out

- The array-streaming reader over RESP items (`redis_resp_array_reader_next_buffer`): a loop over the modelled reply reader; the command stream is modelled for single replies only.
- Growth and compaction of the RESP byte buffer, and memory exhaustion anywhere: allocation succeeds, only the byte budget is kept.
- JournalScripts.Keys.Apply: the types of the journal, identity and outbox keys are one flag, as every script that looks at one of them looks at all.
- JournalScripts.Keys.Represented: relies on what Redis keeps of every stream: ids increase and none is above the last one generated.
- JournalRuns.StepSafe: trimming of the outbox by its consumer is a step that stays at or below the commit marker.
- Decimal.CompareIsOrder: Lua compares texts by locale; the byte order of the C locale is modelled.
- The argument checks of compaction requests on the client (`redis_lua_apply_batch_compact_validate`): they repeat the modelled key checks with a few comparisons of numbers.
- Rejection of managed transaction statements and keyword scanning in `mysql/parameters.c`: not part of this model.
- MySQL handshake, authentication, probe, text-query and script actions: one opaque phase.
- Decoding of MySQL result, row and statement packets: messages are classified by the environment; metadata counts become a last-one flag.
- TransactionSessions.TransactionSession.Finish: finishing a transaction is modelled in place, with every callback; the handlers of prepared statements and cursors are functions in `Session`.
- SessionRuns.StepKeeps: callbacks carry the session's own connection handle, and a destroyed cursor is not used again.
- SessionRuns.UnknownIsOverwritten: send callbacks of size 0 and receive views that are no bytes are not modelled; the guards of the callbacks report IO for them in any state.
- SessionCases.AbortPreventsCommit: callbacks may come at any time; in the code nothing polls between the abort of a cursor and its destruction, so the exception needs a caller that does.
- JournalScripts.Keys.Compact: Lua refuses to unpack some thousands of fields, which raises an error before the first write while compact-reconcile says PENDING; the client's limit of 1024 records stays below that.
- The acknowledgement hand-over between the bridge and the slots' actors: only the flag it sets is modelled.
- IoRuntimeRuns.StepKeeps: taking the bridge down is a single step that needs the runtime to be in destruction; the waits before it are not modelled.
- PoolRuns.StepKeeps: AUTH, SELECT and READONLY during preparation are one state that waits, fails or succeeds.
- ConnectionPools.ConnectionPool.ReleaseStream: the destruction of a slot released while the pool is closing is left out, because no stream is live then (`PoolRuns.ClosesOnlyIdle`).
- ClusterSlots.Topology.FindOrAddNode: node ids are checked for form and not kept.
- Cluster connection phases, redirections and sentinel discovery: sequencing over the modelled parts.
- The single-record apply script: subsumed by the batch scripts.
