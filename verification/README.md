# Revlm gateway: verified model

Revlm is a gateway in front of language-model providers. Clients call it with a token; it picks a
channel of the token's channel group, forwards the request, streams the answer back, and charges
the user for the tokens used. This project models the parts of that path where a wrong step loses
bytes or money, and proves them with Dafny 4.11 (`dafny verify dfyconfig.toml`).

**Streams.** A worker thread queues upstream bytes; the route's thread reads them in pieces,
forwards them through a flush buffer, and feeds a line-by-line event reader whose events decide
whether the stream is billed.

- `SseReader` is the reader as a class, proved against a batch parser that sees all bytes at once,
  for every way of cutting the stream; `SseRoundTrip` is what a server writes, read back.
- `StreamBridge` is the queue: its operations as a class, and every interleaving of worker and
  reader steps.
- `StreamPump` is `pump_gateway_stream`: what the client receives and which events are handled.
- `StreamBilling` compares a run whose client may drop at any write with one whose client stays.
- `StreamPipeline` puts bridge and pump together: what is billed under every thread schedule.

**Data.** `Database` has the tables and each store operation as one transaction on values; `Store`
is the code as a class that updates the tables in place, each method proved equal to its operation.

- `UsageLog`: what a commit stores, and `request_totals` as an aggregate of `requests`.
- `TokenRules`: which raw tokens resolve, and what a deletion takes along.
- `Ledger`: what a request costs, balances against credits and debits, charged cost against recorded cost.
- `SystemRuns`: all of it at once in every reachable state, with requests anywhere between their
  debit and their record.
- `TransactionScopes`: nested `ScopedTransaction`s, and why an operation that calls others is atomic.
- `ProxyRoute`: one request without streaming, from balance gate to commit, on each route.

**Scheduling and paging.** `Failover` proves the three rotation loops against one schedule;
`EventPaging` the cursor walk over the request log.

**Codecs and arithmetic.** `BcryptSalt`, `Base64Url` (sections 4 and 5 of RFC 4648), `Decimals`,
`AddressPrefixes`, `RequestHeaders`, `DailyBuckets`, `UsageAggregates`; `Text` and `Bits` have what they share.

## How it is modelled

Bytes are characters. Money is `real`; where the code prints a balance with six decimals the model
rounds to the nearest millionth, ties to even. JSON parsing, `finalize`, the token hash, poll, read
and write outcomes, the current time and the order of rows a query leaves open are parameters, so
every statement holds for all of them. A mutex-guarded section is one atomic step, and so is a
database transaction.

Where the code does less than a reader may expect, the code is kept, the condition under which it
does what is expected is proved in both directions, and a further lemma shows an input or a run that
fails:

- A transfer that fails with bytes still queued reads as a clean end; it is reported only if the
  reader was asleep on an empty queue at that moment (`FailureReportedExactly`,
  `FailureReadAsEnd`). So a failed transfer can be billed in full (`BilledExactly`,
  `FailedTransferIsBilled`).
- A client that drops can change whether the stream is billed, because the pump then stops early
  (`DisconnectBilling`, `BilledToDropped`, `DroppedClientIsBilled`).
- The responses route bills a stream of its own for usage alone, also when it breaks off
  (`HandleBillsOnUsage`, `BrokenStreamBilled`).
- The data rule differs from section 9.2.6 of the WHATWG HTML standard when the first of several
  data lines is empty (`JoinDiffersExactly`, `FirstValueEmpty`).
- `commit` reports a duplicate request id as success without a row, so money is conserved only for
  new ids (`RecordConserves`, `DuplicateIdUnrecorded`).
- A total is filed under a date that `commit_proxy_usage` cuts from the raw time; it is the day of the
  stored row exactly when `DateAgrees` (`FileRow`, `ProxyDateAgrees`,
  `ShortTimeMisfiled`; `make_request` always forms a long enough time).
- `update_user` writes back a balance read earlier; a debit in between is lost (`WriteBackDrift`,
  `LostDebit`).
- `docs/proxy-request-unified-design.md:212-220` promises that `compute_usd` returns 0 for a
  multiplier that is not positive; the code has no such guard (`GuardKeptExactly`,
  `NegativeMultiplier`; `CostSignExactly` and `ChargeConserves` say what a negative cost does).
- Lines 256-260 of the same document promise that `/v1/responses/input_tokens` never logs a row. It
  logs one exactly when the first channel asked fails, because the answer of the next does not
  overwrite what the failure left (`CountingLogsExactly`, `CountingLogsARow`).
- A deleted channel's requests stay in the overview of the channel page and in none of its channels
  (`ChannelsAddUpToOverview`, `DeletedChannelMissing`).
- The admin page backward from a cursor reverses before it truncates, and so drops the event next to
  the cursor whenever there are more events than fit (`AdminPageAfter`, `DropsNearest`).
- A trusted proxy whose network does not parse becomes network 0 under mask 0 and trusts every
  address (`TrustsExactly`, `IllFormedTrustsAll`).
- `normalize_decimal` accepts `.` and `+.` as zero: its check for a missing digit comes after an
  empty integer part was replaced by `0` (`AcceptsExactly`, `BarePoint`).
- `docs/reference/channel-groups-rewrite.md:203` makes the order of a group's members meaningful, but
  the member table is mapped as unordered (`backend/include/channels/channel_groups.hpp:40`). Whether
  a request is served does not depend on the order, only by which channel
  (`ServedWhateverOrder`, `OrderDecidesWhom`).

## Model

| member | source | states |
|---|---|---|
| Text.TrimAscii | backend/src/util/strings.cpp:8-19 | the two index scans give `Trim` |
| Text.TrimCharacterised | backend/src/util/strings.cpp:8-19 | what trimming means: the core between two stretches of space |
| Text.TrimExactly | backend/src/util/strings.cpp:8-19 | trimming gives a text exactly if only the six space characters stand around it |
| Text.FindAt | backend/src/proxy/gateway.cpp:502-502 | the search finds the first occurrence |
| SseReader.SplitOnIsCut | backend/src/proxy/gateway.cpp:446-455 | cutting at a separator gives pieces without it that spell the input |
| SseReader.CutUnique | backend/src/proxy/gateway.cpp:446-455 | there is only one such cut, so the batch grammar leaves no choice |
| SseReader.ByteStep | backend/src/proxy/gateway.cpp:446-460 | how one more byte changes lines and blocks; CR changes nothing anywhere |
| SseReader.AcceptsPrefix | backend/src/proxy/gateway.cpp:441-463 | a prefix of a good stream is good and has a prefix of its events |
| SseReader.RejectedForever | backend/src/proxy/gateway.cpp:443-445 | a stream once rejected stays rejected and adds no event |
| SseReader.GoodPrefixLongest | backend/src/proxy/gateway.cpp:457-460 | the accepted prefixes of any byte string are exactly the prefixes of one of them |
| SseReader.EmittedMonotone | backend/src/proxy/gateway.cpp:441-463 | whatever the verdict, more bytes only append events |
| SseReader.DataStep | backend/src/proxy/gateway.cpp:513-518 | a data line appends its value, after a newline only if there is data already; other lines append nothing |
| SseReader.DataValueExactly | backend/src/proxy/gateway.cpp:502-513 | which lines give data, and what value: `data`, `data:` and the value, or `data: ` and the value |
| SseReader.DoneExactly | backend/src/proxy/gateway.cpp:484-487 | an event is the end mark exactly if its data is `[DONE]` with nothing but space around it |
| SseReader.DataWithinBlock | backend/src/proxy/gateway.cpp:494-498 | the data of a block is no longer than the block's counted bytes |
| SseReader.JoinDiffersExactly | backend/src/proxy/gateway.cpp:513-518 | the data rule equals joining all values with LF if and only if there is at most one value or the first is not empty |
| SseReader.FirstValueEmpty | backend/src/proxy/gateway.cpp:513-518 | the two rules on an empty value followed by `a` |
| SseReader.LineFeedAccepts | backend/src/proxy/gateway.cpp:494-498 | a line feed is accepted exactly when the line is blank or the block stays within 256 KiB |
| SseReader.OtherByte | backend/src/proxy/gateway.cpp:456-460 | any other byte completes no event and is accepted exactly for CR or while the line is below 64 KiB |
| SseReader.SseReader.constructor | backend/src/proxy/gateway.cpp:522-526 | a new reader stands for the empty stream |
| SseReader.SseReader.BufferBounds | backend/src/proxy/gateway.cpp:429-430 | while ok, the line buffer is at most 64 KiB and the data buffer at most 256 KiB, however long the stream |
| SseReader.SseReader.PushLine | backend/src/proxy/gateway.cpp:479-520 | one line feed: verdict, fields and the event emitted are those of the batch grammar |
| SseReader.SseReader.Consume | backend/src/proxy/gateway.cpp:441-463 | any chunk: the verdict is the batch verdict on all bytes so far, and the events appended are the ones the batch parser adds |
| SseReader.SseReader.Finish | backend/src/proxy/gateway.cpp:465-476 | the end drops an unfinished line or block without an event and keeps the verdict |
| SseReader.ReadAll | backend/src/proxy/gateway.cpp:439-527 | chunk independence: every way of cutting a stream gives the events and the verdict of the batch parser, and the end marks are those above |
| SseRoundTrip.WrittenIsRead | backend/src/proxy/gateway.cpp:439-527 | messages written as events, one `data` line per line, are read back as as many events, each with its message up to leading line feeds |
| SseRoundTrip.RoundTrip | backend/src/proxy/gateway.cpp:513-518 | a message comes back unchanged if and only if it does not start with a line feed |
| StreamBridge.PopKeepsQueue | backend/src/proxy/upstream.cpp:493-497 | dropping consumed chunks loses no byte |
| StreamBridge.AttemptMoves | backend/src/proxy/upstream.cpp:493-509 | a pass hands out a prefix of the queue of at most the asked size, less only at the end of a chunk; it waits exactly if nothing is queued and the worker runs, and returns 0 for a positive size exactly if nothing is queued and the worker is done |
| StreamBridge.StreamBridgeState.Receive | backend/src/proxy/upstream.cpp:563-571 | the receiver appends one non-empty chunk |
| StreamBridge.StreamBridgeState.FinishWorker | backend/src/proxy/upstream.cpp:573-591 | the last step records a failure, or queues a body not delivered in chunks, and sets done |
| StreamBridge.StreamBridgeState.Read | backend/src/proxy/upstream.cpp:489-509 | a read from lock to return or sleep is one pass |
| StreamBridge.StreamBridgeState.Resume | backend/src/proxy/upstream.cpp:510-514 | after a sleep the error test comes first, then another pass |
| StreamBridge.StepKeepsInv | backend/src/proxy/upstream.cpp:458-515 | every step of worker or reader keeps the invariant |
| StreamBridge.RunKeepsInv | backend/src/proxy/upstream.cpp:458-515 | so does every interleaving |
| StreamBridge.ReceivedIsSent | backend/src/proxy/upstream.cpp:563-591 | in every run what is received is the data of the pushes in order, then the body of a good end exactly if everything so far was handed out and the reader is asleep, or nothing came before |
| StreamBridge.StarvedExactly | backend/src/proxy/upstream.cpp:503-514 | the deque is empty under a sleeping reader at a failure exactly if every byte pushed was handed out |
| StreamBridge.Fifo | backend/src/proxy/upstream.cpp:489-515 | under every interleaving bytes delivered followed by bytes queued are the bytes the worker sent, in order |
| StreamBridge.EndOfStreamIsReal | backend/src/proxy/upstream.cpp:507-513 | 0 or -1 for a positive size is seen only after the worker is done and every byte it sent was delivered |
| StreamBridge.FailureReportedExactly | backend/src/proxy/upstream.cpp:510-513 | between reads, -1 has been returned if and only if the reader was asleep with nothing left to hand out when the worker failed |
| StreamBridge.FailureReadAsEnd | backend/src/proxy/upstream.cpp:493-513 | a run in which a failed transfer reads as a clean end, for any data that fits the buffer |
| StreamBridge.DrainsAfterDone | backend/src/proxy/upstream.cpp:493-509 | once the worker is done no read blocks, and as many reads as bytes queued deliver everything, whatever their sizes |
| StreamPump.HandleAllMeaning | backend/src/proxy/gateway.cpp:593-622 | the answer is complete exactly with an end mark, a `message_stop` or a `response.completed`; usage is seen exactly with an event that carries it |
| StreamPump.HandleAllRecords | backend/src/proxy/gateway.cpp:615-621 | the billing record is `finalize` applied to every document that carries usage, in order, and the model is the last one named |
| StreamPump.HandleAllAppend | backend/src/proxy/gateway.cpp:1284-1286 | handling events in two lots is handling them in one |
| StreamPump.GatewayStreamPump.HandleSseEvent | backend/src/proxy/gateway.cpp:593-622 | one event's effect on flags, model and billing record |
| StreamPump.GatewayStreamPump.IngestBytes | backend/src/proxy/gateway.cpp:1267-1288 | one chunk: counted, buffered or flushed, parsed; a rejected chunk's events are dropped |
| StreamPump.GatewayStreamPump.ForwardBytes | backend/src/proxy/gateway.cpp:1268-1277 | the flush at 1024 bytes and the end of forwarding after a failed write |
| StreamPump.GatewayStreamPump.HandleEvents | backend/src/proxy/gateway.cpp:1283-1286 | the loop over the events of a chunk |
| StreamPump.GatewayStreamPump.ReadLoop | backend/src/proxy/gateway.cpp:1297-1333 | the poll and read loop refines the recursive description, break by break |
| StreamPump.GatewayStreamPump.Run | backend/src/proxy/gateway.cpp:1254-1343 | the whole pump refines the description the theorems below are about |
| StreamPump.LoopForwards | backend/src/proxy/gateway.cpp:1297-1333 | where the loop stops and why; the forwarding invariant on the way |
| StreamPump.ExactForwarding | backend/src/proxy/gateway.cpp:1267-1342 | the writes in order are a prefix of what was read, all of it if none fails, also on overflow or upstream error; all but the last have at least 1024 bytes; no write follows a failed one; `response_bytes` counts every byte |
| StreamPump.LoopHandles | backend/src/proxy/gateway.cpp:1279-1286 | the loop handles the events of the accepted bytes, in order |
| StreamPump.HandledIsBatch | backend/src/proxy/gateway.cpp:1254-1343 | the events handled in a whole stream are the batch parser's on its accepted part, which is all of it unless the reader rejects a chunk; so are record and model |
| StreamBilling.Simulation | backend/src/proxy/gateway.cpp:1296-1333 | a run with a dropping client and one without stay in step until the early stop; otherwise only an unrecorded timeout tells them apart |
| StreamBilling.TailOutcome | backend/src/proxy/gateway.cpp:1296-1337 | with a client, the rest of a stream leaves no error and no timeout if and only if it ends cleanly within the limits |
| StreamBilling.AfterEarlyStop | backend/src/proxy/gateway.cpp:1330-1332 | what the turns left unread would have decided |
| StreamBilling.DisconnectHandles | backend/src/proxy/gateway.cpp:1296-1333 | with a client that may drop the events of the accepted part are handled, without one these and then the events of a longer accepted part; the first run reaches the first completion, and the records agree as soon as no later event carries usage |
| StreamBilling.NoLateStop | backend/src/proxy/gateway.cpp:1330-1332 | a loop that has read a chunk and did not stop early leaves no dropped client with a complete answer |
| StreamBilling.DisconnectBilling | backend/src/proxy/gateway.cpp:1296-1333 | exactly when a client that may drop changes whether a stream is billed: by what is left unread after an early stop, and otherwise only for an initial body that drops the client and completes with usage before a timeout |
| StreamBilling.ConnectedOutcome | backend/src/proxy/gateway.cpp:775-793 | with a client that stays, errors are flagged exactly for streams that do not end cleanly, and otherwise the batch events are handled |
| StreamBilling.FlagsSayHowItEnded | backend/src/proxy/gateway.cpp:1297-1323 | which flag is set: timeout or error, by the first round that brought no bytes |
| StreamBilling.CutsInvisible | backend/src/proxy/gateway.cpp:1254-1343 | the same bytes cut differently are billed alike with the same record |
| StreamBilling.HandleBillsOnUsage | backend/src/proxy/gateway.cpp:972-979 | the responses route bills a stream for usage alone; exactly when that differs from the rule of the other routes |
| StreamBilling.HandleDropDiffers | backend/src/proxy/gateway.cpp:972-979 | for a client that may drop that rule differs from the one for a client that stays if and only if the first usage comes after the pump has given up |
| StreamBilling.BrokenStreamBilled | backend/src/proxy/gateway.cpp:972-979 | a stream that breaks off after its usage is billed there and not on the other routes |
| StreamBilling.DroppedClientIsBilled | backend/src/proxy/gateway.cpp:1299-1306 | a concrete stream billed only because its client dropped |
| StreamPipeline.StepSeen | backend/src/proxy/upstream.cpp:489-515 | one step of a pump reading the bridge: what is returned is what is delivered |
| StreamPipeline.ObservedIsDelivered | backend/src/proxy/upstream.cpp:614-615 | under every schedule the chunks the pump ingests are the bytes delivered, and they end with the worker's error only as the reader saw it |
| StreamPipeline.BilledExactly | backend/src/proxy/gateway.cpp:1375-1378 | under every schedule, a stream is billed if and only if the bytes the worker sent are within the limits, complete and carry usage, and the reader was not starved by a failure; the record is `finalize` over their usage documents |
| StreamPipeline.ScheduleInvisible | backend/src/proxy/gateway.cpp:775-793 | two schedules of the same bytes bill alike if and only if both or neither starve the reader, or the answer is not billable |
| StreamPipeline.FailureFlags | backend/src/proxy/upstream.cpp:510-514 | a failed transfer is flagged only to a starved reader, as a timeout or an error by what `errno` holds |
| StreamPipeline.BilledToDropped | backend/src/proxy/gateway.cpp:1330-1337 | the same for a client that may drop, under every schedule: a run that gives up early is billed if and only if what was delivered until then carries usage, any other as if the client had stayed |
| StreamPipeline.HandleBilledToDropped | backend/src/proxy/gateway.cpp:972-979 | what the responses route bills any client, under every schedule: usage in the accepted part of what was delivered |
| StreamPipeline.FailedTransferIsBilled | backend/src/proxy/upstream.cpp:573-591 | a schedule in which a failed transfer is billed |
| UsageLog.FileRow | backend/src/request/request.cpp:198-242 | filing a row keeps the totals equal to the aggregates of the log, and present exactly for keys with rows, if and only if the row's date is the day of its time |
| UsageLog.CommitStores | backend/src/request/request.cpp:29-57 | a new row is the request itself with the first time given that is not blank, and its day; the total of that day grows by its own counts and no other total moves |
| UsageLog.CommitKeepsLog | backend/src/request/request.cpp:29-57 | a bad or duplicate id changes nothing; otherwise the log stays consistent if and only if the date filed under is the day of the stored time |
| UsageLog.ProxyDateAgrees | backend/src/proxy/gateway.cpp:169-170 | the date cut from the raw time agrees unless the time is present but too short |
| UsageLog.ShortTimeMisfiled | backend/src/proxy/gateway.cpp:169-170 | a time that is only a year breaks the agreement of totals and log |
| UsageLog.DropTokensKeepsLog | backend/src/users/users.cpp:137-139 | deleting tokens with their rows and totals keeps the invariant |
| UsageLog.DeleteTokenKeepsLog | backend/src/users/tokens.cpp:195-213 | so does deleting one |
| UsageLog.DeleteUserKeepsLog | backend/src/users/users.cpp:129-147 | so does deleting a user |
| UsageLog.TotalColumns | backend/src/request/request.cpp:203-206 | the `tokens` column of every total is the sum of its four token columns, and its count is positive |
| TokenRules.DeleteUserLeavesNothing | backend/src/users/users.cpp:129-147 | no token, session, row or total of a deleted user remains |
| TokenRules.DeleteUserExactly | backend/src/users/users.cpp:129-147 | what goes with a user, and that all the rest stays as it was |
| TokenRules.DeleteTokenExactly | backend/src/users/tokens.cpp:195-213 | what goes with a token, and that all the rest stays as it was |
| TokenRules.ResolvesExactly | backend/src/users/tokens.cpp:215-238 | a raw token resolves exactly when it is the revealable plaintext of an active token of an active user with a bound group, and to that token; the group exists and is enabled |
| TokenRules.IssuedTokenResolves | backend/src/users/tokens.cpp:86-264 | an issued token is revealed and resolves to nothing; once bound it resolves to itself and its group, exactly while its user is active |
| TokenRules.GoesOutOfUse | backend/src/users/tokens.cpp:161-213 | rotation, revocation, deletion and deletion of the user leave no active token with the old plaintext, deletion of the group leaves it unbound; a rotation reveals the new plaintext |
| Ledger.RoundMicrosNear | backend/src/users/users.cpp:186-189 | the stored balance is a whole number of millionths within half of one of the exact difference |
| Ledger.FreeDebitExactly | backend/src/users/users.cpp:186-189 | exactly which positive charges leave the balance as it was |
| Ledger.DebitKeepsBalance | backend/src/users/users.cpp:166-195 | a debit is refused exactly when the balance is short, leaves no trace then, and otherwise moves balance and books together within half a millionth |
| Ledger.WriteBackDrift | backend/src/users/user_admin_api.cpp:191-197 | a credit from a stale read moves the books away from the balance by exactly what happened in between |
| Ledger.LostDebit | backend/src/users/user_admin_api.cpp:191-197 | a debit between the read and the write of a credit is lost entirely |
| Ledger.WriteBackKeepsBalance | backend/src/users/user_admin_api.cpp:189-200 | a credit from a fresh read keeps the books |
| Ledger.SumUsdSplit | backend/src/users/tokens.cpp:207-210 | deleted rows take exactly their cost with them |
| Ledger.ChargeConserves | backend/src/proxy/gateway.cpp:164-166 | taking the money keeps charged equal to recorded plus unrecorded if and only if the cost is not negative |
| Ledger.RecordConserves | backend/src/proxy/gateway.cpp:167-196 | recording keeps it if and only if the id is new or the cost is zero |
| Ledger.DuplicateIdUnrecorded | backend/src/request/request.cpp:36-41 | two charged requests with one id: the second record reports success and its cost is nowhere |
| Ledger.CostSignExactly | backend/include/request/proxy_request.hpp:81-89 | for a non-negative price the cost is not negative if and only if the price is zero or the multipliers have one sign |
| Ledger.GuardKeptExactly | backend/include/request/proxy_request.hpp:81-89 | the cost is the documented one, nothing for a multiplier that is not positive, exactly for positive multipliers and where a factor is zero anyway |
| Ledger.NoUsageNoCost | backend/include/request/proxy_request.hpp:81-89 | no tokens, no cost |
| Ledger.UsageRaisesCost | backend/include/request/proxy_request.hpp:81-89 | what one more token of each kind costs: its own price per million times both multipliers |
| Ledger.CostExample | backend/tests/models/quota_test.cpp:21-41 | the documented example costs 3.88125 |
| Store.Store.CreateUser | backend/src/users/users.cpp:60-66 | the given user under a new id |
| Store.Store.UpdateUser | backend/src/users/users.cpp:110-127 | every column of the stored row is replaced, a missing row reported |
| Store.Store.DebitUserBalance | backend/src/users/users.cpp:166-195 | the debit in place is the operation the ledger results are about |
| Store.Store.DeleteUser | backend/src/users/users.cpp:129-147 | the loop over the user's tokens and the deletions of rows, totals, sessions and user remove exactly what the cascade says |
| Store.Store.CreateSession | backend/src/auth/session.cpp:217-230 | the session is stored under its hash, which must be free |
| Store.Store.DeleteSessionByTokenHash | backend/src/auth/session.cpp:255-263 | that session and no other goes |
| Store.Store.ListUserTokens | backend/src/users/tokens.cpp:108-127 | the user's tokens, each once, newest first |
| Store.Store.CreateUserToken | backend/src/users/tokens.cpp:86-106 | an active, unbound token with name, hash and plaintext under a new id, or a refusal |
| Store.Store.RevealUserToken | backend/src/users/tokens.cpp:145-159 | the plaintext of an active token, to its owner only |
| Store.Store.RotateUserToken | backend/src/users/tokens.cpp:161-182 | hash, plaintext and status are replaced together |
| Store.Store.RevokeUserToken | backend/src/users/tokens.cpp:184-193 | an active token of the user loses status and plaintext |
| Store.Store.DeleteUserToken | backend/src/users/tokens.cpp:195-213 | the token goes with its requests and totals, and nothing else |
| Store.Store.ResolveRawToken | backend/src/users/tokens.cpp:215-238 | the answer is one the query allows |
| Store.Store.SetTokenChannelGroup | backend/src/users/tokens.cpp:240-264 | the binding changes only for an owned token and an enabled group |
| Store.Store.CreateChannelGroup | backend/src/channels/channel_groups.cpp:116-128 | the given group under a new id |
| Store.Store.UpdateChannelGroup | backend/src/channels/channel_groups.cpp:130-144 | name, description and multiplier are replaced, the status kept |
| Store.Store.DeleteChannelGroup | backend/src/channels/channel_groups.cpp:146-157 | the group goes and its tokens are unbound |
| Store.Store.ApplyTotal | backend/src/request/request.cpp:198-242 | update and insert branch both accumulate the clamped counts |
| Store.Store.CommitRequest | backend/src/request/request.cpp:29-57 | refusals, duplicate, time and date fallbacks, row and total |
| Store.Store.CommitProxyUsage | backend/src/proxy/gateway.cpp:154-197 | two transactions: the debit, then the record |
| SystemRuns.StepKeepsSystem | backend/src/users/tokens.cpp:86-264 | every operation on users, tokens, groups, sessions and requests keeps the token rules, totals, balances and money in order at once |
| SystemRuns.CommitUsageIsPayThenRecord | backend/src/proxy/gateway.cpp:164-196 | an uninterrupted commit is the payment step followed by the record step; a refused payment leaves nothing to record |
| SystemRuns.RunKeepsSystem | backend/src/proxy/gateway.cpp:154-197 | so does every run, with any number of requests paid for and not yet recorded |
| SystemRuns.Reachable | backend/src/request/request.cpp:198-242 | in every reachable state totals are aggregates of the log, balances are non-negative and within half a millionth per debit of the books, charged cost equals recorded plus erased plus unrecorded, and the token invariant holds |
| SystemRuns.StaysOutOfUse | backend/src/users/tokens.cpp:86-264 | no operation brings a raw token back that does not issue it |
| SystemRuns.RetiredForever | backend/src/users/tokens.cpp:161-238 | after rotation, revocation, deletion or deletion of its user a raw token never resolves again, in any run that does not issue it anew |
| SystemRuns.UnboundResolvesNothing | backend/src/channels/channel_groups.cpp:146-157 | after deletion of its group it does not resolve in any run that neither binds nor issues it anew |
| TransactionScopes.ScopedTransaction.constructor | backend/include/store/database.hpp:37-42 | a scope opens a transaction only if there is none |
| TransactionScopes.ScopedTransaction.Commit | backend/include/store/database.hpp:47-53 | only the scope that opened it commits it |
| TransactionScopes.ScopedTransaction.Close | backend/include/store/database.hpp:55-56 | an owned transaction still open is rolled back |
| TransactionScopes.Execute | backend/include/store/database.hpp:35-57 | for every nesting of scopes, each outermost one is all or nothing and inside a transaction nothing is durable yet |
| TransactionScopes.NestingIsSafe | backend/include/store/database.hpp:35-57 | operations that give up only before their first write mean the same with a transaction of their own and inside a caller's |
| TransactionScopes.StoreOperationsNest | backend/src/users/tokens.cpp:86-264 | every store operation is such an operation, and its scopes and writes have the effect its model says, alone and nested |
| TransactionScopes.CommitIsOneTransaction | backend/src/request/request.cpp:36-56 | a row and its total become durable together |
| TransactionScopes.DeleteUserIsOneTransaction | backend/src/users/users.cpp:131-146 | a user goes with all tokens, rows and totals in one transaction, in whatever order the tokens are listed |
| ProxyRoute.NoUsageCostsNothing | backend/src/server/http_dispatch.cpp:1430-1440 | finishing a request without usage moves no balance and no token or cost column of any total |
| ProxyRoute.CommitUsageExactly | backend/src/proxy/gateway.cpp:154-166 | a commit goes through exactly when the ids are there and the balance covers the cost; otherwise nothing changes |
| ProxyRoute.NegativeCostLogged | backend/src/proxy/gateway.cpp:164-196 | a negative cost is logged and moves no balance |
| ProxyRoute.NegativeMultiplier | backend/src/channels/channel_api.cpp:437-438 | a channel multiplier of -1, accepted unchecked: a row of minus one dollar |
| ProxyRoute.ZeroRowLogged | backend/src/proxy/gateway.cpp:154-197 | a call without usage adds a row exactly if its ids are there and new |
| ProxyRoute.ReplyExactly | backend/src/proxy/gateway.cpp:656-732 | the reply on balance, group, channels and answers: each refusal exactly when it is due, an answer exactly if some eligible channel gives one, and the channel at the pointer first |
| ProxyRoute.NewUserMustPay | backend/src/users/users.cpp:161-164 | a new user is active, refused at first, and passes the balance gate once credited |
| ProxyRoute.UnservedCostsNothing | backend/src/server/http_dispatch.cpp:1593-1603 | a request no channel served leaves every balance and every token and cost column; a row of zeros is logged, under the channel asked last, exactly if one was asked and its ids are there and new |
| ProxyRoute.ServedIsRecorded | backend/src/server/http_dispatch.cpp:1602-1603 | a served request is recorded with the five counts of the answer that won, their cost by that channel's tariff, and that channel, exactly if its ids are there and the balance covers the cost; balance and day's total move by that row |
| ProxyRoute.ServeNonStream | backend/src/server/http_dispatch.cpp:1591-1604 | reply and all tables afterwards as functions of balance, stored group, channel answers and tariffs |
| ProxyRoute.ServeResponses | backend/src/server/http_dispatch.cpp:1618-1633 | the same for responses without streaming, through the third loop |
| ProxyRoute.CountingLogsExactly | backend/src/server/http_dispatch.cpp:1634-1642 | counting input tokens logs one row of zeros, under the last channel that failed, if and only if the balance allows the request and the first channel asked fails; otherwise it changes nothing |
| ProxyRoute.CountingLogsARow | backend/src/server/http_dispatch.cpp:1634-1642 | two channels, the first fails, the second answers: a row under the first |
| ProxyRoute.ServeInputTokens | backend/src/server/http_dispatch.cpp:1634-1642 | reply and all tables afterwards as functions of balance, stored group and channel answers |
| Failover.ScheduledUnique | backend/src/proxy/gateway.cpp:672-733 | the schedule determines attempts and reply, so the three loops ask the same channels |
| Failover.ScheduledExactly | backend/src/proxy/gateway.cpp:672-733 | a schedule is kept exactly by the attempts up to the first candidate that answers and the reply that follows |
| Failover.ServedWhateverOrder | backend/src/proxy/gateway.cpp:685-732 | a request is served exactly if some enabled channel of the right upstream with a key answers below 400, and finds no channel exactly if there is none, whatever the order and the start |
| Failover.NearestServes | backend/src/proxy/gateway.cpp:685-732 | the channel that serves is the nearest after the start that answers below 400; if all fail, the failure of the farthest is relayed |
| Failover.Remembered | backend/src/proxy/gateway.cpp:708-723 | a failed answer is relayed as it is, an exception as 502 with a fixed text or, in `handle`, its own |
| Failover.OrderDecidesWhom | backend/src/proxy/gateway.cpp:685-726 | two channels that both answer: the first in order serves |
| Failover.CandidatesExact | backend/src/channels/channel_groups.cpp:24-27 | the candidates are exactly the enabled channels of the right upstream with a key, each once, by distance from the start of the rotation |
| Failover.TurnStep | backend/src/proxy/gateway.cpp:685-726 | one turn of the rotation: skip, fail or win |
| Failover.Exhausted | backend/src/proxy/gateway.cpp:728-732 | a full turn without success: no candidate, or the last failure |
| Failover.ChannelGroup.NextChannel | backend/src/channels/channel_groups.cpp:24-27 | the position moves on by one and wraps |
| Failover.Gateway.LoadChannelGroup | backend/src/proxy/gateway.cpp:656-670 | a group is refused exactly if missing, disabled or empty, and starts at a valid position |
| Failover.Gateway.Run | backend/src/proxy/gateway.cpp:672-733 | keeps the schedule; usage is the winner's, and untouched if all fail |
| Failover.Gateway.RunStream | backend/src/proxy/gateway.cpp:735-819 | keeps the schedule for opening streams |
| Failover.Gateway.Handle | backend/src/proxy/gateway.cpp:1020-1225 | keeps the schedule with exception texts relayed; streams exactly for event streams asked for; what is left in the request in each case, also for a won answer that is not billed |
| EventPaging.RunQuery | backend/src/request/request.cpp:64-120 | the query is the hits in the asked order cut at the limit |
| EventPaging.SelectExactly | backend/src/request/request.cpp:64-120 | the rows that meet every condition, in the order asked for; one that meets them is missing only behind a full answer |
| EventPaging.EventsPage | backend/src/server/http_dispatch.cpp:742-761 | one row more than shown decides the next cursor |
| EventPaging.NextPage | backend/src/server/http_dispatch.cpp:742-761 | what follows a page is exactly what the page left out |
| EventPaging.GrowthInvisible | backend/src/request/request.cpp:92-94 | rows added above a cursor do not show below it |
| EventPaging.PageFacts | backend/src/server/http_dispatch.cpp:742-761 | a page holds, newest first, exactly the matching rows below its cursor and not below the next |
| EventPaging.WalkUnderAnyGrowth | backend/src/server/http_dispatch.cpp:722-761 | however rows come in meanwhile, following the cursor delivers no event twice, each event that matched at the start, newest first, and ends |
| EventPaging.WalkIsPartition | backend/src/server/http_dispatch.cpp:722-761 | while rows come in above the present ones only, it delivers exactly the events that matched at the start |
| EventPaging.AdminPageAfter | backend/src/server/http_dispatch.cpp:1232-1245 | the backward page has matching events above the cursor, newest first, and the nearest ones if and only if no more match than fit |
| EventPaging.DropsNearest | backend/src/server/http_dispatch.cpp:1238-1245 | otherwise the event next to the cursor is the one dropped |
| BcryptSalt.OrDisjoint | backend/src/util/user_input.cpp:43-43 | or-ing in a shifted byte adds it, because the accumulator is below it |
| BcryptSalt.TakeByte | backend/src/util/user_input.cpp:42-44 | taking a byte keeps the value spelled by digits and accumulator |
| BcryptSalt.EmitDigit | backend/src/util/user_input.cpp:45-49 | so does emitting a character |
| BcryptSalt.Salt | backend/src/util/user_input.cpp:35-55 | 29 characters: the prefix and 22 letters whose base-64 value is the base-256 value of the bytes |
| BcryptSalt.FitsWord | backend/src/util/user_input.cpp:41-44 | the accumulator stays below 2^14 |
| BcryptSalt.LettersInOrder | backend/src/util/user_input.cpp:37-37 | the alphabet, run by run |
| BcryptSalt.ByteValueInjective | backend/src/util/user_input.cpp:42-50 | the value determines the bytes |
| BcryptSalt.SaltInjective | backend/src/util/user_input.cpp:35-55 | different random bytes give different salts |
| Base64Url.Encode | backend/src/auth/crypto.cpp:23-47 | swapping and stripping the block form gives the six-bit groups in the url alphabet |
| Base64Url.Decode | backend/src/auth/crypto.cpp:49-86 | padding, block decoding and dropping one byte per pad |
| Base64Url.EncodedShape | backend/src/auth/crypto.cpp:23-47 | unpadded, alphabet of section 5 of RFC 4648, ceil(4n/3) characters, never one more than a multiple of four |
| Base64Url.SextetsAreNumber | backend/src/auth/crypto.cpp:23-47 | the base-64 value of the text is the base-256 value of the bytes, shifted past the two or four bits that fill up |
| Base64Url.UrlLettersInOrder | backend/src/auth/crypto.cpp:35-43 | the alphabet of section 5 of RFC 4648, run by run |
| Base64Url.DecodedOctets | backend/src/auth/crypto.cpp:49-86 | url text decodes to its whole bytes, and is refused exactly for a length one above a multiple of four |
| Base64Url.RoundTrip | backend/src/auth/crypto.cpp:23-86 | decoding the encoding gives back every byte string |
| Base64Url.ReencodesExactly | backend/src/auth/crypto.cpp:49-86 | encoding what was decoded gives back the text if and only if its unused bits are zero |
| Decimals.NormalizeDecimal | backend/src/util/user_input.cpp:168-217 | the in-place edits give the canonical form or the first error |
| Decimals.AcceptsExactly | backend/src/util/user_input.cpp:171-215 | exactly which texts are accepted and which error each other one gives |
| Decimals.BarePoint | backend/src/util/user_input.cpp:182-199 | `.` and `+.` are accepted as zero |
| Decimals.NormalizePreserves | backend/src/util/user_input.cpp:201-216 | the normal form has the value of the input and is a fixed point |
| Decimals.NormalizeDecidesValue | backend/src/util/user_input.cpp:201-216 | two accepted texts get the same form if and only if their values are equal |
| Decimals.FormatUsdPlainFixed6 | backend/src/util/strings.cpp:32-64 | the in-place edits give the shortest form |
| Decimals.FormatPreserves | backend/src/util/strings.cpp:32-64 | formatting keeps sign and value of any signed numeral and is idempotent |
| Decimals.FormatText | backend/src/util/strings.cpp:38-63 | what goes and what stays in any text with a point |
| Decimals.FormatDecidesValue | backend/src/util/strings.cpp:49-62 | two numerals are formatted alike if and only if their values are equal |
| Decimals.NormalizeThenFormat | backend/src/util/strings.cpp:32-64 | an accepted price, shown, is the shortest numeral of its value |
| Decimals.NormalizeUsdAmount | backend/src/util/user_input.cpp:128-166 | accepted exactly: at most six decimals and above zero, as the shortest numeral; the error names the first thing wrong |
| AddressPrefixes.AndMask | backend/src/auth/security.cpp:129-130 | masking the low bits rounds down to a multiple of their power of two |
| AddressPrefixes.Ipv4InCidrExactly | backend/src/auth/security.cpp:124-131 | the mask test is membership in an aligned block, never met for an unaligned network, and always for a length of zero or less |
| AddressPrefixes.IsTrustedProxyIpv4 | backend/src/auth/security.cpp:250-262 | trusted exactly if the address parses and some proxy matches |
| AddressPrefixes.TrustsExactly | backend/src/auth/security.cpp:38-46 | a well-formed proxy trusts exactly the block of its network, an ill-formed one everything |
| AddressPrefixes.IllFormedTrustsAll | backend/src/auth/security.cpp:40-43 | a proxy that could not be formed trusts every address |
| AddressPrefixes.TopBits | backend/src/auth/security.cpp:153-157 | the top bits of an address depend only on its leading bytes |
| AddressPrefixes.Ipv6PrefixMatchExactly | backend/src/auth/security.cpp:151-163 | for every length the byte-and-mask match is equality of the top bits as 128-bit numbers |
| AddressPrefixes.SpecialRanges | backend/src/auth/security.cpp:133-149 | the refused IPv4 addresses as ranges of numbers |
| RequestHeaders.HeaderValueFromRequest | backend/src/auth/session.cpp:56-102 | the scan finds the first header of that name before the first empty line |
| RequestHeaders.HeaderLineRead | backend/src/auth/session.cpp:66-99 | a header line has the name before its first colon, in any case, and the value after it without the blanks around |
| RequestHeaders.InjectRequestMetadata | backend/src/server/http_dispatch.cpp:1736-1746 | two insertions after the request line, the later one first |
| RequestHeaders.LookupLine | backend/src/auth/session.cpp:59-99 | looking past one complete line |
| RequestHeaders.LookupAfterInjection | backend/src/server/http_dispatch.cpp:1736-1746 | every lookup after injection, including empty request lines and ones that name the header |
| RequestHeaders.RequestLineNamesNothing | backend/src/auth/session.cpp:66-91 | a request line with a space before any colon names no header |
| RequestHeaders.InjectedIpWins | backend/src/auth/session.cpp:56-102 | for ordinary requests the injected names give the ip whatever the client sent, and all other names what they gave before |
| DailyBuckets.NextDayIsNext | frontend/src/utils/timeSeries.ts:42-42 | the next date has the next day number |
| DailyBuckets.DayNumberInjective | frontend/src/utils/timeSeries.ts:41-42 | a day number names one date |
| DailyBuckets.DayNumberClosed | backend/src/util/user_input.cpp:424-437 | the day number in closed form in year, month and day |
| DailyBuckets.DayLabelInjective | frontend/src/utils/timeSeries.ts:11-13 | different days have different labels |
| DailyBuckets.ParseLabel | frontend/src/utils/timeSeries.ts:5-13 | reading a label gives the day back |
| DailyBuckets.ParseExactly | frontend/src/utils/timeSeries.ts:5-13 | a text is read as a day exactly if it is the label of that day, up to space |
| DailyBuckets.FillDailyBuckets | frontend/src/utils/timeSeries.ts:15-48 | the loop gives one point per day, or the points as they are for dates that do not parse or are reversed |
| DailyBuckets.IndexByDay | frontend/src/utils/timeSeries.ts:31-36 | the map holds the last point of each day |
| DailyBuckets.PointForDay | frontend/src/utils/timeSeries.ts:31-45 | a day gets the last point whose trimmed bucket starts with its label, or the zero point |
| DailyBuckets.FilledIsConsecutive | frontend/src/utils/timeSeries.ts:38-47 | the output is the consecutive days from start to end, each once, under their own labels, each with the last point filed under it or the zero point |
| UsageAggregates.OneRow | backend/src/server/http_dispatch.cpp:420-464 | what a single row counts for in each column |
| UsageAggregates.AggregateWindow | backend/src/server/http_dispatch.cpp:420-464 | each counter of the window is the sum of its column |
| UsageAggregates.UsageTimeSeries | backend/src/server/http_dispatch.cpp:515-539 | each bucket holds the sums of the rows that fall into it, and exists exactly for such rows |
| UsageAggregates.GroupsAddUp | backend/src/server/http_dispatch.cpp:515-539 | groups add up to the rows that have a group, in whatever order they are visited |
| UsageAggregates.SeriesAddsUpToWindow | backend/src/server/http_dispatch.cpp:420-539 | for any rows and bucket function the series adds up to the window over the rows with a bucket |
| UsageAggregates.AddUsage | backend/src/channels/channel_api.cpp:236-249 | one row adds its cells |
| UsageAggregates.AccumulateChannels | backend/src/channels/channel_api.cpp:261-266 | overview and per-channel metrics are the sums of their rows |
| UsageAggregates.ChannelsPage | backend/src/channels/channel_api.cpp:261-279 | the page shows the overview of all rows and each existing channel's sums, in the order of the channels |
| UsageAggregates.ChannelsAddUpToOverview | backend/src/channels/channel_api.cpp:261-279 | the channels shown add up to the rows of existing channels, and to the overview if and only if the rows of other channels contribute nothing |
| UsageAggregates.DeletedChannelMissing | backend/src/channels/channels.cpp:121-133 | a deleted channel's dollar is in the overview and in no channel |

## Left out

- Store.Store.CreateUser: takes the user as its callers form it; the checks on names, email and password are not modelled, nor that email and username are unique.
- Store.Store.ResolveRawToken: says only that the answer is one the query allows, because `LIMIT 1` without an order may pick any row; `TokenRules.ResolvesExactly` says when there is no choice.
- SystemRuns.Reachable: assumes what the surroundings provide: new request ids and raw tokens, times that start with a date, costs that are not negative, and account handlers that are not interleaved with another write to the same user. What happens otherwise is in `RecordConserves`, `ProxyDateAgrees`, `ChargeConserves` and `WriteBackDrift`.
- StreamPipeline.BilledExactly: is about a client that stays; `BilledToDropped` has the one that may drop.
- StreamBilling.HandleBillsOnUsage: is about a client that stays, `HandleDropDiffers` about one that may drop; both are the rule for a stream handed to the server's response; for a stream written to a file descriptor `handle` asks in addition that no upstream error occurred (`backend/src/proxy/gateway.cpp:1177-1185`).
- Failover.Gateway.Handle: says nothing about reply headers; its stream branch appends to headers left by earlier attempts (`backend/src/proxy/gateway.cpp:1090-1095`), and the branch that refuses a method before the loop is not modelled.
- AddressPrefixes.Ipv6PrefixMatchExactly: is the match itself; the list of refused IPv6 prefixes and parsing addresses from text are left to a parameter or left out.
- Decimals.NormalizeUsdAmount: reads the text as an exact number; `stold` and the printing of a `long double` agree with that up to the precision of the type, and `stold` refuses numbers beyond its range, some five thousand digits, which the code reports as malformed.
- DailyBuckets.FillDailyBuckets: an engine's own reading of an impossible day such as 30 February is modelled as an invalid date; trimming covers the ASCII spaces.
- Base64Url.Decode: leaves out that the library's block decoder skips surrounding white space.
- Width of counters: token and latency counters are mathematical integers; `apply_total` adds `int`s.
- Floating point: `double` rounding, except where a balance is stored with six decimals.
- JSON: parsing, serialisation and `finalize`, which is a total function here; its throwing cases are not covered.
- Time: clock values, time zones and the first-token latency; timeouts are possible outcomes of a step.
- Opening a stream: waiting for the response headers and the timeout there.
- Groups of channels: member lists, `fill_channels` and `delete_channel`, which keep lists and add only easy invariants.
- Sessions: reading a session, its expiry, and cookies.
- Queries: the conditions of a request query other than the cursor are one arbitrary predicate.
- Summaries: averages, rates, the time span of a window and the channel time series, which accumulates like the page.
- Upstream requests: header rewriting, the retry without an unsupported parameter, address resolution.
- Small helpers: `hex_encode`, `cookie_value`, `parse_positive_i64_or`, the remaining formatters.
