# Email hygiene service: verified core

A Dafny model of what sits below the HTTP layer of an email-hygiene service: the
credit ledger and the batch protocol, the batch processor, the SMTP probe and
the verdicts built on it, the limiters, the retention sweep, and the small
algorithms they rely on. `dafny verify dfyconfig.toml` checks all of it.

| file | what it models |
|---|---|
| `Prelude.dfy`, `Ledger.dfy`, `Batches.dfy` | append-only ledger under its unique index; the batch transactions as functions of the tables and as methods of a `Database` |
| `CreditProtocol.dfy`, `Debits.dfy` | every step that moves credits, interleaved: debits in their lock / read / commit steps, grants, uploads, claims, completions, failures, deletions, expiry |
| `Solvency.dfy`, `Settlement.dfy`, `Faithful.dfy`, `Misreports.dfy`, `CacheWindow.dfy` | what holds in every run of that machine |
| `BatchProcessor.dfy`, `BatchRun.dfy`, `CsvInspect.dfy`, `ResultCodec.dfy`, `CsvLine.dfy`, `Text.dfy` | a batch from upload inspection to result file and settlement |
| `SmtpProbe.dfy`, `Replies.dfy`, `Verdicts.dfy` | SMTP replies and conversation, engine response, verdict |
| `SlidingWindow.dfy`, `Throttle.dfy` | the Redis window and lease, the SMTP throttle and the API rate limit |
| `CircuitBreaker.dfy` | the breaker and the retrying engine client that drives it |
| `Lifecycle.dfy` | the retention sweep, interrupted anywhere |
| `Base32.dfy`, `DomainTypo.dfy`, `Ipv6.dfy` | base32 on 32-bit words, cut-off edit distance, IPv6 expansion |
| `Pagination.dfy`, `Statement.dfy` | keyset pages; monthly statements and running balances |

A run of the credit machine is any list of events, and an event that is not
enabled does nothing, so a statement about all lists of events is a statement
about all interleavings. Database transactions that take no organisation lock
and Redis scripts are single steps; the locked debits are several steps. Time,
random identifiers, the answers of DNS, SMTP servers, cache and engine, and the
outcomes of storage and database calls are parameters.

Six places where a plausible reading of the code or its comments is not what
the code does, each with the exact condition under which it is:

- Two paid checks of one address are meant to be seven days apart. A check
  expires a retention period after its request, not after its row's stamp, so
  the stamps are seven days apart in all runs exactly if the first request's wait
  for its transaction and the second call's duration together fit into what the
  retention has beyond seven days (`CacheWindow.StampsApartExactly`): practically
  always with 30 or 90 days, and only without any delay with 7.
- A batch row tells what the batch cost unless it was failed after a partial
  charge or completed at full charge after a refund (`Faithful.CostOfAnyRow`). A
  completion or a publish that took effect but was reported as failed can lead to
  either; `Misreports` says for which charges, with runs for each.
- `duplicates` counts a repeated address only if an earlier chunk held it
  (`BatchProcessor.DuplicatesUndercount` says exactly when it is the true count).
- A breaker that has just opened can admit calls again at once if a call admitted
  before reports a success late (`CircuitBreaker.OpenSpell`).
- A full mailbox is decided as a rejected one, since `mailbox_accepted` is false
  too (packages/core/src/aggregate.ts:167 comes first), so the rule after it never
  decides (`Verdicts.ReasonExactly`). An address whose syntax result is
  valid and has no local part would be `invalid` although no mailbox was asked
  about (`Verdicts.NobodyAsked`); whether the parser ever returns one is not
  modelled.
- The comment at packages/shared/src/ssrf.ts:21 speaks of reserved ranges; the
  code knows the ranges of `Ipv6.PrivateExactly` and lets `::` pass.

## Model

| member | source | states |
|---|---|---|
| `Ledger.UuidTextInjective` | packages/db/src/schema/credit-ledger.ts:27-31 | Two 128-bit identifiers have the same 36-character text only if they are equal |
| `Ledger.ReferenceTextInjective` | packages/db/src/batches.ts:14-16 | Check ids, batch ids, `<batch>:refund` and `grant:<digest>` share a reference text exactly when they are the same reference, so the unique index separates exactly the model's references |
| `Ledger.Insert` | packages/db/src/schema/credit-ledger.ts:38-43 | Inserting under the (org, reference) index keeps references unique per organisation |
| `Ledger.NoReferenceNoSum` | packages/db/src/schema/credit-ledger.ts:32-43 | A reference that was never written contributes nothing to a batch's net |
| `Batches.Database.LockedBalance` | packages/db/src/batches.ts:32-38 | The balance is SUM(delta) over the organisation's entries, 0 for none |
| `Batches.Database.InsertLedger` | packages/db/src/schema/credit-ledger.ts:38-43 | Appends the entry, or leaves the ledger alone exactly when the reference is taken |
| `Batches.Database.CreateBatchWithReservation` | packages/db/src/batches.ts:60-100 | Row and full reservation together, or nothing: unknown or deleted organisation, too few credits with the exact shortfall, or a rolled back insert |
| `Batches.Database.ClaimBatchForProcessing` | packages/db/src/batches.ts:196-220 | Only a pending or validating row becomes processing; a vanished organisation is reported with the claimed row |
| `Batches.Database.CompleteBatch` | packages/db/src/batches.ts:249-278 | Done with its charge and one refund of the rest, or, when a refund already exists, an error and unchanged tables |
| `Batches.Database.FailBatch` | packages/db/src/batches.ts:284-307 | Failed, with the whole reservation refunded unless a refund exists |
| `Batches.Database.DeleteBatchForOrg` | packages/db/src/batches.ts:336-376 | Refused while processing; otherwise the row goes, with the full refund if it was never claimed and none exists; reports what it refunded |
| `Batches.CreateOutcome` | packages/db/src/batches.ts:60-100 | Created iff the organisation is active, its balance covers the rows and id and reference are free; then the balance falls by the rows, stays at or above 0 and is the one answered, and the row is pending and expires after the retention. Insufficient iff the balance of an active organisation is too small, with balance and shortfall. Otherwise nothing changes |
| `Batches.ClaimOutcome` | packages/db/src/batches.ts:196-220 | Exactly the pending and validating rows become processing; what a claim answers about row, retention and a vanished organisation |
| `Batches.CompleteOutcome` | packages/db/src/batches.ts:249-278 | Rolled back iff something is left to refund and a refund exists; otherwise the row is done with its charge and new expiry, and the rest is refunded |
| `Batches.FailOutcome` | packages/db/src/batches.ts:284-307 | The row is failed and the reservation refunded iff there is one and no refund exists |
| `Batches.DeleteOutcome` | packages/db/src/batches.ts:336-376 | When a deletion is refused, when the row goes, and exactly when and what it refunds |
| `Debits.UploadIsCreate` | packages/db/src/batches.ts:60-100 | An upload's lock, read and commit steps without interference are the transaction that creates the batch, so what holds of all interleavings holds of it |
| `Debits.EmailCheckOutcome` | packages/db/src/checks.ts:118-168 | One check row and one credit iff the organisation is active, the cache has no reusable row, the balance is at least 1 and the reference is free; otherwise nothing |
| `Debits.PhoneCheckOutcome` | packages/db/src/checks.ts:186-227 | The same without a cache |
| `Debits.GrantOutcome` | packages/db/src/billing.ts:42-91 | A grant adds its credits iff the organisation is active, the amount positive and the digest new |
| `Debits.OrgChangeOutcome` | packages/db/src/checks.ts:70-84 | What debits read under the lock changes only without it: retention to 7, 30 or 90 days, or a soft deletion |
| `Debits.ChecksOutcome` | packages/db/src/lifecycle.ts:40-53 | A purge removes exactly the expired checks, a wipe exactly one organisation's checks and batches, and neither a ledger entry |
| `Batches.CompleteRefunds` | packages/db/src/batches.ts:249-278 | A completion adds at most one refund entry of its batch, of at most the reservation, and touches no other row |
| `Batches.FailRefunds` | packages/db/src/batches.ts:284-307 | The same for a failure, whose row, if there is one, is then failed |
| `Batches.DeleteRefunds` | packages/db/src/batches.ts:336-376 | A deletion refunds at most the row's own total to the row's own organisation |
| `Solvency.StepKeepsSolvent` | packages/db/src/checks.ts:70-168 | Each step keeps balances non-negative, and a balance read under the lock stays enough for its debit until the commit |
| `Solvency.CommitKeepsSolvent` | packages/db/src/checks.ts:136-164 | Committing a debit, email, phone or batch, overdraws nobody and leaves other open debits covered |
| `Solvency.OthersGainCredit` | packages/db/src/batches.ts:249-376 | Outside debit commits no step lowers any balance, the lock-free refunds included |
| `Solvency.NeverOverdrawn` | packages/db/src/checks.ts:118-227 | In every run of every interleaving each organisation's SUM(delta) is at least 0 |
| `Settlement.CompleteSettles` | packages/db/src/batches.ts:254-276 | Completing an unrefunded batch commits and leaves its net at exactly minus the charge |
| `Settlement.RefundOnceSettles` | packages/db/src/batches.ts:352-365 | Refunding an unrefunded batch in full leaves its net at 0 |
| `Settlement.FailSettles` | packages/db/src/batches.ts:294-305 | Failing an unrefunded batch leaves its net at 0 |
| `Settlement.StepKeepsSound` | packages/db/src/batches.ts:196-376 | Every step keeps the invariant that ties rows, workers, receipts and ledger of each batch together |
| `Settlement.BatchCostBounded` | packages/db/src/batches.ts:243-307 | In every run, misreported commits included, a batch has at most one refund entry and reservation plus refund lies in [-totalRows, 0] |
| `Settlement.DeletionIsFinal` | packages/db/src/batches.ts:320-376 | Once an unclaimed batch is deleted its net is 0 for the rest of every run and no later claim succeeds |
| `Faithful.FailStory` | packages/db/src/batches.ts:284-307 | Failing a batch in whatever state leaves its net at 0, or at what a partial completion charged |
| `Faithful.CompleteStory` | packages/db/src/batches.ts:249-278 | Completing a batch that may already be failed commits exactly if it charges everything or no refund exists, and what the row then costs |
| `Faithful.StepKeepsTold` | packages/db/src/batches.ts:196-376 | Every step, misreported ones included, keeps each existing row's cost a function of its status, its charge and whether it was refunded, and each worker alone on its batch |
| `Faithful.CostOfAnyRow` | packages/db/src/batches.ts:243-307 | In every run an existing row tells its cost exactly unless it was failed after a partial charge or completed at full charge after a refund, and what it cost then |
| `Faithful.StepKeepsClean` | apps/worker/src/batch/processor.ts:111-140 | A step that misreports nothing about a batch keeps that batch out of both cases, whatever is misreported about others |
| `Faithful.StatusTellsCost` | apps/worker/src/batch/processor.ts:343-395 | While a row exists its ledger net is -totalRows when pending, validating or processing, -charged when done, 0 when failed, in every run that misreports no commit and no publish of that batch |
| `Misreports.LostCompletionMisleads` | apps/worker/src/batch/processor.ts:343-395 | After a completion that was reported as failed, the failed row costs what it says exactly when the charge was 0 or the whole reservation |
| `Misreports.LostPublishWorkerFirst` | apps/api/src/routes/batches.ts:160-177 | A publish reported as failed, with the worker completing before the route fails the batch: the same condition |
| `Misreports.LostPublishRouteFirst` | apps/api/src/routes/batches.ts:160-177 | With the route first, the completion goes through exactly for a full charge, and then the row is done at no cost; otherwise it stays failed and tells its cost |
| `Misreports.MisreportsHappen` | apps/worker/src/batch/processor.ts:343-395 | Runs from an empty ledger, for every batch size and charge, that end in each of these |
| `CacheWindow.MissMeansSpent` | packages/db/src/checks.ts:18-40 | A cache miss under the lock means that each earlier paid check of the address was stamped a full window before the request, or has outlived its retention |
| `CacheWindow.PurgeStepKeepsCovered` | packages/db/src/lifecycle.ts:40-53 | Purging expired rows and storing batch results leaves each paid check its own row until that row expires |
| `CacheWindow.PaidChecksAreSpaced` | packages/db/src/checks.ts:118-168 | In every run without explicit deletion, for two paid checks of one address: the first is stamped 7 days before the second request, or expires by the second commit; so the stamps are 7 days apart if the first request's wait and the second call's duration fit into the retention beyond 7 days; and from 7 days of retention on the second commit comes 7 days after the first request |
| `CacheWindow.SpacingIsTight` | packages/db/src/checks.ts:118-140 | For every retention, wait and duration a run of two paid checks whose stamps are the retention less both apart |
| `CacheWindow.StampsApartExactly` | packages/db/src/checks.ts:118-168 | The stamps are 7 days apart in all runs within a given wait and duration if and only if the retention is at least 7 days plus both |
| `CsvInspect.BestColumn` | apps/api/src/csv-inspect.ts:28-76 | The earliest column with the most @-cells in the sample, or none exactly when no sampled cell has one |
| `CsvInspect.InspectCsv` | apps/api/src/csv-inspect.ts:28-76 | Empty, too large, no column, or accepted with column, header and row count, for every file |
| `CsvInspect.AcceptedCountsDataRows` | apps/api/src/csv-inspect.ts:28-76 | The reservation is the number of data rows, between 1 and 100000 |
| `BatchProcessor.NewAddresses` | apps/worker/src/batch/processor.ts:185-189 | Looking only at rows not yet seen finds exactly the new distinct addresses, in order |
| `BatchProcessor.Job.SelectNew` | apps/worker/src/batch/processor.ts:185-189 | What was looked up before plus the new selection is the distinct addresses of all rows so far |
| `BatchProcessor.Job.ConsultOne` | apps/worker/src/batch/processor.ts:197-266 | One answer per address is remembered encoded, exactly one of charged, cached and engine errors grows, and a fresh answer is queued for the cache |
| `BatchProcessor.FreshRowsAreCharged` | apps/worker/src/batch/processor.ts:256-268 | One row goes into the cache for each credit charged |
| `BatchProcessor.KeptExactly` | apps/worker/src/batch/processor.ts:71-88 | A row shows its address's answer exactly if the answer survives the compact encoding |
| `BatchProcessor.Job.WriteRows` | apps/worker/src/batch/processor.ts:271-281 | Each row of a chunk is written with its address's answer; verdict counts and progress match the output |
| `BatchProcessor.Job.ResolveChunk` | apps/worker/src/batch/processor.ts:184-282 | A chunk extends the resolved rows, keeps the invariant and leaves the malformed lines as they were |
| `BatchProcessor.Job.TakeRow` | apps/worker/src/batch/processor.ts:324-334 | One more well-formed row keeps the loop's invariant, whether or not it fills the chunk |
| `BatchProcessor.Job.RejectRow` | apps/worker/src/batch/processor.ts:315-322 | One more malformed row is written at once as invalid and never charged |
| `BatchProcessor.Job.ProcessBatch` | apps/worker/src/batch/processor.ts:290-337 | For every file and chunk size, 0 included, over the records themselves: each data record gets one line with its cells, the normalised cell of the email column and the answer for that address, in file order among records with an address and among those without; charged, cached and engine errors are the numbers of distinct addresses answered fresh, from the cache and not at all; the distribution counts the lines by verdict; one cache row per fresh answer |
| `BatchProcessor.FinishedIsProcessed` | apps/worker/src/batch/processor.ts:290-337 | The row-by-row specification of the chunked loop says exactly that |
| `BatchProcessor.SettlementAddsUp` | apps/worker/src/batch/processor.ts:343-352 | A finished job's own counters: charged + cached + engine errors is the number of distinct addresses, the verdict counts sum to the inspected row count, and charged is the number of cached rows and at most the reservation |
| `BatchRun.ProcessUpload` | apps/worker/src/batch/processor.ts:284-352 | Inspecting and then processing any file: the charge is at most what inspection counted, whatever the file and chunk size |
| `BatchRun.WorkOnBatch` | apps/worker/src/batch/processor.ts:343-352 | A worker whose reservation is the inspected row count settles as done, and the batch's ledger net is minus the fresh checks it stored |
| `BatchRun.ResultFileReads` | apps/worker/src/batch/processor.ts:171-181 | A CSV reader of the result file gets one row for each output line: the original cells (a formula behind an apostrophe), address, verdict, score, codes and suggestion |
| `BatchProcessor.DuplicatesUndercount` | apps/worker/src/batch/processor.ts:324-328 | `duplicates` never exceeds the repeated rows, and equals them exactly when every repeated address also occurs in an earlier chunk |
| `BatchProcessor.DuplicateMissed` | apps/worker/src/batch/processor.ts:324-328 | Two equal addresses in one chunk: one repeat, none counted |
| `ResultCodec.EncodableRoundTrips` | apps/worker/src/batch/processor.ts:71-88 | Decoding undoes encoding when no field has a NUL, no code has a bar and the codes are not one empty code |
| `ResultCodec.RoundTripsExactly` | apps/worker/src/batch/processor.ts:71-88 | ... and for no other results |
| `CsvLine.RecordRead` | apps/worker/src/batch/processor.ts:444-454 | A reader of section 2 of RFC 4180 with LF line ends recovers the neutralised cells of a printed line and stops after it |
| `CsvLine.FileRead` | apps/worker/src/batch/processor.ts:165-181 | It recovers a whole printed file, row by row, and no recovered cell starts with a formula character |
| `Text.ReadShown` | apps/worker/src/batch/processor.ts:74-84 | Reading a printed score gives the score |
| `DomainTypo.DistanceIsEditDistance` | packages/core/src/domain-typo.ts:478-502 | The table's recurrence is the least number of insertions, deletions and substitutions over all edit scripts |
| `DomainTypo.LaterRowsAbove` | packages/core/src/domain-typo.ts:478-502 | Row minima never decrease, which is what makes the cut-off sound |
| `DomainTypo.NextRow` | packages/core/src/domain-typo.ts:478-502 | One pass turns a row of true distances into the next one and returns its minimum |
| `DomainTypo.Levenshtein` | packages/core/src/domain-typo.ts:478-502 | The true distance whenever it is at most the limit, a value above the limit otherwise |
| `DomainTypo.ClosestKnownDomain` | packages/core/src/domain-typo.ts:453-472 | The earliest listed provider at the least true distance within the bound, or none exactly when the domain is too short or every provider is out of bounds |
| `Base32.ShiftIn` | apps/api/src/internal/totp.ts:13-44 | On a wrapping 32-bit word, shifting and or-ing appends bits and drops the oldest |
| `Base32.ShiftOut` | apps/api/src/internal/totp.ts:13-44 | Shifting and masking reads exactly the addressed bits whatever garbage is above them |
| `Base32.Encode` | apps/api/src/internal/totp.ts:13-26 | The output spells the input's bits and then fewer than five zero bits, in the alphabet of section 6 of RFC 4648, unpadded |
| `Base32.AlphabetExactly` | apps/api/src/internal/totp.ts:9 | Only the characters of the alphabet of section 6 of RFC 4648 have an index, each its own |
| `Base32.Decode` | apps/api/src/internal/totp.ts:29-44 | None exactly for a foreign symbol, otherwise the whole bytes of the spelled bits |
| `Base32.EncodingUnique` | apps/api/src/internal/totp.ts:13-26 | A byte string has one encoding |
| `Base32.EncodingDetermines` | apps/api/src/internal/totp.ts:29-44 | A text encodes at most one byte string, the one that whole-byte reading finds |
| `Base32.RoundTrip` | apps/api/src/internal/totp.ts:29-44 | Any encoding decodes to its bytes, in either case and with any padding |
| `Base32.EncodeThenDecode` | apps/api/src/internal/totp.ts:13-44 | Decoding undoes encoding on every byte string |
| `SlidingWindow.ExpiryDropsNothing` | apps/worker/src/smtp/throttle.ts:32-58 | Key expiry never drops an entry that is still inside the window |
| `SlidingWindow.EvictionIsExact` | apps/worker/src/smtp/throttle.ts:32-58 | After eviction the set holds exactly the admissions inside the window |
| `SlidingWindow.TryKeepsTidy` | apps/worker/src/smtp/throttle.ts:32-58 | One script call with a new token and a clock that did not go back keeps that invariant |
| `SlidingWindow.WindowHoldsLimit` | apps/api/src/plugins/rate-limit.ts:26-43 | Admissions so spaced put at most the limit into any window (t - windowMs, t] |
| `SlidingWindow.RetryIsExact` | apps/api/src/plugins/rate-limit.ts:33-43 | The retry value of a denied call is the least wait after which it would be admitted, between 1 and the window |
| `SlidingWindow.AdmitsExactly` | apps/api/src/plugins/rate-limit.ts:33-42 | A call is admitted iff fewer than the limit were admitted in the window that ends with it |
| `Throttle.RedisHost.AcquireScript` | apps/worker/src/smtp/throttle.ts:32-58 | Lease held, window full, or admitted with lease and window entry; nothing else changes |
| `Throttle.RedisHost.ReleaseScript` | apps/worker/src/smtp/throttle.ts:61-66 | Only the holder's own token frees the lease |
| `Throttle.ProbesPerWindow` | apps/worker/src/smtp/throttle.ts:32-58 | In every run any window holds at most windowLimit admitted probes of a host |
| `Throttle.LeaseStands` | apps/worker/src/smtp/throttle.ts:61-66 | Until its lease runs out or its holder releases it, nobody else is admitted and no stale token frees it |
| `Throttle.ProbesDoNotOverlap` | apps/worker/src/smtp/throttle.ts:32-66 | Two admissions are separated by the first holder's release or by more than the lease's lifetime |
| `Throttle.DelaySuffices` | apps/worker/src/smtp/throttle.ts:94-121 | After a refusal by a full window a call is admitted exactly from the retry value on, hence after the clamped delay |
| `Throttle.AcquireExactly` | apps/worker/src/smtp/throttle.ts:41-58 | What an acquire answers from the history alone: held iff an admitted probe's lease stands, with its remaining time; else full iff the window holds the limit; else granted |
| `Throttle.DelayClamped` | apps/worker/src/smtp/throttle.ts:118-119 | The suggested delay is kept between half a second and the window |
| `Throttle.LimiterHolds` | apps/api/src/plugins/rate-limit.ts:26-83 | The API limiter admits at most its limit per window, and a refused request is admitted after its Retry-After |
| `Throttle.LimiterExactly` | apps/api/src/plugins/rate-limit.ts:33-42 | The API limiter lets a request through iff fewer than its limit were let through in the window |
| `Throttle.RedisHost.TryWindow` | apps/api/src/plugins/rate-limit.ts:26-44 | The script's statements: evict, count, refuse with the retry value, or add and renew the expiry |
| `Throttle.NoncesMatter` | apps/api/src/plugins/rate-limit.ts:26-44 | Without unique nonces the limit holds of all requests if and only if it is 1 (or the window is empty) |
| `Throttle.ReuseOverruns` | apps/api/src/plugins/rate-limit.ts:26-44 | For every limit from 2 on, one nonce lets one request more than the limit through at once |
| `CircuitBreaker.Switch.TryAcquire` | packages/shared/src/engine/circuit-breaker.ts:46-62 | Admission and the move to half-open, as a function of the state and the clock |
| `CircuitBreaker.Switch.RecordSuccess` | packages/shared/src/engine/circuit-breaker.ts:64-69 | A success closes and resets |
| `CircuitBreaker.Switch.RecordFailure` | packages/shared/src/engine/circuit-breaker.ts:71-81 | A failure reopens a half-open breaker and opens a closed one at the threshold |
| `CircuitBreaker.Switch.RecordNeutral` | packages/shared/src/engine/circuit-breaker.ts:90-94 | A neutral outcome closes a half-open breaker and otherwise changes nothing, the failure streak included |
| `CircuitBreaker.OneProbe` | packages/shared/src/engine/circuit-breaker.ts:46-62 | In any interleaving the call that enters half-open is admitted and no other is until the next reported outcome |
| `CircuitBreaker.BreakerIsStreak` | packages/shared/src/engine/circuit-breaker.ts:46-101 | With non-overlapping calls the breaker refuses exactly when a simple count of consecutive failures and the time of the last one say so |
| `CircuitBreaker.OpenAfterThreshold` | packages/shared/src/engine/circuit-breaker.ts:71-83 | After the threshold-th failure in a row nothing is admitted for openDurationMs, and then a call is |
| `CircuitBreaker.OpenSpell` | packages/shared/src/engine/circuit-breaker.ts:46-101 | Under any interleaving an open breaker admits a call before its cool-down is over if and only if a late success was reported and fewer late failures than the threshold after it |
| `CircuitBreaker.CoolDownHolds` | packages/shared/src/engine/circuit-breaker.ts:46-101 | The same for each call of every run from a fresh breaker, so never without a late success |
| `CircuitBreaker.LateReportCloses` | packages/shared/src/engine/circuit-breaker.ts:64-69 | The least run with such an early admission |
| `CircuitBreaker.Verify` | packages/shared/src/engine/client.ts:110-228 | At most three transport calls, only network errors and 5xx retried, the last attempt decides: what the caller gets and the one outcome the breaker is told, for each transport result; a refused call makes no attempt |
| `Replies.EnhancedCodeFound` | services/engine/smtpprobe.go:52-68 | A status code at the head of a reply (RFC 3463) is found whole, after any blanks and whatever follows |
| `Replies.PrefixesRead` | services/engine/smtpprobe.go:84-108 | The textual prefixes stand for a class and subject, and the first digit of the detail |
| `Replies.StatusDecides` | services/engine/smtpprobe.go:55-109 | A refusal with a status code and no telling word is classified by its class, subject and detail, and for 550, 551 and 553 by the reply code if those say nothing |
| `Replies.ReplyExactly` | services/engine/smtpprobe.go:55-109 | An if-and-only-if for each kind of reply by code, status and words: 2xx, then 4xx by what they say, then refusals with blocks before full before disabled before unknown |
| `Replies.ContainsIsSubstring` | services/engine/smtpprobe.go:75-82 | The word search finds exactly the substrings |
| `Replies.BlocksAreNoVerdict` | services/engine/smtpprobe.go:32-34 | A permanent refusal of the real recipient that names a block, or a 4xx that says neither full nor unknown, never leads to `valid` or `invalid` |
| `SmtpProbe.ProbeMailbox` | services/engine/smtpprobe.go:146-190 | The loop over hosts yields the first finding, stops at a cancelled request, and otherwise keeps the last failure |
| `SmtpProbe.HostComesTo` | services/engine/smtpprobe.go:196-307 | From the replies alone: which hosts count as having answered, and what such a host comes to; a refused greeting, HELO or MAIL is reported by its kind but never as a mailbox's; a failed STARTTLS leads to the plain conversation |
| `SmtpProbe.FirstReachedDecides` | services/engine/smtpprobe.go:173-185 | The first host that answers ends the walk |
| `SmtpProbe.WalkExactly` | services/engine/smtpprobe.go:146-190 | The walk comes to what the first host that answers comes to, and to nothing iff none answers before the request is cancelled |
| `SmtpProbe.LaterHostsUnasked` | services/engine/smtpprobe.go:176-180 | Whatever hosts follow the first that answers make no difference |
| `Verdicts.Describe` | services/engine/verify.go:125-146 | A lookup error is never described by the empty string, so it is never mistaken for success |
| `Verdicts.ProbeReported` | services/engine/verify.go:83-121 | Each field of the engine's SMTP result in terms of the replies in the deciding conversation |
| `Verdicts.ReasonExactly` | packages/core/src/aggregate.ts:115-201 | Over every conversation and host list, an if-and-only-if for each leading reason (and for none) in terms of syntax, DNS, policy, replies and cautions, which fixes the priority among them; a full mailbox never leads |
| `Verdicts.ReasonFixesVerdict` | packages/core/src/aggregate.ts:115-201 | The verdict and the score that go with each leading reason |
| `Verdicts.CodesExactly` | packages/core/src/aggregate.ts:101-112 | The leading reason first, and after it, for risky and unknown only, exactly the other cautions that apply, once and in fixed order |
| `Verdicts.LaterHostsDecideNothing` | packages/core/src/aggregate.ts:115-201 | Mail hosts after the first that answers change no decision |
| `Verdicts.VerdictsAreEarned` | packages/core/src/aggregate.ts:115-201 | Over every conversation and host list: `valid` iff the real recipient was accepted, any random one refused as a mailbox, and nothing else cautions; `invalid` iff bad syntax, authoritative absence of mail servers, or the real recipient refused as unknown, full or disabled (or nobody to ask for) |
| `Ipv6.CanonicalizeIpv6` | packages/shared/src/ssrf.ts:43-93 | The step-by-step expansion computes the specification on every text, failures included |
| `Ipv6.ExpandSide` | packages/shared/src/ssrf.ts:65-73 | One side's groups, or none as soon as one part is not one to four hexadecimal digits |
| `Ipv6.FullTextExpands` | packages/shared/src/ssrf.ts:43-93 | Eight group texts, whatever their leading zeros, expand to their values |
| `Ipv6.CompressedTextExpands` | packages/shared/src/ssrf.ts:75-85 | Up to eight group texts around one `::` expand with zeros between |
| `Ipv6.FullRoundTrip` | packages/shared/src/ssrf.ts:43-93 | All eight 16-bit groups are recovered from their full hexadecimal text |
| `Ipv6.CompressedRoundTrip` | packages/shared/src/ssrf.ts:75-85 | ... and from every text with one run of zero groups compressed |
| `Ipv6.FullQuadExpands` | packages/shared/src/ssrf.ts:48-63 | Six groups and a dotted quad expand to the groups and the quad's two |
| `Ipv6.CompressedQuadExpands` | packages/shared/src/ssrf.ts:48-63 | So does one `::` and a quad with a hexadecimal group before it |
| `Ipv6.BareCompressedQuad` | packages/shared/src/ssrf.ts:62 | A `::` directly before a quad yields null unless six groups stand before it |
| `Ipv6.CanonicalGroups` | packages/shared/src/ssrf.ts:92 | Whatever the text, the result is null or eight 16-bit groups |
| `Ipv6.CanonicalExactly` | packages/shared/src/ssrf.ts:43-93 | Exactly which texts expand, and to what: eight groups, or up to eight around one `::`; six such and a dotted quad after one colon, or after two |
| `Ipv6.MappedIsItsIpv4` | packages/shared/src/ssrf.ts:122-125 | Any text that expands to a mapped address is as private as the embedded IPv4 address |
| `Ipv6.MappedFormsAgree` | packages/shared/src/ssrf.ts:95-147 | The dotted and the hexadecimal spelling of a mapped address are classified like the IPv4 text |
| `Ipv6.PrivateExactly` | packages/shared/src/ssrf.ts:95-147 | Eight groups are private if and only if they are ::1, a mapped address in one of six IPv4 ranges, in fc00::/7 or in fe80::/10 |
| `Ipv6.PrivateTextExactly` | packages/shared/src/ssrf.ts:25-36 | An IPv6 text is refused if and only if it does not expand or lies in those ranges |
| `Ipv6.UnspecifiedIsPublic` | packages/shared/src/ssrf.ts:95-129 | The unspecified address `::` lies in none of them |
| `Lifecycle.Sweep.DeleteObjects` | apps/worker/src/lifecycle/processor.ts:83 | Deletes some of the named objects and no other, all of them if it reports success |
| `Lifecycle.Sweep.ListExpired` | packages/db/src/lifecycle.ts:67-83 | At most a page of batches with `expiresAt` at or before `now`, and none only if there is none |
| `Lifecycle.Sweep.Drain` | apps/worker/src/lifecycle/processor.ts:75-89 | Terminates on the rows expired at the fixed `now`; stopped anywhere, every existing object keeps its tracking and everything that is to stay is there; finished, exactly the expired rows and their objects are gone |
| `Lifecycle.Sweep.PurgeOne` | apps/worker/src/lifecycle/processor.ts:102-110 | An organisation is stripped and marked only when its prefix is empty |
| `Lifecycle.Sweep.PurgeDue` | apps/worker/src/lifecycle/processor.ts:99-110 | All due organisations, safely at each point |
| `Lifecycle.HardDeleteSafe` | packages/db/src/lifecycle.ts:140-210 | Deleting an organisation's data with an empty prefix loses track of no object |
| `Lifecycle.RemoveRetiredSafe` | packages/db/src/lifecycle.ts:384-400 | Removing purged organisations without ledger rows loses track of no object |
| `Lifecycle.Sweep.RunLifecycleSweep` | apps/worker/src/lifecycle/processor.ts:63-155 | If any step stops or fails, each previously tracked object that still exists is still tracked, and every batch, object, check, lead, ledger row and organisation that is to stay is there; a full run leaves exactly those, with purged organisations marked |
| `Lifecycle.ResultLeaves` | apps/worker/src/lifecycle/processor.ts:63-155 | The result of a full run with plain conditions on the old store: unexpired and not of an organisation deleted 30 days ago or more; objects not of an expired batch and no export older than a day; organisations gone iff purged and without ledger rows after the cutoff |
| `Lifecycle.SparesTransitive` | apps/worker/src/lifecycle/processor.ts:63-155 | Sparing what is to stay composes over the steps of a sweep |
| `Lifecycle.ResultIsSwept` | apps/worker/src/lifecycle/processor.ts:63-155 | A full run leaves nothing for a sweep at the same instant |
| `Lifecycle.SecondSweepIsIdle` | apps/worker/src/lifecycle/processor.ts:63-155 | A second sweep at the same instant changes nothing but the audit log |
| `Pagination.OrderByIsSorted` | packages/db/src/batches.ts:166-171 | ORDER BY (created_at, id) is a strictly sorted permutation, ties included |
| `Pagination.WhereOrderBy` | packages/db/src/batches.ts:154-171 | Filtering by organisation and cursor commutes with sorting |
| `Pagination.RestOfListing` | packages/db/src/batches.ts:154-171 | The query from the key of the k-th row returns exactly the rows after it |
| `Pagination.ListPageExactly` | packages/db/src/batches.ts:166-181 | A page from position k holds the next `limit` rows, and a cursor iff more follow |
| `Pagination.ExportPageExactly` | packages/db/src/export.ts:27-52 | An export page holds the next rows up to its size, and a key iff it is full |
| `Pagination.WalkList` | packages/db/src/batches.ts:147-182 | Following cursors from the first page visits each row of the organisation exactly once, newest first, and stops, for every page size of at least 1 |
| `Pagination.WalkExport` | packages/db/src/export.ts:27-52 | The export's reader does the same by id, also when the page size divides the row count |
| `Statement.MonthLength` | packages/db/src/billing.ts:183-184 | Date.UTC of the following month index is one calendar month later, over year ends and leap years |
| `Statement.DaysListed` | packages/db/src/billing.ts:183-184 | The month lengths, leap years included |
| `Statement.ReadMonthInjective` | packages/db/src/billing.ts:176-182 | Different accepted texts are different months |
| `Statement.MonthsTileTime` | packages/db/src/billing.ts:176-186 | Every instant of 2020 to 2100 lies in exactly one accepted month |
| `Statement.StatementAddsUp` | packages/db/src/billing.ts:194-242 | closing = opening + granted - consumed + refunded + adjustments = sum of all deltas before the month's end |
| `Statement.StatementsChain` | packages/db/src/billing.ts:194-242 | A month closes at what the next month opens with |
| `Statement.EntryShiftsOneFigure` | packages/db/src/billing.ts:202-238 | One more ledger row shifts the opening balance, or the figure of its own reason, or nothing, and the closing balance with it |
| `Statement.EmptyStatement` | packages/db/src/billing.ts:202-238 | Without entries every figure is 0 |
| `Statement.StatementMatchesHistory` | packages/db/src/billing.ts:205-215 | The entries are the month's, oldest first, and the last one's running balance is the closing balance |
| `Statement.RunningIsSuffix` | packages/db/src/checks.ts:386-414 | Each running balance is the sum of the entries listed from there on |
| `Statement.NewestRunningIsBalance` | packages/db/src/credits.ts:12-21 | The newest running balance is the credit balance, which is 0 without entries |

## Left out

- Ledger purge after three years (packages/db/src/lifecycle.ts:366-376): it can remove a grant and keep later spends, so balances and reference uniqueness are stated for runs without it; the sweep model includes it as a deletion.
- Batch rows removed by expiry or a data wipe go without a refund whatever their status, as in the code; status claims are about rows that still exist.
- CacheWindow.PaidChecksAreSpaced: one clock serves application and database; skew between them is not modelled.
- BatchProcessor.Job.ProcessBatch: no two addresses of the file may share a SHA-256 hash (the code would drop the second one's rows), and answers are fixed per address during a batch; writing is a sequence append, not a stream with back-pressure.
- Node's isIP, which admits only dotted decimals to the IPv4 classifier, and the trimming and lower-casing before it: the models start behind them.
- ResultCodec.RoundTripsExactly: scores are natural numbers, as the aggregator produces.
- Throttle.ProbesPerWindow: tokens are unique and the clock does not go back; lease and key lifetimes, which Redis measures on its own clock, run on the workers' clock here, and Throttle.LimiterHolds and SlidingWindow.ExpiryDropsNothing share this; a window limit of 0, for which the script would have no oldest entry, is excluded.
- Lifecycle.Sweep.RunLifecycleSweep: no upload starts while it runs; users, keys, invoices and other child rows of a purged organisation are one deletion of its batches and checks.
- Statement.RunningIsSuffix: the history page's date range and limit only drop lines and are not modelled.
- Timestamps have millisecond resolution, like the cursors; PostgreSQL keeps microseconds.
- Cursor text (base64url of an ISO date and an id) and the rejection of malformed cursors.
- csv-parse, address normalisation, header-name matching, SHA-256, HMAC and random identifiers are inputs; batch identifiers are drawn fresh.
- The freshest-row choice of the cache lookups, and the snapshot stored with a check: only whether a reusable row exists matters to the credits.
- MX record sorting, typo tables and TLD repair: straight lookups.
- Webhooks, HTTP routes other than the upload's publish step, sessions, MFA, API keys, metrics, user interfaces: plumbing.
- Batches stuck in `processing` after a worker crash: the code promises no progress for them.
