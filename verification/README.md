# A verified model of the shipment backend

This project models the parts of the backend whose correctness depends on many
steps or on several functions at once, and proves what they promise: which
interleavings the chain submission queue allows, what the indexer leaves behind
after crashes, which payloads hash alike, what a shipment's history can look
like, and how the state kept in Redis behaves over time.

| file | subject |
|---|---|
| `Common.dfy` | option and result types, list operations |
| `Serializer.dfy` | the per-key task queue, as a transition system over promise callbacks and as the class |
| `Submission.dfy` | load, build, sign, submit inside that queue, against a ledger that others write too |
| `ChainStream.dfy` | the paged event stream (modules `Paging` and `ChainStream`) |
| `Indexer.dfy` | the indexer worker under crashes, lost saves and failed cursor reads |
| `CanonicalText.dfy` | the text that is hashed: normalisation, JSON printing, whitespace removal |
| `Csv.dfy` | the CSV export and a reader for it |
| `Lifecycle.dfy` | the transition table, single and bulk status updates, escrow release |
| `Timeline.dfy` | the merged timeline and its cursor pages (modules `CursorPages` and `Timeline`) |
| `MemoryRedis.dfy` | the in-memory Redis: lazily expiring strings, and lists |
| `RecentEvents.dfy` | the recent-events window |
| `RateLimit.dfy` | the rate-limit store on Redis and its fallback map |
| `AuthTokens.dfy` | token refresh, logout and the blocklist |
| `Settlement.dfy` | settlement totals and the daily sparkline, on the Gregorian calendar |
| `Speed.dfy` | the average speed behind the arrival estimate |

Code that changes state step by step appears twice: as functions on values, about
which the theorems speak, and as a class or method in the form of the source
whose contract says that it computes those functions. Clocks, the database and
failures of the outside world are parameters: a time, a list of rows, a fate.

## Where the code does not do what one might expect

Each of these is stated exactly, with the condition under which the code meets
the expectation and a concrete case in which it does not.

- A bulk update that lists an acceptable shipment twice writes its milestone
  twice, and on delivery asks for its escrow release twice, because every id is
  judged by the documents fetched before the loop and the payment lookup does not
  look at the payment's status (`Lifecycle.BulkIsOneByOneIff`,
  `Lifecycle.BulkKeepsPathIff`, `Lifecycle.BulkReleasesOnceIff`, and over whole
  runs `Lifecycle.LawfulIffWrittenOnce` and `Lifecycle.ReleasedOnceInRunIff`; case:
  `Lifecycle.TwiceListedReleasesTwice`). The request schema
  (src/modules/shipments/shipments.validation.ts:83-86) does not exclude such lists.
- Timeline pages lose or repeat events, or never end, when two events before the
  last share a cursor key (`CursorPages.CompleteForEveryLimitIff`; case:
  `Timeline.RepeatedKeyNeverEnds`). Lawful histories have no such events.
- When a cursor read fails silently and two events share a transaction hash, the
  indexer can keep the metadata of the older one (`Indexer.FailedReadsConvergeIff`;
  case: `Indexer.SharedHashDiverges`).
- `del` of the in-memory Redis counts strings that have already expired
  (`MemoryRedis.DelCountsIff`; case: `MemoryRedis.DelCountsExpired`).
- A rate-limit decrement shows on the Redis path, but not on the fallback path,
  unless it leaves a live counter above zero; and the two paths agree on reset
  times only for windows of whole seconds (`RateLimit.DecrementIsSafeIff`,
  `RateLimit.FirstHitAgreesIff`; cases: `RateLimit.DecrementToZeroShows`,
  `RateLimit.HalfSecondShows`).
- The block that logout sets ends inside the second in which the token expires;
  for the rest of that second refresh still takes the token
  (`AuthTokens.LogoutIsFinalExceptIff`; case: `AuthTokens.LogoutReopens`). The check
  on protected routes never does (`AuthTokens.LoggedOutIsNeverAccepted`).
- The sparkline misses released payments dated after today, which the total
  includes (`Settlement.ConservedIff`; case: `Settlement.TomorrowIsMissed`).
- Strings that differ only in white space hash alike (`CanonicalText.SameTextIff`;
  case: `CanonicalText.WhitespaceCollides`); docs/blockchain.md:241-247 documents
  this.

## Model

| member | source | states |
|---|---|---|
| Serializer.ReachableValid | src/services/chain/serializer.ts:9-24 | Every reachable state, under any interleaving of calls, starts, settlements, tail resolutions and cleanups over any keys, has exact promise chains and an exact tail map |
| Serializer.MutualExclusion | src/services/chain/serializer.ts:2-14 | In every reachable state at most one task per key is running, even after its key vanished from the map and came back |
| Serializer.StartEnabledIff | src/services/chain/serializer.ts:7-18 | A waiting task can start exactly when all earlier tasks of its key have resolved their tails, whether they succeeded or failed |
| Serializer.StartsFollowCalls | src/services/chain/serializer.ts:2-14 | The start order of a key's tasks is a prefix of the call order: same order, none skipped |
| Serializer.TailsExact | src/services/chain/serializer.ts:13-22 | A key is mapped exactly while its latest task awaits cleanup, and to that task; an unmapped key has no unresolved task |
| Serializer.LateCleanupKeepsNewer | src/services/chain/serializer.ts:20-22 | The cleanup of a superseded tail changes nothing in the map |
| Serializer.BusyKeysAreMapped | src/services/chain/serializer.ts:19-29 | The mapped keys are exactly those whose latest task is not cleaned up, and include every key with queued or running work |
| Serializer.QuietMeansEmpty | src/services/chain/serializer.ts:20-29 | Once all callbacks have fired the map is empty |
| Serializer.StepsTerminate | src/services/chain/serializer.ts:12-24 | Every step except a new call uses up one unit of outstanding work |
| Serializer.NeverStuck | src/services/chain/serializer.ts:7-24 | While a task is unfinished, it or an older one can take a step |
| Serializer.KeyedSerializer.Run | src/services/chain/serializer.ts:12-24 | The method appends a task chained to the key's current tail and makes it the tail, keeping the invariant |
| Serializer.KeyedSerializer.OnTailResolved | src/services/chain/serializer.ts:20-22 | The cleanup callback forgets the key only while it still names that tail |
| Serializer.KeyedSerializer.RuntimeStep | src/services/chain/serializer.ts:14-18 | Starting, settling and resolving leave the map alone and keep the invariant |
| Serializer.KeyedSerializer.ActiveKeys | src/services/chain/serializer.ts:26-29 | The number of keys whose latest task awaits its cleanup, which leaves out no key with queued or running work |
| Submission.ReachableValid | src/services/chain/simulated.adapter.ts:211-241 | The invariant tying queue, promise chains, attempts and every account's history holds in every reachable state |
| Submission.BoundedAndAtMostOnce | src/services/chain/simulated.adapter.ts:217-239 | With arbitrary outside writers a call submits at most three times and lands at most once; it reports a bad sequence exactly after three rejections, each overtaken by an outside write |
| Submission.AloneNeverRejected | src/services/chain/simulated.adapter.ts:215-232 | On an account without outside writers every loaded sequence number stays current until it is used, and no attempt is rejected |
| Submission.LandInCallOrder | src/services/chain/simulated.adapter.ts:215-239 | The entries of this process in an account's history are exactly its applied calls, in call order |
| Submission.LoadGate | tests/chain.signing-concurrency.test.ts:98-140 | With no outside writer and no other failure, once all calls have settled the account's history is the list of calls, in order |
| Submission.CallsComplete | src/services/chain/simulated.adapter.ts:219-239 | No amount of outside writing keeps a call going for ever: some step of it or of an older call is possible, and each uses up part of a bounded budget |
| Submission.SubmitManageData | src/services/chain/simulated.adapter.ts:219-239 | The retry loop succeeds on the first undisturbed attempt, at the position after all outside writes so far; gives up at once when a load or a submission fails otherwise; and reports a bad sequence after the third disturbed attempt |
| ChainStream.FirstAnchorMeaning | src/services/chain/simulated.adapter.ts:266-284 | The loop over operations finds the first well-formed anchor entry, if there is one |
| ChainStream.AnchorOfMeaning | src/services/chain/simulated.adapter.ts:255-285 | A record yields an event exactly when it succeeded, decodes and holds a well-formed anchor entry |
| ChainStream.AnchorOfSays | src/services/chain/simulated.adapter.ts:255-285 | A record is read as an event if and only if its first well-shaped entry is telemetry:<shipment> with the event's data hash as its value, and token, transaction hash and ledger are those of the record |
| ChainStream.EntryIsAnchorIff | src/services/chain/simulated.adapter.ts:267-271 | An entry is taken exactly when the shipment id has 1 to 32 letters, digits or underscores and the hash is 64 lower-case hexadecimal digits |
| ChainStream.ToAnchorEvent | src/services/chain/simulated.adapter.ts:255-285 | The method with the early return computes that event |
| ChainStream.AfterIsExactlyNewer | src/services/chain/simulated.adapter.ts:190-198 | What is listed after a cursor is exactly what is strictly newer |
| ChainStream.ResumeIsExact | src/services/chain/simulated.adapter.ts:186-201 | Resuming from the id of any yielded event yields exactly the events after it |
| ChainStream.StreamAscends | src/services/chain/simulated.adapter.ts:186-201 | Event ids ascend strictly, so none is yielded twice |
| ChainStream.EventOrigin | src/services/chain/simulated.adapter.ts:273-282 | Every event carries the token and hash of a transaction in the history |
| ChainStream.StreamSays | src/services/chain/simulated.adapter.ts:186-201 | The stream from a cursor holds exactly the events that records past the cursor stand for, read entry by entry |
| ChainStream.Horizon.ListTransactions | src/services/chain/simulated.adapter.ts:191-193 | One page: the first records after the cursor, at most the limit |
| ChainStream.StreamEvents | src/services/chain/simulated.adapter.ts:186-201 | The paging loop ends and has yielded, in order and once each, exactly the anchor events after the cursor, for any history length and with transactions arriving between pages |
| Indexer.OverwrittenAgree | src/workers/stellar-indexer.worker.ts:107-123 | Ledgers that differ only in what later events overwrite end up equal |
| Indexer.ReplayAbsorbs | src/workers/stellar-indexer.worker.ts:107-131 | Having applied an event already does not change the outcome of a replay that contains it |
| Indexer.ProcessConverges | src/workers/stellar-indexer.worker.ts:70-132 | A run cut anywhere, with any saves lost, leaves a state from which a restart converges; run to the end it has converged |
| Indexer.Convergence | src/workers/stellar-indexer.worker.ts:35-135 | With reliable cursor reads, any runs cut at any points and with any saves lost, then one run to the end, leave the ledger of one uninterrupted run, even when events share a transaction hash |
| Indexer.FaithfulIsCompleteIff | src/workers/stellar-indexer.worker.ts:107-123 | With one event per hash a ledger of true blocks is the final one exactly when none is missing |
| Indexer.AnyRestartConverges | src/workers/stellar-indexer.worker.ts:62-135 | With one event per hash, a run from any position whose earlier events are indexed completes the ledger |
| Indexer.UniqueConvergence | src/workers/stellar-indexer.worker.ts:35-135 | With one event per hash convergence survives failed cursor reads too |
| Indexer.SimulatedStreamIsUnique | src/services/chain/simulated.adapter.ts:255-285 | The simulated adapter's stream has one event per transaction, so it is of that kind |
| Indexer.LastWriterWins | src/workers/stellar-indexer.worker.ts:116-120 | A block carries the metadata of the last event written under its hash |
| Indexer.LastEventTells | src/workers/stellar-indexer.worker.ts:76-120 | The last event of a transaction decides its block: an anchor gives IN_TRANSIT and its data hash, an escrow init SETTLEMENT_INITIATED with payment, payer, payee, token and amount, a release SETTLEMENT_COMPLETED with proof hash, receiver and amount, each with the event's ledger, contract and id |
| Indexer.FirstEventTells | src/workers/stellar-indexer.worker.ts:84-115 | The first event of a transaction decides the shipment id and the actor of its block |
| Indexer.LastAnchorTells | src/workers/stellar-indexer.worker.ts:119 | The last anchor of a transaction decides its data hash, whatever follows it |
| Indexer.NoAnchorNoHash | src/workers/stellar-indexer.worker.ts:119 | A transaction without anchors has no data hash |
| Indexer.BlocksAreTransactions | src/workers/stellar-indexer.worker.ts:107-123 | There is a block for a hash exactly when some event of the history carries it |
| Indexer.ResumesAfter | src/workers/stellar-indexer.worker.ts:66-70 | A run takes exactly the events after its cursor |
| Indexer.SimulatedBlocks | src/services/chain/simulated.adapter.ts:255-285 | Indexed, every anchoring transaction of the simulated chain gives an IN_TRANSIT block with the shipment and the hash of its entry |
| Indexer.RunWrites | src/workers/stellar-indexer.worker.ts:70-132 | A run writes the events it has time for, in order, up to and including the one it does not survive |
| Indexer.RunStores | src/workers/stellar-indexer.worker.ts:129-131 | The stored cursor is the id of the last event whose save arrived, or what it was |
| Indexer.SharedHashDiverges | src/workers/stellar-indexer.worker.ts:35-42 | If two events share a hash, a failed read and a cut run can leave another ledger |
| Indexer.FailedReadsConvergeIff | src/workers/stellar-indexer.worker.ts:35-135 | When cursor reads may fail, every schedule converges if and only if no two events share a transaction hash |
| Indexer.Worker.UpsertBlock | src/workers/stellar-indexer.worker.ts:107-127 | One upsert; it reports an insertion exactly when the hash was new (what the block then says: LastEventTells, FirstEventTells, LastAnchorTells) |
| Indexer.Worker.TakeEvent | src/workers/stellar-indexer.worker.ts:107-131 | One event: upsert, then the save of the cursor unless it is lost or never reached |
| Indexer.Worker.Consume | src/workers/stellar-indexer.worker.ts:70-132 | The loop computes the run on blocks and stored cursor, and counts events and new blocks |
| Indexer.Worker.IndexStellarTransactions | src/workers/stellar-indexer.worker.ts:62-135 | The whole call from a stored, missing or given cursor, with its summary |
| CanonicalText.NormalizeMeans | src/shared/utils/crypto.ts:3-29 | Normalising yields sorted keys without undefined members and keeps the meaning |
| CanonicalText.NormalIsCanonical | src/shared/utils/crypto.ts:17-28 | Two normal trees of one meaning print alike |
| CanonicalText.NormalizeDecidesMeaning | src/shared/utils/crypto.ts:3-29 | Normalisation forgets exactly key order, undefined members, and whether a date was already text |
| CanonicalText.NormalizeIdempotent | src/shared/utils/crypto.ts:3-29 | Normalising twice is normalising once |
| CanonicalText.PrintReadsBack | src/shared/utils/crypto.ts:33 | Printed text, read by RFC 8259 sections 3 to 7, gives the value back and leaves what follows: digits by their value, escapes by their character, literals, arrays and objects |
| CanonicalText.DigitsReadBack | src/shared/utils/crypto.ts:33 | The digits of a number stand for it, without a superfluous zero in front |
| CanonicalText.EscapeReadsBack | src/shared/utils/crypto.ts:33 | Each string escape stands for its character |
| CanonicalText.EscapesAreShort | src/shared/utils/crypto.ts:33 | A character is escaped only where it must be, by two characters where there is a short form and by lower-case hexadecimal otherwise |
| CanonicalText.PrintReads | src/shared/utils/crypto.ts:33 | So the printer is injective and no printed value begins another |
| CanonicalText.StripPrint | src/shared/utils/crypto.ts:33-35 | Stripping whitespace from the printed text equals printing the tree with literal whitespace erased |
| CanonicalText.StripErases | src/shared/utils/crypto.ts:35 | Erasing takes each of the 25 white-space characters out wherever it stands, and nothing else |
| CanonicalText.HashedTextReadsBack | src/shared/utils/crypto.ts:31-36 | The hashed text, read as JSON, is the normalised payload with literal whitespace gone from strings and keys |
| CanonicalText.HashedTextMeans | src/shared/utils/crypto.ts:31-36 | Without literal whitespace the hashed text, read as JSON, means what the payload means |
| CanonicalText.BeforeMeaning | src/shared/utils/crypto.ts:18 | Keys are in lexicographic order: the first difference decides |
| CanonicalText.NormalizedAway | src/shared/utils/crypto.ts:6-25 | A date hashes like its ISO text, an undefined item like null, an undefined member like none, and an undefined payload not at all |
| CanonicalText.ShipmentPayloadIsSorted | src/shared/utils/crypto.ts:51-61 | The canonical shipment payload has its members in key order already |
| CanonicalText.ShipmentTextReads | src/shared/utils/crypto.ts:31-61 | Its hashed text reads as actor, event, metadata, shipmentId, timestamp and v = 1, in this order, but for literal whitespace |
| CanonicalText.SameTextIff | src/shared/utils/crypto.ts:31-36 | Two payloads give the same text to hash if and only if their normalised trees agree after erasing literal whitespace in strings and keys |
| CanonicalText.MeaningDecidesText | src/shared/utils/crypto.ts:31-36 | Payloads of equal meaning always hash the same text |
| CanonicalText.TextDecidesMeaning | src/shared/utils/crypto.ts:31-36 | Among payloads without literal whitespace, the same text if and only if the same meaning |
| CanonicalText.WhitespaceCollides | docs/blockchain.md:241-247 | Every string with literal whitespace hashes like a different string |
| CanonicalText.NormalizeForDeterministicJson | src/shared/utils/crypto.ts:3-29 | The recursive method with its loop over sorted keys computes the normal form |
| Csv.QuotedReadsBack | src/modules/shipments/shipments.service.ts:1230 | A quoted cell reads back exactly, up to its closing quote, whatever it contains |
| Csv.ExportReadsBack | src/modules/shipments/shipments.service.ts:1220-1235 | Reading the export by RFC 4180 section 2 (with LF) gives the header and exactly the original cells |
| Csv.ExportShows | src/modules/shipments/shipments.service.ts:1220-1235 | Read back, line 0 is the header and line i + 1 is shipment i, each field as it is and empty where there is none |
| Csv.CellsAreQuoted | src/modules/shipments/shipments.service.ts:1230 | Every cell stands in quotes and is longer by those and one more for each quote inside |
| Csv.HeaderReadsBack | src/modules/shipments/shipments.service.ts:1221-1229 | The header line reads as the seven column names |
| Csv.ExportIsInjective | src/modules/shipments/shipments.service.ts:1220-1235 | Two exports are the same text if and only if all cells are the same |
| Lifecycle.TransitionLaw | src/shared/constants/shipmentStateMachine.ts:4-26 | The law of the table, both ways: a step along the course is allowed exactly forward without jumping over IN_TRANSIT, DELIVERED or SETTLEMENT_INITIATED, a step to CANCELLED exactly before delivery, and none from there |
| Lifecycle.CourseCovers | src/shared/constants/shipmentStateMachine.ts:4-26 | Every status but CANCELLED is on the course, once |
| Lifecycle.BulkAccountsForAll | src/modules/shipments/shipments.service.ts:760-903 | Updated count plus failures is the number of ids, and the failed ids keep the order of the input, whatever fails outside |
| Lifecycle.BulkReports | src/modules/shipments/shipments.service.ts:776-898 | The report holds a failure if and only if some occurrence of the id, by the checks or by what happened outside, has that reason |
| Lifecycle.ReasonsAre | src/modules/shipments/shipments.service.ts:776-898 | Which reason an occurrence gets: unknown or vanished, foreign, unlisted transition, broken write or follow-up, or none; each exactly when |
| Lifecycle.AcceptedIff | src/modules/shipments/shipments.service.ts:776-798 | Acceptable are exactly the found shipments of the organization for which the table lists the step |
| Lifecycle.SameKeys | src/modules/shipments/shipments.service.ts:760-903 | A bulk update adds and removes no shipment and makes no payment, whatever fails outside |
| Lifecycle.BulkPushesEachTime | src/modules/shipments/shipments.service.ts:773-838 | Under any outside failures the bulk loop pushes one milestone per written occurrence of an acceptable id |
| Lifecycle.BulkAsksEachTime | src/modules/shipments/shipments.service.ts:849-867 | Under any outside failures a bulk delivery asks for one escrow release per occurrence that gets that far, if there is a payment |
| Lifecycle.BulkMoves | src/modules/shipments/shipments.service.ts:780-899 | Under any outside failures a shipment written at most once moves by at most one allowed step, and a release is asked for only on entering DELIVERED with a payment |
| Lifecycle.BulkSparesOthers | src/modules/shipments/shipments.service.ts:780-899 | Shipments that are not listed, or not acceptable, keep their document and their releases |
| Lifecycle.ReleasedOnceIff | src/modules/shipments/shipments.service.ts:658-710 | A lawful single update asks for one release exactly when it delivers a shipment with a payment and nothing breaks before that |
| Lifecycle.BulkReleasesOnceIff | src/modules/shipments/shipments.service.ts:773-867 | A bulk update asks for at most one release of a shipment if and only if it does not deliver it, there is no payment, it is not acceptable, or at most one occurrence gets that far |
| Lifecycle.BulkReleasesOnceForAnyFatesIff | src/modules/shipments/shipments.service.ts:773-867 | Whatever happens outside, at most one release is asked for if and only if a shipment to be delivered, paid for and acceptable is listed at most once |
| Lifecycle.OneByOnePushesOnce | src/modules/shipments/shipments.service.ts:570-626 | One by one, a second written update of the same shipment to the same status does nothing |
| Lifecycle.BulkIsOneByOneIff | src/modules/shipments/shipments.service.ts:760-903 | Under any outside failures bulk and one-by-one updates leave the same store, releases included, if and only if no acceptable id is written twice |
| Lifecycle.BulkIsOneByOneForAnyFatesIff | src/modules/shipments/shipments.service.ts:760-903 | They do so whatever happens outside if and only if no acceptable id is listed twice, which a caller can tell before the call |
| Lifecycle.PathClimbs | src/shared/constants/shipmentStateMachine.ts:4-26 | Along a path of transitions the rank grows strictly, so it bounds the number of milestones |
| Lifecycle.PastTransit | src/shared/constants/shipmentStateMachine.ts:4-26 | Everything past transit, short of cancellation, comes after IN_TRANSIT |
| Lifecycle.PathShape | src/shared/constants/shipmentStateMachine.ts:4-42 | A path has at most seven entries, repeats none, delivers only after transit and never both delivers and cancels |
| Lifecycle.RepeatIsNoPath | src/shared/constants/shipmentStateMachine.ts:4-26 | A lawful status appended several times leaves a lawful path if and only if it is appended at most once |
| Lifecycle.BulkKeepsPathIff | src/modules/shipments/shipments.service.ts:780-838 | Under any outside failures a bulk update leaves a lawful history if and only if the shipment had one and is not acceptable or written at most once |
| Lifecycle.BeginningsAre | src/modules/shipments/shipments.model.ts:43-46 | A new shipment starts as CREATED without milestones, and a payment only adds itself |
| Lifecycle.LawfulIffWrittenOnce | src/modules/shipments/shipments.service.ts:570-903 | Along every run of creations, payments, single and bulk updates, with any lists of ids and any failures, a shipment has a lawful history ending in its status if and only if no bulk update wrote it twice |
| Lifecycle.ReleasedOnceInRunIff | src/modules/shipments/shipments.service.ts:570-903 | Along every such run releases are asked for only after delivery and payment, and at most once if and only if no bulk delivery of the shipment got that far twice |
| Lifecycle.LifecycleIsSafe | src/modules/shipments/shipments.service.ts:570-903 | So a shipment that no bulk update wrote twice has at most seven milestones, none repeated, delivery only after transit and never with cancellation, and at most one release, whatever happened to the others |
| Lifecycle.TwiceListedReleasesTwice | src/modules/shipments/shipments.service.ts:773-867 | One bulk delivery that names a paid shipment twice gives two milestones and two releases |
| Lifecycle.EveryPathHappens | src/shared/constants/shipmentStateMachine.ts:4-42 | Conversely every lawful path is the history of a shipment in some run |
| Lifecycle.ShipmentStore.ReleaseEscrowOnDelivery | src/modules/shipments/shipments.service.ts:847-870 | A release is asked for exactly on delivery of a shipment with a payment, unless the lookup throws, which is caught |
| Lifecycle.ShipmentStore.UpdateShipmentStatus | src/modules/shipments/shipments.service.ts:570-710 | The single update: its new state, and when it answers missing, unchanged, invalid or changed |
| Lifecycle.ShipmentStore.WriteOne | src/modules/shipments/shipments.service.ts:833-898 | Write and follow-up of one id in the bulk loop, under each outside failure |
| Lifecycle.ShipmentStore.BulkTurn | src/modules/shipments/shipments.service.ts:776-898 | One turn of the loop: the checks on the fetched document, then the write |
| Lifecycle.ShipmentStore.BulkUpdateShipmentStatus | src/modules/shipments/shipments.service.ts:760-903 | The loop computes the bulk update and its report |
| CursorPages.FindsFirst | src/modules/shipments/shipments.service.ts:487 | The lookup finds the first entry with the key |
| CursorPages.StartIs | src/modules/shipments/shipments.service.ts:485-488 | A page starts right behind the first entry with the cursor's key, and at the beginning without a cursor or with an unknown one |
| CursorPages.PageShows | src/modules/shipments/shipments.service.ts:489-499 | A page shows the next entries up to the limit, says exactly whether more are left, and then gives the key of the last one shown |
| CursorPages.FollowReachesEnd | src/modules/shipments/shipments.service.ts:485-499 | Pages that end show at least everything from the starting position on |
| CursorPages.CompleteIff | src/modules/shipments/shipments.service.ts:485-499 | For one page size, following the cursors shows exactly the list if and only if each page but the last ends with the first entry of its key |
| CursorPages.CompleteForEveryLimitIff | src/modules/shipments/shipments.service.ts:485-499 | For all page sizes of at least one: if and only if the keys of all entries but the last differ |
| Timeline.KeyIdentifies | src/modules/shipments/shipments.service.ts:359-361 | Two events have the same cursor key if and only if they are the same event |
| Timeline.KeyTexts | src/modules/shipments/shipments.service.ts:359-477 | The keys as texts: timestamp, bar, and the kind with its status or id |
| Timeline.SortSorts | src/modules/shipments/shipments.service.ts:479-483 | The sort rearranges the events into ascending order, for any text collation |
| Timeline.SortedByTime | src/modules/shipments/shipments.service.ts:479-483 | In the sorted list times never go back, and events of tied times go by their keys |
| Timeline.SortIsStable | src/modules/shipments/shipments.service.ts:479-483 | Tied events keep their order, so every request sees the same list |
| Timeline.MergedHolds | src/modules/shipments/shipments.service.ts:397-477 | The merged list, place by place: every milestone, the proof if there is one, every telemetry row, every anomaly |
| Timeline.MergedOnce | src/modules/shipments/shipments.service.ts:399-477 | Milestones on a lawful path and rows with unique ids merge without repetition |
| Timeline.TimelineIsComplete | src/modules/shipments/shipments.service.ts:388-499 | For a shipment with a lawful history and every page size, following nextCursor ends and the pages are the sorted rearrangement of all its events, each once |
| Timeline.RepeatedKeyNeverEnds | src/modules/shipments/shipments.service.ts:485-499 | Two equal milestones before another event make a reader with page size one go round for ever |
| Timeline.BuildEvents | src/modules/shipments/shipments.service.ts:397-477 | The loops collect milestones, proof, telemetry and anomalies, in this order |
| Timeline.ReadPage | src/modules/shipments/shipments.service.ts:485-499 | Looking one entry ahead gives the page, whether more follows, and the next cursor |
| Timeline.GetShipmentTimeline | src/modules/shipments/shipments.service.ts:388-499 | The request as a whole |
| MemoryRedis.StepRefines | src/infra/redis/connection.ts:25-123 | One command on the lazily expiring store leaves the live entries of a map that drops keys on time, and (except del) answers the same |
| MemoryRedis.DeleteRemoves | src/infra/redis/connection.ts:83-91 | del removes exactly the listed keys, as strings and as lists, and counts each stored string and list once |
| MemoryRedis.DelCountsIff | src/infra/redis/connection.ts:83-91 | The count of del is that of a store that drops strings on time if and only if no listed key is stored past its expiry |
| MemoryRedis.DelCountsExpired | src/infra/redis/connection.ts:83-91 | A value that expired a minute ago still counts as deleted |
| MemoryRedis.RunsKeepLive | src/infra/redis/connection.ts:25-123 | The live entries agree after every run with a non-decreasing clock |
| MemoryRedis.RunsAnswerAlike | src/infra/redis/connection.ts:25-123 | Along every such run get, set, setex, exists, ttl, pttl, expire, incr and decr answer like the prompt map |
| MemoryRedis.LastOptionDecides | src/infra/redis/connection.ts:66-78 | The last EX or PX of set that is followed by a number fixes the expiry, in seconds or milliseconds |
| MemoryRedis.NoOptionNoExpiry | src/infra/redis/connection.ts:66-78 | Without such an option the value never expires |
| MemoryRedis.SetThenGetIff | src/infra/redis/connection.ts:63-82 | A value set for some seconds is read back at exactly the instants before they are over; set with EX is setex |
| MemoryRedis.TtlRoundsUp | src/infra/redis/connection.ts:95-109 | ttl is the least number of whole seconds covering what pttl reports, and both say -1 or -2 alike |
| MemoryRedis.ReadsTell | src/infra/redis/connection.ts:32-65 | get tells the value while it is held; pttl the milliseconds left, -1 without an expiry and -2 where nothing is held |
| MemoryRedis.ExistsCounts | src/infra/redis/connection.ts:92-94 | exists counts every listed position whose key is held |
| MemoryRedis.ExpireTells | src/infra/redis/connection.ts:101-106 | expire sets the expiry of what is held, keeps its value, and says whether it did |
| MemoryRedis.CountersTell | src/infra/redis/connection.ts:110-123 | incr and decr count from the number held, or from 0, and keep its expiry |
| MemoryRedis.OptionsTell | src/infra/redis/connection.ts:66-78 | Seconds after EX, milliseconds after PX, either also in small letters, and no other option |
| Common.SliceHolds | src/infra/redis/connection.ts:141-161 | A slice is the run of exactly the places within its bounds, negative ones counted from the end |
| MemoryRedis.DecrUndoesIncr | src/infra/redis/connection.ts:110-123 | decr takes back what incr did to a live counter, expiry included |
| MemoryRedis.StepSpares | src/infra/redis/connection.ts:62-123 | A command leaves every key alone that it does not name |
| MemoryRedis.InMemoryRedis.MemGetEntry | src/infra/redis/connection.ts:32-40 | Reads an entry and drops it when overdue |
| MemoryRedis.InMemoryRedis.MemTtlMs | src/infra/redis/connection.ts:42-52 | The remaining time, dropping an overdue entry |
| MemoryRedis.InMemoryRedis.GetCommand | src/infra/redis/connection.ts:63-65 | get as a step of the lazy store |
| MemoryRedis.InMemoryRedis.SetCommand | src/infra/redis/connection.ts:66-78 | set with its option loop: the last EX or PX followed by a number decides |
| MemoryRedis.InMemoryRedis.SetexCommand | src/infra/redis/connection.ts:79-82 | setex as a step |
| MemoryRedis.InMemoryRedis.DelCommand | src/infra/redis/connection.ts:83-91 | del with its counting loop over strings and lists |
| MemoryRedis.InMemoryRedis.ExistsCommand | src/infra/redis/connection.ts:92-94 | exists as a step, counting repeated keys repeatedly |
| MemoryRedis.InMemoryRedis.TtlCommand | src/infra/redis/connection.ts:95-100 | ttl as a step, rounding seconds up |
| MemoryRedis.InMemoryRedis.PttlCommand | src/infra/redis/connection.ts:107-109 | pttl as a step |
| MemoryRedis.InMemoryRedis.ExpireCommand | src/infra/redis/connection.ts:101-106 | expire as a step |
| MemoryRedis.InMemoryRedis.IncrCommand | src/infra/redis/connection.ts:110-116 | incr as a step; the expiry stays |
| MemoryRedis.InMemoryRedis.DecrCommand | src/infra/redis/connection.ts:117-123 | decr as a step; the expiry stays |
| MemoryRedis.InMemoryRedis.LpushCommand | src/infra/redis/connection.ts:135-140 | Values go to the front of one key's list, the last one named first |
| MemoryRedis.InMemoryRedis.LtrimCommand | src/infra/redis/connection.ts:141-145 | The list becomes the JavaScript slice up to and including stop |
| MemoryRedis.InMemoryRedis.LindexCommand | src/infra/redis/connection.ts:146-150 | One element, counted from the end when negative, or nothing |
| MemoryRedis.InMemoryRedis.RpopCommand | src/infra/redis/connection.ts:151-156 | The last element leaves the list, which stays stored even when empty |
| MemoryRedis.InMemoryRedis.LrangeCommand | src/infra/redis/connection.ts:157-161 | A range with negative bounds counted from the end |
| RecentEvents.EvictKeepsWindow | src/infra/redis/recentEvents.ts:49-64 | Evicting from the tail leaves exactly the events in the window |
| RecentEvents.PushMovesWindow | src/infra/redis/recentEvents.ts:37-64 | One push turns the window of the history so far into the window of the longer history |
| RecentEvents.WindowIsExact | src/infra/redis/recentEvents.ts:4-10 | After any run of pushes with non-decreasing times the list holds exactly those of the newest 500 published events that were not older than 60 s at the last push, newest first |
| RecentEvents.PollIsExactIff | src/infra/redis/recentEvents.ts:69-98 | A poll returns exactly the history after since, oldest first, if and only if at most 500 events are that new and none had left the window at the last push |
| RecentEvents.PollSeesAll | src/infra/redis/recentEvents.ts:69-98 | In particular for every since no earlier than that cutoff with at most 500 newer events |
| RecentEvents.FromHolds | src/infra/redis/recentEvents.ts:84-92 | Events are selected by their publish time alone |
| RecentEvents.RecentEventsStore.EvictStale | src/infra/redis/recentEvents.ts:49-64 | The eviction loop ends, evicts, and leaves other keys alone |
| RecentEvents.RecentEventsStore.PushRecentEvent | src/infra/redis/recentEvents.ts:37-64 | Push, cap and eviction as one step |
| RecentEvents.RecentEventsStore.GetRecentEventsSince | src/infra/redis/recentEvents.ts:78-98 | Filter and reversal compute the poll |
| RateLimit.RedisIncrementIs | src/shared/middleware/rateLimiter.ts:89-104 | incr, expire and pttl together count a hit in the live window or open a new one |
| RateLimit.RedisIncrementTells | src/shared/middleware/rateLimiter.ts:93-104 | On any live counter: one more hit, a new expiry if that makes it 1, and a window from now reported where there is no expiry |
| RateLimit.FallbackTells | src/shared/middleware/rateLimiter.ts:65-82 | The fallback map: one more hit on an open window, a new window otherwise, and a decrement not below zero |
| RateLimit.RedisDecrementTells | src/shared/middleware/rateLimiter.ts:113-139 | On Redis a decrement takes one off a live counter, keeps its expiry and makes any other -1; a reset removes it |
| RateLimit.IncrementAgrees | src/shared/middleware/rateLimiter.ts:65-104 | An increment gives the same hits and reset time on both paths and keeps them agreeing, for windows of whole seconds |
| RateLimit.ResetAgrees | src/shared/middleware/rateLimiter.ts:84-139 | So does a key reset |
| RateLimit.DecrementAgrees | src/shared/middleware/rateLimiter.ts:79-125 | So does a decrement that leaves a live counter above zero |
| RateLimit.DecrementIsSafeIff | src/shared/middleware/rateLimiter.ts:79-125 | A decrement goes unnoticed by the next increment, whenever it comes, if and only if it left a live counter above zero |
| RateLimit.FirstHitAgreesIff | src/shared/middleware/rateLimiter.ts:69-102 | The first hit of a window gets the same reset time on both paths if and only if the window is whole seconds |
| RateLimit.ForeignAgrees | src/shared/middleware/rateLimiter.ts:60-62 | Commands of others on keys without the prefix do not matter |
| RateLimit.RunsAgree | src/shared/middleware/rateLimiter.ts:65-139 | The paths agree after every run of increments, resets, such decrements and foreign commands |
| RateLimit.FreshPathsAgree | src/shared/middleware/rateLimiter.ts:41-50 | They agree to begin with |
| RateLimit.PathsAnswerAlike | src/shared/middleware/rateLimiter.ts:65-139 | After every such run the next increment of any key is answered alike |
| RateLimit.FirstHitIsOne | src/shared/middleware/rateLimiter.ts:89-104 | A hit on a key without a live counter is number 1 and sets the reset time to the end of the window |
| RateLimit.HitsAreNumbered | src/shared/middleware/rateLimiter.ts:89-104 | After a first hit, as long as its window lasts and nothing takes hits off the key, Redis numbers its hits 2, 3, ... and repeats the reset time of the first, whatever calls on other keys and foreign commands come in between |
| RateLimit.DecrementToZeroShows | src/shared/middleware/rateLimiter.ts:79-125 | A hit and a decrement ten seconds later: the next hit renews the window on Redis and not on the fallback map |
| RateLimit.HalfSecondShows | src/shared/middleware/rateLimiter.ts:69-102 | A window of a second and a half lasts two seconds on Redis |
| RateLimit.PrefixesSeparate | src/shared/middleware/rateLimiter.ts:159-203 | The four limiters share no counter |
| RateLimit.RedisRateLimitStore.GetRedis | src/shared/middleware/rateLimiter.ts:52-58 | The client is looked up once and kept |
| RateLimit.RedisRateLimitStore.IncrementFallback | src/shared/middleware/rateLimiter.ts:65-77 | The increment on the fallback map |
| RateLimit.RedisRateLimitStore.IncrementOnRedis | src/shared/middleware/rateLimiter.ts:93-104 | The commands of an increment, and what is left of them when one throws |
| RateLimit.RedisRateLimitStore.Increment | src/shared/middleware/rateLimiter.ts:89-111 | The increment on whichever path is in use, leaving the other alone; when Redis throws, the client is forgotten and the hit counts on the fallback map |
| RateLimit.RedisRateLimitStore.Decrement | src/shared/middleware/rateLimiter.ts:113-125 | The decrement on whichever path is in use; the fallback map takes it when Redis throws |
| RateLimit.RedisRateLimitStore.ResetKey | src/shared/middleware/rateLimiter.ts:127-139 | The key reset on whichever path is in use; the fallback map takes it when Redis throws |
| AuthTokens.ValidJtiIff | src/infra/redis/tokenBlocklist.ts:8-12 | The pattern of a version 4 UUID, place by place, in either case |
| AuthTokens.BlockKeyText | src/infra/redis/tokenBlocklist.ts:21-30 | The key is the prefix and the id in lower case |
| AuthTokens.BlockedIff | src/infra/redis/tokenBlocklist.ts:39-47 | An id is blocked exactly when its key holds an entry that is not overdue |
| AuthTokens.BlockKeysDiffer | src/infra/redis/tokenBlocklist.ts:21-30 | Different generated ids have different blocklist keys |
| AuthTokens.DoomedIsUseless | src/modules/auth/auth.service.ts:183-209 | A token blocked until it is too old for everything is never usable again |
| AuthTokens.RefreshDooms | src/modules/auth/auth.service.ts:220-226 | The block set by refresh outlasts both the old token's expiry and its grace window |
| AuthTokens.StepKeepsBlock | src/infra/redis/tokenBlocklist.ts:32-47 | No step of anyone lifts a block before its end, although overdue entries are swept and entries overwritten |
| AuthTokens.StepKeepsDoom | src/infra/redis/tokenBlocklist.ts:32-47 | So no step revives a token that is blocked until it is too old for everything |
| AuthTokens.StepSupersedes | src/modules/auth/auth.service.ts:183-237 | A step supersedes only the token that refresh hands over |
| AuthTokens.RunsKeepInv | src/modules/auth/auth.service.ts:183-259 | Along every run each superseded token is blocked for good |
| AuthTokens.OneUsableTokenPerLogin | src/modules/auth/auth.service.ts:183-259 | At every moment of every run of logins, checks, refreshes, logouts and foreign Redis commands, at most one token descended from a login is accepted by the check or by refresh: the newest |
| AuthTokens.SupersededStaysUseless | src/modules/auth/auth.service.ts:178-226 | A superseded token is useless for the rest of the run |
| AuthTokens.RefreshHandsOver | src/modules/auth/auth.service.ts:183-237 | Right after a refresh the new token is accepted until it expires, and the old one never again |
| AuthTokens.FreeTokenWorks | src/infra/redis/tokenBlocklist.ts:32-47 | Along every run a token that is neither refreshed nor logged out is accepted exactly until it expires |
| AuthTokens.RefreshIssuesIff | src/modules/auth/auth.service.ts:197-236 | A refresh issues the new token if and only if the user exists, the old one is not blocked and it is at most seven days old; the new one lives seven days |
| AuthTokens.FreeTokenRefreshes | src/modules/auth/auth.service.ts:197-236 | Along every run a token that is neither refreshed nor logged out can be refreshed exactly until seven days after its issue |
| AuthTokens.LoginLifetime | src/modules/auth/auth.service.ts:27-35 | Along every run a login token nobody refreshes or logs out is accepted for seven days and refreshed up to and including the second in which they end |
| AuthTokens.RefreshBlocksFor | src/modules/auth/auth.service.ts:219-226 | Refresh blocks the old token for the rest of its life, if any, and seven days more |
| AuthTokens.LogoutBlocksFor | src/modules/auth/auth.service.ts:253-258 | Logout blocks the token for the rest of its life |
| AuthTokens.LogoutIsFinalExceptIff | src/modules/auth/auth.service.ts:244-259 | In the store a logout leaves, the check never accepts the token; refresh does if and only if the time lies in the expiry second, at or past the logout's offset within its second |
| AuthTokens.LogoutReopens | src/modules/auth/auth.service.ts:244-259 | A token logged out half a second into its life can be refreshed half a second into its expiry second, and not a millisecond earlier |
| AuthTokens.LoggedOutIsNeverAccepted | src/modules/auth/auth.service.ts:244-259 | For the rest of every run the check never accepts a logged-out token again |
| AuthTokens.TokenBlocklist.Block | src/infra/redis/tokenBlocklist.ts:21-37 | Blocking sets the key for the given seconds, refuses ids that are no UUID, and does nothing for a time that is not positive |
| AuthTokens.TokenBlocklist.IsBlocked | src/infra/redis/tokenBlocklist.ts:39-47 | The lookup, which may sweep the entry |
| AuthTokens.AuthService.Authenticate | src/shared/middleware/requireAuth.ts:25-41 | The check accepts exactly genuine, unexpired, unblocked tokens |
| AuthTokens.AuthService.RefreshToken | src/modules/auth/auth.service.ts:183-237 | Refresh: result or error in the order of its checks, and the new blocklist |
| AuthTokens.AuthService.Logout | src/modules/auth/auth.service.ts:244-259 | The check, then the block for the rest of the token's life |
| Settlement.MonthsAre | src/modules/payments/payments.repo.ts:184-202 | The lengths of the months, and where the days start |
| Settlement.TotalsCount | src/modules/payments/payments.repo.ts:138-168 | What one more payment adds: its amount, to the total of its status alone, if it is a live payment of the organisation made at or after the start |
| Settlement.DaysCount | src/modules/payments/payments.repo.ts:176-192 | What one more payment adds to a day: its amount, if it is such a payment, released, and of that day |
| Settlement.WindowSpans | src/modules/payments/settlements.summary.service.ts:53-55 | The window starts at midnight and has so many days up to and including today |
| Settlement.DateInverts | src/modules/payments/payments.repo.ts:184-202 | Calendar dates counted one by one agree with the closed form of the Gregorian calendar, leap years included |
| Settlement.DatesDiffer | src/modules/payments/payments.repo.ts:186-202 | Different days have different calendar dates, so they share no group |
| Settlement.SparklineIsDaily | src/modules/payments/payments.repo.ts:171-203 | Every point of the sparkline is the released money of its day |
| Settlement.ReadBackMoves | src/modules/payments/payments.repo.ts:193-202 | Money added on a date shows in the points once, if the date is among them |
| Settlement.SparklineAccounts | src/modules/payments/payments.repo.ts:138-203 | The released total is the sum of the sparkline and of what is dated after its last day |
| Settlement.NothingAfterIff | src/modules/payments/payments.model.ts:63-70 | As amounts are positive, that remainder is zero if and only if there is no such payment |
| Settlement.ConservedIff | src/modules/payments/settlements.summary.service.ts:53-60 | On one snapshot, for every period, the sparkline adds up to the released total if and only if no released payment of the organisation is dated after today |
| Settlement.TomorrowIsMissed | src/modules/payments/settlements.summary.service.ts:53-60 | A payment dated tomorrow is in the total and not in the sparkline |
| Settlement.SettlementService.GetSettlementSummary | src/modules/payments/settlements.summary.service.ts:34-73 | The service: error for an unknown period, else the answer of the last five minutes if there is one, else totals and sparkline over the window that ends today |
| Speed.ElapsedIsPositiveIff | src/modules/shipments/shipments.service.ts:174-188 | Some time is counted if and only if some segment takes time |
| Speed.ElapsedIsSpanIff | src/modules/shipments/shipments.service.ts:170-184 | The counted time is newest minus oldest if and only if the points are newest first |
| Speed.NewerPointAdds | src/modules/shipments/shipments.service.ts:174-188 | A newer point adds the way to it and its hours of 3600000 ms, if it took any time |
| Speed.AverageIs | src/modules/shipments/shipments.service.ts:190-192 | The average is the counted way over the counted time |
| Speed.TotalLeadIs | src/modules/shipments/shipments.service.ts:174-184 | Distance covered less a ride at constant speed, segment by segment and in total |
| Speed.AverageBetweenSegments | src/modules/shipments/shipments.service.ts:165-192 | The average lies between the speeds of two segments that take time, and is the default without any |
| Speed.CalculateAverageSpeedKmh | src/modules/shipments/shipments.service.ts:165-192 | The loop computes that average |

## Left out

- Atomic steps: a database, Redis or Horizon operation is one step, each Redis-backed call happens at one instant, and a token refresh is one step; races between concurrent status updates or concurrent refreshes are not modelled.
- MongoDB: collections are maps or sequences of found rows; ObjectId casting and events whose ids MongoDB would refuse, soft-deleted shipments (they count as absent), and schema validation beyond positive payment amounts are not modelled. Naming one field in both $setOnInsert and $set, which MongoDB rejects, is modelled as its intended result, the $set value.
- Indexer.Worker.Consume: indexedAt is not part of a block, and malformed Horizon records, on which parseChainEvent throws, do not occur.
- ChainStream.ToAnchorEvent: the XDR envelope is a list of decoded operations, or nothing when it cannot be decoded.
- Submission.SubmitManageData: a failed load or submission other than a bad sequence is taken as not applied; keys, fees, memos and time bounds are not modelled.
- SHA-256, JWT signatures and bcrypt: hashes are not computed, a presented token is either genuine or not; tokens without an id do not occur, since the service always adds one.
- CanonicalText.PrintReadsBack: the reader takes integers and no white space between tokens, which is all the printer writes.
- CanonicalText.ShipmentTextReads: timestamp and metadata are given; their defaults, the epoch and an empty object, are the caller's.
- CanonicalText.NormalizeForDeterministicJson: numbers are integers, strings are sequences of Unicode scalar values ordered by value (no lone surrogates, no UTF-16 order of astral keys), and array-index keys, NaN, invalid dates and __proto__ do not occur.
- AuthTokens.LogoutIsFinalExceptIff: speaks of the store right after the logout; what holds through the rest of a run is AuthTokens.LoggedOutIsNeverAccepted.
- AuthTokens.RefreshHandsOver: speaks of the store right after the refresh; the rest of a run is in AuthTokens.SupersededStaysUseless and AuthTokens.FreeTokenWorks.
- Lifecycle.ShipmentStore.UpdateShipmentStatus: milestone times, descriptions and actors, the user lookup, ledger blocks, audit entries and notifications are not part of the state; the single update writes ledger blocks that the bulk update does not. An exception of the user lookup, which would abort the bulk loop, does not occur.
- Lifecycle.LifecycleIsSafe: the runs hold every change of a status or a milestone list made by the shipment service; seed scripts and direct database edits are not in them.
- Timeline.GetShipmentTimeline: descriptions and metadata of events are not carried, a timestamp is a text without the separator, and access control is left to the shipment lookup.
- MemoryRedis.InMemoryRedis.IncrCommand: counters hold integers; fractions and infinities read from other texts do not occur. scan, publish, subscribe and the pipeline object are not modelled.
- RecentEvents.RecentEventsStore.PushRecentEvent: an event stands for its JSON text; malformed entries and Redis failures halfway through a push do not occur.
- RateLimit.RedisRateLimitStore.Increment: a Redis command that throws is taken as not applied; runs that mix the two paths are not compared.
- Settlement.SettlementService.GetSettlementSummary: both queries read one snapshot, an unreachable cache is not modelled, amounts are exact numbers, and the clock is past March 1970.
- Speed.CalculateAverageSpeedKmh: the haversine distance is any function of two points, and rounding of floating-point numbers is not modelled.
- Express routes, controllers, request schemas, mail, SSE and Socket.IO delivery, storage adapters, analytics, session revocation, password reset and two-factor login: plumbing or independent features with easier properties.
- SorobanAdapter and the escrow contract calls: the requests for an escrow release are counted, not carried out.
