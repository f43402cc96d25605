# A verified model of the relay bot

The relay bot stores files that users upload to a Telegram chat, hands out a code for them, and sends the files again
to whoever presents the code. This project models its core in Dafny and proves what the core is relied on for.

The service methods are not atomic: each one is a short program of store transactions and cache commands, and those of
different updates interleave with each other and with the maintenance worker. `protocol.dfy` models them as one
transition system. A world holds the three tables, the code cache, the batch sessions, a monotone clock, and for every
handler in flight a program counter with the local variables it still needs (among them the `now` it read on entry).
One action starts a handler, lets one handler take one step, moves the clock, or lets the cache lose an entry. What
the environment decides in a step (a failing command, a drawn code, how a send ends) is a `Choice`. A run is any finite
sequence of actions from the empty system; theorems "over every run" quantify over all of them.

| file | models |
|---|---|
| `types.dfy` | the records |
| `paging.dfy`, `sender.dfy`, `navigation.dfy` | cutting a relay into pages, turning a page into Bot API calls, claiming page after page |
| `code.dfy`, `extract.dfy` | drawing and normalising codes, finding codes in messages and numbering the claims |
| `limiter.dfy` | the fixed-window limiter script |
| `session.dfy` | the merge of batch sessions and its WATCH/retry loop |
| `store.dfy`, `storefacts.dfy` | the transactions on the tables, and what each of them keeps |
| `protocol.dfy`, `invariants.dfy`, `steps.dfy`, `runs.dfy` | the transition system, its invariant, and the proof by rely and guarantee that every step keeps it |
| `lifecycle.dfy`, `lookup.dfy`, `deliveries.dfy`, `activelimit.dfy`, `atmostonce.dfy`, `sessioncount.dfy`, `vanishing.dfy`, `emptyrelays.dfy`, `uploads.dfy`, `decisions.dfy` | the theorems over every run |
| `witness.dfy`, `overshoot.dfy`, `lateduplicate.dfy`, `races.dfy` | building particular runs, and the runs that show where a guarantee ends |
| `service.dfy` | the handlers and the worker cycle as straight-line code on the store and cache: each is equal to its program in `protocol.dfy` run alone, and says what it does to tables and sessions |

How to read the main results:

* **Relays.** `Lifecycle.RunRefinesSealedList` says that every step of every run does to each relay only what an
  abstract list allows: grow by one at its end, be sealed once with a code and an expiry (a batch only when it is not
  empty), or disappear for good. `RelayHistory` and `ReachableRelay` are its consequences for a reader of the tables.
* **Lookups.** Whatever a cached pair says, the lookup of a claim ends with the answer of the plain query by hash at
  the moment of its last read (`Lookup.LookupIsPlain`): the ready relay of the code, that it has expired, or that there is
  none (`Lookup.LookupAnswers`).
* **Files.** Everything that is ever sent is the longest page that the relay's list begins with
  (`AtMostOnce.SendsCarryFirstPage`), and consists of files that updates of one chat have handed in, unaltered
  (`Uploads.SentItemsWereUploaded`).
* **Sends.** Handlers that insert their delivery row within `lag` of reading their clock send at most once per request
  in every run exactly when `lag` is at most one tick longer than the retention of purged deliveries
  (`LateDuplicate.SendsOnceExactly`; one half is a proof over all runs, the other a run that sends twice).
* **Deliveries.** No UPDATE guards the status, yet sent and failed are final, because a row has one owner.
* **Limits.** With at most `k` handlers of one uploader between count and insert, MaxActiveRelays is exceeded by at
  most `k - 1` (`ActiveLimit.ActiveRelaysBounded`), and for every limit and every `k` some run exceeds it by that much
  (`Overshoot.BoundIsAttained`). All such runs keep the limit if and only if `k` is at most one
  (`Overshoot.LimitKeptExactly`).
* **Surprises.** A relay that is ready disappears exactly by the delete of a cancel (`Vanishing.SealedVanishesExactly`),
  and is empty exactly when a single upload finds its file stored already (`EmptyRelays.SealedEmptyExactly`); `Races`
  has a run for each.

## Where the code differs from its own intent

* `scanRelay`, `scanRelayItem` and `scanDelivery` turn an empty result into `ErrRelayNotFound`
  (internal/store/postgres/store.go:560, 593, 626). The tests for `pgx.ErrNoRows` at lines 81, 201 and 388 therefore
  never match, and a conflicting `CreateRelay` or `CreateDelivery` ends in `ErrRelayNotFound` instead of returning the
  existing row. The model does what the code does.
* `CreateRelay` ignores the `created` flag of its item insert (store.go:60). If the update already has an item
  elsewhere, the new relay is ready and empty. That is the only way (`EmptyRelays.SealedEmptyExactly`), some run takes
  it (`Races.ReadyWithoutItems`), and none does in which every update goes to one handler
  (`EmptyRelays.SealedRelaysHaveItems`).
* `CancelBatchUpload` deletes by id alone (service.go:581), so a batch that a concurrent finish has made ready can
  disappear (`Races.ReadyBatchDisappears`). Nothing else removes a ready relay (`Vanishing.SealedVanishesExactly`). All
  other statements about relays hold until the row is deleted.
* The lookup of a claim and the insert of its delivery are separate steps, so "at most once" needs the bound on their
  distance given above.
* A limiter window admits at most `2 * limit - 1` calls into any interval of its length, one less than the usual
  estimate, and for every limit and window that many can occur. An interval keeps within the limit itself only when the
  limit is one or the window one millisecond.

## Model

| member | source | states |
|---|---|---|
| Paging.AppendRelayPages | internal/relay/paging.go:42-50 | one run of equal group ids is cut into pages of ten, and the pages built so far continue the greedy division |
| Paging.PaginateRelayItems | internal/relay/paging.go:9-40 | it fails exactly when a non-empty group comes back after another one; otherwise its pages divide the list and no division into legal pages is shorter |
| Paging.GroupsReturn | internal/relay/paging.go:17-26 | groups are fragmented exactly when, between two items of one named group, there is an item that is not of it |
| Paging.PagesAreOptimal | internal/relay/paging.go:9-50 | the greedy pages concatenate to the list, each is a legal page, and no other division has fewer |
| Paging.EachPageIsLongest | internal/relay/paging.go:28-50 | every page is the longest one that the rest of the list begins with |
| Paging.RunKeepsWhole | internal/relay/paging.go:17-31 | a run that starts with an unseen group leaves everything read so far unfragmented |
| Sender.CanSendAsMediaGroup | internal/telegram/sender.go:169-208 | true exactly for two or more items that are all photos or videos, all audio files, or all documents |
| Sender.SplitPageItems | internal/telegram/sender.go:153-167 | consecutive chunks that make up the page, of exactly ten items but for the last one |
| Sender.DeliverSingle | internal/telegram/sender.go:113-151 | one call by the method that fits the kind, which was accepted or failed; a kind without a method makes no call |
| Sender.SendMediaGroup | internal/telegram/sender.go:278-328 | one group call, its first message id, or how it failed |
| Sender.DeliverChunk | internal/telegram/sender.go:92-111 | two to ten photos and videos, audio files, or documents go out as one group, anything else as one fitting message an item; on failure a proper part of these calls was accepted |
| Sender.DeliverPage | internal/telegram/sender.go:42-90 | the same for a page; on success exactly the calls of the page were made and accepted and the first non-zero message id is returned; on failure a proper part was accepted, and the result is unknown exactly if the last call timed out |
| Sender.AlbumsGoTogether | internal/telegram/sender.go:92-111 | the plan for a page of at most ten items is one group for an album and one fitting message an item for anything else |
| Sender.PageCallsCarryItems | internal/telegram/sender.go:42-111 | the calls of a page carry its items, all, once and in order, each single one by the method of its kind, and each group has 2 to 10 items that go together |
| Sender.StoppedArrivesPrefix | internal/telegram/sender.go:60-90 | after a failed delivery the chat holds a prefix of the planned items |
| Sender.NavigationCarriesPages | internal/relay/service.go:914-960 | the calls of a list of pages carry the concatenation of the pages |
| Navigation.BuildClaimDeliveryPages | internal/relay/service.go:962-982 | the pages numbered from 1 with their total, or an error exactly on fragmented groups |
| Navigation.ClaimRelayPage | internal/relay/service.go:914-960 | a page is sent only of a relay that is ready and unexpired, and then it is the page of the index; otherwise the error says exactly what was wrong: expired, not found, out of range or fragmented |
| Navigation.VisitAllPages | internal/relay/service.go:914-982 | claims of page 1 to N, each finding the relay as it then is, send all items once each in upload order by legal calls if and only if every claim finds it ready and unexpired and every call is accepted; otherwise the calls stop where a claim was turned away or a call failed, and a prefix of the items has arrived |
| Code.Source.Read | internal/relay/code.go:102-106 | fills the whole buffer from the next bytes or reports an error and takes none |
| Code.Absorb | internal/relay/code.go:107-116 | the accepted bytes of a buffer, mapped to symbols, go to the output until it is full |
| Code.RandomString | internal/relay/code.go:95-119 | the result is the first symbols of the accepted and mapped stream, however it falls into buffers; an error means that all complete buffers together hold too few |
| Code.AlphabetComplete | internal/relay/code.go:11-15 | the alphabet lists each alphanumeric character once |
| Code.FourBytesEach | internal/relay/code.go:100-113 | each of the 62 symbols has exactly four accepted bytes |
| Code.PreimagesExact | internal/relay/code.go:95-119 | the byte strings counted for a body are exactly the strings of accepted bytes that give it |
| Code.UniformDraw | internal/relay/code.go:95-119 | every body of length n has exactly 4^n accepted byte strings |
| Code.PowerOfTwoAlphabetNeverAccepts | internal/relay/code.go:100-110 | an alphabet whose size divides 256 would make the limit wrap to 0 and accept nothing |
| Code.Generate | internal/relay/code.go:25-33 | the code is its own normal form, is hashed as it is, its hint is its last four characters, and its body is the start of the symbol stream |
| Code.CodeShape | internal/relay/code.go:11-15 | a code is the letters of its prefix in either case and twenty digits or letters |
| Code.AsciiSpaces | internal/relay/code.go:35-38 | among ASCII characters trimming takes blanks and the controls from tab to carriage return |
| Code.NormalizeExact | internal/relay/code.go:35-93 | accepted inputs are exactly the codes between spaces, and the result is the code with the prefix in lower case |
| Code.NormalizeKeepsCode | internal/relay/code.go:35-53 | a generated code is left unchanged |
| Code.NormalizeIdempotent | internal/relay/code.go:35-53 | normalising twice is normalising once |
| Extract.FindAllString | internal/telegram/extract.go:93-96 | the matches found are disjoint, ordered, and miss nothing but what an earlier match overlaps |
| Extract.LeftmostMatchesUnique | internal/telegram/extract.go:93-96 | no other list of positions has these properties |
| Extract.MatchesAreCanonical | internal/telegram/extract.go:139-168 | the normal form of a match here is the one Normalize computes |
| Extract.FirstSeenMeaning | internal/telegram/extract.go:98-115 | what is kept has pairwise different keys and covers every key |
| Extract.FirstSeenKeepsOrder | internal/telegram/extract.go:98-115 | the kept entries are in first-seen order |
| Extract.CollectClaims | internal/telegram/extract.go:98-115 | the loop with the seen map keeps the first match of each normal form |
| Extract.NumberClaims | internal/telegram/extract.go:117-126 | request ids are written into the claims without touching their codes |
| Extract.ExtractClaimRelayInputs | internal/telegram/extract.go:83-137 | the claims are the distinct codes of the message in first-seen order, for its sender and chat; forwarded messages make none; a single claim has the update's id, several have packed ids |
| Extract.ExtractedCodesNormalize | internal/telegram/extract.go:98-115 | every extracted code is accepted by Normalize and every match is represented |
| Extract.RequestIdValue | internal/telegram/extract.go:170-172 | below 65535 codes and 2^47 updates the 64-bit packing is plain arithmetic |
| Extract.RequestIdsInjectiveExactly | internal/telegram/extract.go:170-172 | request ids identify (update, index) if and only if at most 65535 codes are allowed |
| Extract.SingleMeetsMulti | internal/telegram/extract.go:117-126 | when exactly the id of a single-code message equals that of a multi-code one, and that it cannot below 65536 times the update id |
| Extract.SingleMeetsMultiExample | internal/telegram/extract.go:117-126 | the two kinds of ids do meet |
| RateLimit.Limiter.Run | internal/cache/rediscache/rediscache.go:191-197 | one run of the script changes its own key as the script says and no other key |
| RateLimit.FewerThanTwiceTheLimit | internal/cache/rediscache/rediscache.go:30-45 | for every ordered history, any interval of one window length holds at most 2 * limit - 1 allowed calls |
| RateLimit.TwiceTheLimitLessOneReached | internal/cache/rediscache/rediscache.go:30-45 | for every limit and every window of at least two milliseconds some history reaches that bound |
| RateLimit.LimitHoldsAcrossWindowsExactly | internal/cache/rediscache/rediscache.go:30-45 | every interval of one window length keeps within the limit if and only if the limit is at most one or the window is one millisecond |
| RateLimit.RefusalIsEarned | internal/cache/rediscache/rediscache.go:30-45 | a refusal has at least limit allowed calls within the last window length |
| RateLimit.RefusedCallsLeaveNoTrace | internal/cache/rediscache/rediscache.go:30-45 | leaving a refused call out of the history changes no other decision |
| SessionMerge.MergeAssociative | internal/cache/rediscache/rediscache.go:219-250 | merging sessions of one batch is associative |
| SessionMerge.MergeIdempotent | internal/cache/rediscache/rediscache.go:219-250 | and idempotent |
| SessionMerge.MergeCommutes | internal/cache/rediscache/rediscache.go:219-250 | and commutative in every field but the progress message id |
| SessionMerge.MergeIsLeastUpperBound | internal/cache/rediscache/rediscache.go:219-250 | counters and times of the merge are the least that are not below either side |
| SessionMerge.OrderShowsOnlyInMessage | internal/cache/rediscache/rediscache.go:219-250 | merging any permutation of sessions gives the same result but for the message id |
| SessionMerge.BatchIsSticky | internal/cache/rediscache/rediscache.go:153-160 | merges never change the batch of a stored session, and merges of other batches change nothing |
| SessionMerge.MergeKeepsIdentity | internal/cache/rediscache/rediscache.go:219-250 | a merge keeps batch and owner, takes the latest message id, and gives way where nothing was stored |
| SessionMerge.StepRefinesAtomic | internal/cache/rediscache/rediscache.go:138-181 | every step of interleaved WATCH loops commits one atomic operation or changes nothing |
| SessionMerge.WatchLoopIsAtomic | internal/cache/rediscache/rediscache.go:138-181 | over every interleaving the stored session is the replay of the committed operations and every merge returned what an atomic merge returns |
| SessionMerge.SessionKey.Set | internal/cache/rediscache/rediscache.go:127-136 | stores the session whatever was there |
| SessionMerge.SessionKey.Delete | internal/cache/rediscache/rediscache.go:183-185 | removes the session |
| SessionMerge.SessionKey.MergeBatchUploadSession | internal/cache/rediscache/rediscache.go:138-181 | one call commits exactly one merge, atomic at its place among the writes of others, and returns its result |
| Store.OrderRowsSorts | internal/store/postgres/store.go:235-262 | the listing is every row of the relay, once, sorted by order and id |
| Store.PostgresStore.CreateRelay | internal/store/postgres/store.go:30-90 | a new ready row with these columns and, as its one item, the file as it was uploaded, unless its update is stored already; or nothing at all |
| Store.CreateRelayExactly | internal/store/postgres/store.go:30-90 | a single upload is refused exactly when a relay has its update, or its hash, and nothing is inserted then |
| Store.PostgresStore.CreateRelayBatch | internal/store/postgres/store.go:92-105 | a collecting row without code and a list without items |
| Store.PostgresStore.AddRelayItemTx | internal/store/postgres/store.go:124-210 | the new item has the file, kind, group and update of the upload and stands behind the rows of the relay, which is touched; nothing else changes, and without a new item nothing at all |
| Store.AddItemExactly | internal/store/postgres/store.go:124-210 | each outcome of the insert with its exact condition: no relay, not collecting, stored already, full, order taken |
| Store.PostgresStore.LockRelayForItemInsert | internal/store/postgres/store.go:212-233 | which relays take items, and the error for those that do not |
| Store.PostgresStore.FinalizeRelayBatch | internal/store/postgres/store.go:264-310 | a collecting row gets code, hash and expiry and becomes ready, and only it changes; a ready one is returned as it is |
| Store.FinalizeExactly | internal/store/postgres/store.go:264-310 | each outcome of sealing with its condition |
| Store.PostgresStore.DeleteRelay | internal/store/postgres/store.go:312-315 | the row goes with its items and deliveries, and all others stay as they are |
| Store.PostgresStore.GetRelayBySourceUpdateId | internal/store/postgres/store.go:317-326 | the relay of the item of that update |
| Store.PostgresStore.GetRelayByCodeHash | internal/store/postgres/store.go:328-346 | the relay with that hash, or that it has expired, or that there is none |
| Store.PostgresStore.GetRelayById | internal/store/postgres/store.go:348-360 | the relay with that id or not found |
| Store.ActiveLater | internal/store/postgres/store.go:362-372 | relays only cease to be active with time, so a count at an older clock is never below the number active later |
| Store.PostgresStore.CreateDelivery | internal/store/postgres/store.go:374-404 | a pending row under a new id; a second row for a request is refused |
| Store.CreateDeliveryExactly | internal/store/postgres/store.go:374-404 | a second row for a request is refused, and so is one without a relay; otherwise exactly one pending row is added |
| Store.PostgresStore.MarkDeliverySent | internal/store/postgres/store.go:406-438 | marks without looking at the status, and counts even when the row is gone |
| Store.PostgresStore.MarkDelivery | internal/store/postgres/store.go:440-462 | marks without looking at the status |
| Store.MarkExactly | internal/store/postgres/store.go:406-462 | only the row gets the status, whatever it said before, and a send adds one to the relay's counter |
| Store.PostgresStore.ExpireRelays | internal/store/postgres/store.go:464-476 | exactly the overdue ready relays expire, and their number; no ready relay is overdue afterwards |
| Store.PostgresStore.DeleteCollectingRelaysBefore | internal/store/postgres/store.go:478-488 | exactly the stale collecting relays go, and their number; none is stale afterwards |
| Store.PostgresStore.MarkUnknownDeliveriesBefore | internal/store/postgres/store.go:490-507 | exactly the old pending rows become unknown, and their number; no pending row is old afterwards |
| Store.PostgresStore.DeleteExpiredDeliveriesBefore | internal/store/postgres/store.go:509-522 | exactly the old rows of relays that expired before the cutoff go, and their number |
| Store.MaintenanceExactly | internal/store/postgres/store.go:464-522 | which rows each of the four maintenance statements removes or rewrites, and that it touches no other |
| StoreFacts.ListingIsInsertionOrder | internal/store/postgres/store.go:235-262 | with orders 1, 2, 3, ... the listing is the order of insertion |
| StoreFacts.AddItemKeeps | internal/store/postgres/store.go:124-210 | keeps the integrity of the tables; an item goes to the end of a collecting relay within the limit |
| StoreFacts.CreateRelayKeeps | internal/store/postgres/store.go:30-90 | keeps the integrity; the list of the new relay is the uploaded file, or nothing if the update already has an item elsewhere |
| StoreFacts.FinalizeKeeps | internal/store/postgres/store.go:264-310 | keeps the integrity and every sealed code, expiry and list |
| StoreFacts.FinalizeFacts | internal/store/postgres/store.go:264-310 | at most the one row it returns changes, a row that was ready is returned as it is, and an error changes nothing |
| StoreFacts.DeleteKeeps | internal/store/postgres/store.go:312-315 | keeps the integrity; ids do not come back |
| StoreFacts.CreateDeliveryKeeps | internal/store/postgres/store.go:374-404 | keeps one row a request and every row's relay |
| StoreFacts.MarkSentKeeps | internal/store/postgres/store.go:406-438 | keeps the integrity; nothing changes but the status of the one row and the counter of the one relay, with their times |
| StoreFacts.PurgeKeeps | internal/store/postgres/store.go:509-522 | keeps the integrity; exactly the rows that may go are gone and the others are untouched |
| Steps.ClaimKeeps | internal/relay/service.go:602-912 | every step of a claim keeps the shared invariant and only evolves the shared state |
| Steps.ClaimEnds | internal/relay/service.go:602-912 | and leaves the claim with the relay, the items and the row it may rely on |
| Steps.CreateKeeps | internal/relay/service.go:40-206 | the same for single uploads |
| Steps.StartKeeps | internal/relay/service.go:208-268 | the same for starting a batch |
| Steps.AppendKeeps | internal/relay/service.go:270-379 | the same for appends; no session counts more items than its batch has |
| Steps.FinishKeeps | internal/relay/service.go:381-557 | the same for finishes; what is sealed was seen non-empty |
| Steps.CancelKeeps | internal/relay/service.go:559-600 | the same for cancels |
| Steps.ProgressKeeps | internal/relay/service.go:1057-1081 | the same for progress updates |
| Steps.WorkerKeeps | internal/worker/runner.go:57-103 | the same for the maintenance cycle |
| Invariants.PcOkStable | internal/relay/service.go:40-1081 | what a waiting handler knows survives every step of every other handler |
| Runs.RunKeeps | internal/relay/service.go:40-1081 | the invariant holds in every reachable state |
| Runs.RunEvolves | internal/relay/service.go:40-1081 | between any two states of a run nothing comes back, nothing changes identity, and what is sealed stays sealed |
| Lifecycle.RunRefinesSealedList | internal/store/postgres/store.go:124-310 | every step of every run does to every relay what an append-only list that is sealed once allows |
| Lifecycle.ReachableRelay | internal/store/postgres/store.go:124-262 | item orders are 1..n, the listing is the upload order within MaxBatchItems, the hash fits the code, and a finished batch is not empty |
| Lifecycle.RelayHistory | internal/relay/service.go:409-523 | status only moves forward, lists only grow at the end, and code, hash, expiry and list are fixed from ready on |
| Lifecycle.ClaimedPagesAreTheList | internal/relay/service.go:914-982 | pages claimed at any moments of a run are the pages of one list, and together they are that list |
| Lifecycle.HashesNeverReused | db/migrations/001_init.sql:5 | no two relays of a run ever carry the same hash; for rows that exist together the unique key says so, and for a row that is gone it is the assumption that Generate does not repeat codes, carried through the run |
| Lifecycle.FinishesAgree | internal/relay/service.go:409-523 | all successful finishes of one batch return the same code and expiry |
| Lookup.CachedAnswerIsPlain | internal/relay/service.go:984-1010 | for a cached pair whose relay still exists, the checks on its row give the answer of the plain lookup |
| Lookup.PlainAnswers | internal/store/postgres/store.go:328-346 | the query by hash with its checks gives the ready relay of the code, or says that it has expired, or that there is none, and which of these is determined |
| Lookup.LookupIsPlain | internal/relay/service.go:984-1047 | in every reachable state, with any cache content, a claim's lookup ends with the relay or error of the plain lookup at its last read |
| Lookup.LookupAnswers | internal/relay/service.go:984-1047 | over every run, a lookup ends with what the tables say to the code at its last read |
| Lookup.ReturnedCodeFindsBatch | internal/relay/service.go:409-557 | the code a finish returned leads every later lookup to that batch and its list, until it expires or is gone |
| Lookup.MaintenanceIsInvisible | internal/worker/runner.go:57-103 | no step of the worker changes what any lookup answers or which relays count as active, then or later |
| Lookup.ClaimedRelayIsRight | internal/relay/service.go:634-690 | a claim that goes on to insert has an unexpired relay with the hash of its code and exactly that relay's items |
| Deliveries.UniqueOwner | internal/relay/service.go:685-887 | in every reachable state a delivery row has at most one handler that may mark it, and an owned row is pending or unknown |
| Deliveries.OnlyOwnerSettles | internal/store/postgres/store.go:406-507 | a step changes a status only if the owner takes it, or if the timeout makes a pending row unknown |
| Deliveries.SettledStays | internal/store/postgres/store.go:406-462 | sent and failed rows never change status again |
| Deliveries.CountMatchesRows | internal/store/postgres/store.go:406-522 | delivery_count is never below the number of sent rows and equals it until the purge takes a row of the relay |
| ActiveLimit.ActiveRelaysBounded | internal/relay/service.go:112-145 | with at most k handlers of a user between count and insert, the user has at most MaxActiveRelays + k - 1 active relays |
| ActiveLimit.EntersBelowLimit | internal/relay/service.go:466-503 | a handler that passes its count at an older clock has seen fewer relays than the limit active now |
| Overshoot.BoundIsAttained | internal/relay/service.go:112-145 | for every limit, every k and codes with distinct hashes, some run with at most k handlers in flight ends with MaxActiveRelays + k - 1 active relays |
| Overshoot.LimitKeptExactly | internal/relay/service.go:112-145 | all runs with at most k handlers of a user in flight keep every user within MaxActiveRelays if and only if k is at most one |
| AtMostOnce.PromptInsertIsFirst | internal/relay/service.go:685-700 | a handler that inserts its row in time is the first of its request to do so, even after the purge |
| AtMostOnce.PromptRunsSendOnce | internal/relay/service.go:685-763 | in every prompt run each request is sent at most once |
| AtMostOnce.CountExactWhileRetained | internal/store/postgres/store.go:509-522 | delivery_count equals the sent rows until the retention has passed since the relay expired |
| AtMostOnce.SendsCarryFirstPage | internal/relay/service.go:657-763 | every send carries the longest page that a list begins with which its relay has shown under the hash of the request's code, and while the relay exists its list is that one |
| LateDuplicate.SendsOnceExactly | internal/relay/service.go:685-763 | all runs with insert lag at most `lag` send at most once per request if and only if `lag` is at most the retention plus one |
| Uploads.StoredItemsWereUploaded | internal/relay/service.go:40-379 | over every run, each item of each listing has the file, kind, group and update of an upload that a request of the relay's chat handed in |
| Uploads.SentItemsWereUploaded | internal/relay/service.go:602-763 | over every run, all items that are sent were handed in by one chat |
| Decisions.SecondBatchRefusedExactly | internal/relay/service.go:219-233 | over every run, a start goes on if and only if the batch of the session it read is gone or not collecting at that moment |
| Decisions.StartsOnlyWhenFree | internal/relay/service.go:208-268 | over every run, a start that inserts or publishes a batch has found the chat free at some moment |
| Decisions.ActsOnCollectingExactly | internal/relay/service.go:1111-1133 | over every run, appends and cancels go on if and only if the batch of their session is collecting at that moment |
| Decisions.RecheckFindsReadyExactly | internal/relay/service.go:466-503 | over every run, a finish at the limit goes on if and only if its batch has become ready since |
| SessionCount.SessionCountsItems | internal/relay/service.go:336-358 | a session never counts more items than its batch has, and exactly as many while it is intact and no append waits to merge |
| Vanishing.SealedVanishesExactly | internal/relay/service.go:581 | over every run, a step makes a relay that has been ready disappear if and only if it is the successful delete of a cancel of that relay |
| Races.ReadyBatchDisappears | internal/relay/service.go:559-600 | some run makes a batch with an item ready and then loses it |
| EmptyRelays.SealedEmptyExactly | internal/store/postgres/store.go:30-90 | over every run, a relay becomes ready without items if and only if a single upload finds an item of its update stored |
| EmptyRelays.SealedRelaysHaveItems | internal/store/postgres/store.go:60 | in runs that hand each update to one handler, every relay that is or has been ready has an item |
| Races.ReadyWithoutItems | internal/store/postgres/store.go:60 | some run makes a relay ready without any item |
| Service.SoloIsRun | internal/relay/service.go:40-1081 | a handler running alone is a run of the whole system |
| Service.Backend.LookupRelay | internal/relay/service.go:984-1047 | the straight-line lookup ends with what the tables say to the code unless the store fails, and leaves the pair in the cache |
| Service.Backend.ClaimRelay | internal/relay/service.go:602-912 | each outcome with its condition: no relay, expired, no items, fragmented, requested before; otherwise the longest page that the list begins with has been sent, and the request's one new delivery row, and for a sent one the counter, say how that ended; only a failed command can end it otherwise |
| Service.Backend.CreateRelay | internal/relay/service.go:40-206 | a stored update gets the relay that holds it; at the limit, or with an update that a relay has, an error changes nothing; otherwise the one new relay is ready under a drawn code, belongs to the user, expires after the time to live and lists exactly the uploaded file |
| Service.Backend.StartBatchUpload | internal/relay/service.go:208-268 | while the batch of the chat's session is collecting, and only then, a second one is refused and nothing changes; otherwise the tables gain an empty batch and the chat its session; a start that failed leaves at most a batch it could not delete again |
| Service.Backend.GetCollectingBatchSession | internal/relay/service.go:1111-1133 | the chat's session, whose batch is collecting; without one an error, and no session is left |
| Service.Backend.AppendBatchItem | internal/relay/service.go:270-379 | each outcome with its condition: no collecting batch, stored already, full; otherwise the list of the batch ends with exactly the uploaded file; the number of its items is returned and kept in the session |
| Service.Backend.FinishBatchUpload | internal/relay/service.go:381-557 | each outcome with its condition: no batch, ready already, empty, at the limit; otherwise the batch is ready under a drawn code with the items it had and only its row changes; lookups of the code find it until it expires, and the session is gone |
| Service.Backend.CancelBatchUpload | internal/relay/service.go:559-600 | it succeeds if and only if the batch of the chat's session is collecting; then exactly that relay is gone with its rows, the count is that of its items, and the session is gone |
| Service.Backend.UpdateBatchProgress | internal/relay/service.go:1057-1081 | it succeeds if and only if the chat has a session, about the batch asked for; which fields change and to what, and that nothing else does |
| Service.Backend.RunOnce | internal/worker/runner.go:57-103 | the four tasks in order, each whether or not the ones before failed, what each makes of the tables, and whether any failed |

## Left out

- Service.Backend.ClaimRelay: runs without interference from other handlers, as do the other methods of Backend; interleaving is the subject of the programs in Protocol, to which each method is tied step by step.
- Service.Backend.CreateRelay: the checks of media kind, size and extension and the upload limiter are one failing choice of the count step; they have no effect on the state.
- Service.Backend.FinishBatchUpload: assumes, as CreateRelay does, that Generate draws a code no relay has had, and, as all methods of Backend do, that the tape of command outcomes reaches to the end of the call.
- LateDuplicate.SendsOnceExactly: assumes a positive time to live, a positive relay limit and a retention that is not negative, without which no run can show the second send; the safe half, AtMostOnce.PromptRunsSendOnce, does not assume them.
- ActiveLimit.ActiveRelaysBounded: identifies the uploader with the one user of a private chat, as the bot is used in private chats only.
- Overshoot.LimitKeptExactly: assumes a positive limit, a positive time to live and enough codes with distinct hashes, without which no run can exceed the limit; the bound itself does not assume them.
- Races.ReadyBatchDisappears: assumes that sessions are kept and uploads allowed, as does ReadyWithoutItems; each shows that its case is real, while its exact condition is in Vanishing and EmptyRelays.
- SessionMerge.SessionKey.MergeBatchUploadSession: the interference during one call is a finite schedule, so a call that is overtaken for ever is not modelled; WatchLoopIsAtomic has no such bound.
- RateLimit.Limiter.Run: whether a key still exists in the very millisecond of its expiry is a parameter; every statement holds for both answers.
- Extract.FindAllString: the regular expression is given by its set of codes; the library's matcher is modelled by what it promises.
- Navigation.VisitAllPages: is the user's path through the page buttons, whose callback data and markup are not part of the model; all claims of a visit are given one list of items, which Lifecycle.ClaimedPagesAreTheList shows they find.
- Store.PostgresStore.AddRelayItemTx: transactions are atomic; two transactions for one update id in two batches at the same moment are ordered, as the unique key orders them.
- Code.Generate: the random source is any byte sequence and the keyed hash any function; that codes do not repeat is an assumption of the protocol, where drawing a code and inserting it are one step.
- Times are ticks of one clock; that Go counts nanoseconds, PostgreSQL microseconds and Redis milliseconds is not modelled, so where a statement turns on one tick the tick is the model's.
- Columns that only describe (file names, sizes, captions, code hints, methods, error texts, message ids of deliveries) are dropped.
- A store command whose commit succeeds although its connection reports an error is modelled as a command that failed without effect.
- The bad-code limiter, the seen-update marks and the created-code cache: single keys with no effect on relays.
- Telegram, HTTP, Redis and PostgreSQL clients, JSON, contexts, logging, configuration, bootstrap and migrations as programs.
- Liveness: nothing says that a handler makes progress while commands fail.
