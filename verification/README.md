# grokbuild-pool: verified models of its state machines

The project models the parts of grokbuild-pool that keep state over many calls, and proves what each step keeps and
what holds over whole runs.

- **Stream translation** (`StreamReader`, `StreamSession`, `StreamTranslator`, `StreamTheorems`, `StreamThinking`,
  `Sse`, `StreamPipe`). The translator class consumes one upstream event at a time and appends Claude frames.
  `StreamReader` is the consumer: an automaton that accepts legal streams only and knows what was said.
  `StreamSession` says what each event does to the message the consumer sees; the class is proved against it, and
  `StreamTheorems` and `StreamThinking` hold the theorems about runs. `Sse` covers the bytes of frames and the line
  reader, and `StreamPipe` puts both together.
- **Account scheduling** (`Catalog`, `HotIndex`, `StickyLru`, `Selector`, `Lease`, `Refresh`, `LeaseRuns`). The caches and
  indexes are classes with the source's fields, each proved against the simple thing it speeds up: the listing, the key
  set, a list of bindings, the sorted top tier. `LeaseRuns` has the events of account scheduling, shows that the
  methods of the manager, the index and the token refresher are such events, and proves what holds over every run.
- **Cluster protocol** (`ShardLeases`, `InflightGate`, `ClusterState`, `Worker`). `ShardLeases` and `InflightGate` are
  the step functions and the theorems over every interleaving. `ClusterState.Memory` performs them; its invariant is
  the exclusion and the gate, so any sequence of calls by any workers keeps it. `Worker` is one worker's side, with
  other workers acting at every gap: `Others` stands for them, and callers may use its contract only.
- **Token ledger** (`Ledger`, `RateGate`, `Clients`). A row update is one guarded assignment; ghost books record what
  became of every reservation. `Clients.RequireClient` is the middleware, again with others at every gap.
- **Import slots** (`ImportJobs`) and **request blocks** (`ConvertMessage`).

Clocks, random draws, made-up ids, the proxy assigner, response codes and costs are parameters: every statement is
for all of them. Clock readings are positive. Maps are walked in an arbitrary order.

## What turned out otherwise

- `putPrimary` can leave an entry whose secondary is its primary: exactly when the key is present, the account is its
  secondary and `shift` is false (`StickyLru.Lru.PutPrimary`). Its only caller passes `shift = true`.
- The comment at internal/selector/selector.go:129 says a promoted secondary leaves the old primary as secondary. The
  code drops it, and keeps an old primary exactly when there was no secondary (`StickyLru.OldPrimary`).
- Round robin never serves an account with a priority below -2^30 (`Selection.TierEmpty` gives the exact condition),
  and is unfair exactly where the 64-bit cursor wraps and the tier size does not divide 2^64
  (`Selection.RoundRobinIsFair`).
- A full text or arguments value that arrives after its block was stopped empty is dropped
  (`StreamTheorems.FullDelivers`).
- A reasoning text may be delivered twice. The end of its item delivers it again exactly when its block is no longer
  held and none was finalized under the item's key (`StreamThinking.ItemDelivers`), as when increments carry an output
  index and the item an id (`StreamThinking.ToldTwice`); an item named alike from its increments to its end is safe
  (`StreamThinking.NamedAlike`). A completed event delivers it again exactly when none was finalized under the item's key
  by then (`StreamThinking.CompletedDelivers`): because the block is still open (`StreamThinking.TwiceInOneBlock`), or
  because it was finalized under another name (`StreamThinking.CompletedAfterText`).
- A message text may be delivered twice as well: the end of its item delivers it into a second block exactly when item
  and increments give different keys (`StreamTheorems.TextTwice`, `StreamTheorems.TextNamedApart`).
- The pipe loop reads data fields otherwise than the WHATWG standard in four ways (`Sse.WaysToDisagree`), and only in
  those (`Sse.BlockAgrees`): a bare `data` line, outer white space, an empty first value, an empty last value.
- A cooling time is overwritten by whatever release comes next, so a later, shorter one lets the account go early
  (`LeaseRuns.LaterTimeWins`). As long as no refresh of the account fails, the time stands exactly when no other lease on
  it is out (`LeaseRuns.CoolingStands`); a model's time does so whether or not refreshes fail
  (`LeaseRuns.ModelCoolingStands`).
- A failed token refresh sets the cooling time of an account whatever it was before, and so can let an account go early
  that is not even lent out (`LeaseRuns.RefreshCutsShort`).
- Assigned proxies are stored under trimmed ids (`Lease.BoundRow`). An account whose id has outer white space does not
  keep the one it is assigned, and can take away that of the account with the trimmed id
  (`Lease.UntrimmedIdRebinds`).
- Leaving the hot set forgets an account's in-flight count (`LeaseRuns.CountIsForgotten`), so the count is a lower
  bound only.
- "Consecutive" 403s are counted by all failures on record, against the comment at internal/lease/config.go:44; the
  comment holds exactly when none is on record before the streak (`Lease.StreakIsCountedAlone`).
- A worker's own list of shards is no proof of a lease: between renewals a lease can run out and be granted to another
  (`ShardLeases.ToldIsNoProof`). What a worker may rely on is the last acknowledged expiry
  (`ShardLeases.HeldIffTable`); renewals in time keep the whole list held (`Worker.Service.Run`).
- A release deletes the shard entry, so lease versions start at 1 again (`ShardLeases.VersionGrows`).
- A settlement or refund of a token that was switched off meanwhile fails, and its reservation is lost for good
  (`Ledger.LeaksWhenOff`). A handler that panics leaves its reservation open: the middleware defers the slot only
  (`Clients.RequireClient`).
- A call refused for concurrency can open an empty rate window, and by that 2·rpm calls fit into one minute, for every
  limit (`RateGate.TwiceIsReached`); without such a refusal 2·rpm − 1 is the most (`RateGate.UnhinderedBound`).
- The frame round trip needs payloads free of line feeds only; a carriage return inside a payload does no harm to this
  reader (`Sse.FrameCarries`), though it would to one that follows the standard's line rule.

## Model

| member | source | states |
|---|---|---|
| StreamReader.LegalShape | internal/protocol/anthropic/stream.go:155-384 | position by position, what a legal stream is: starts numbered 0, 1, 2, …; deltas only to an open block of their kind; stops only of an open block; message_start first and once; a terminal frame last, with nothing open |
| StreamReader.ReplayTracks | internal/protocol/anthropic/stream.go:155-305 | the reader's blocks are read off the frames: which were started, as what, and which were stopped |
| StreamReader.StopsAreTheClosedBlocks | internal/protocol/anthropic/stream.go:219-253 | no index is stopped twice, and the stopped indices are exactly the closed blocks |
| StreamReader.EndedMeansClosed | internal/protocol/anthropic/stream.go:320-384 | once a stream has ended, every block it opened has been stopped |
| StreamReader.LastFrame | internal/protocol/anthropic/stream.go:353-383 | a finished stream ends with message_delta then message_stop, a failed one with error |
| StreamReader.NothingAfterTerminal | internal/protocol/anthropic/stream.go:320-384 | at most one terminal frame, and nothing after it |
| StreamReader.StartBeforeStop | internal/protocol/anthropic/stream.go:155-233 | a block is started before it is stopped |
| StreamReader.PrefixLegal | internal/protocol/anthropic/stream.go:86-114 | every prefix of a legal stream is legal, so each write keeps the stream legal |
| StreamReader.CloseLeastFirst | internal/protocol/anthropic/stream.go:235-253 | stopping the open blocks one by one from the lowest index is stopping them all |
| StreamTranslator.StreamTranslator.WriteEvent | internal/protocol/anthropic/stream.go:86-114 | a frame is appended, and only a frame that is allowed where the stream stands |
| StreamTranslator.StreamTranslator.EnsureStart | internal/protocol/anthropic/stream.go:117-153 | one message_start, whatever is called how often |
| StreamTranslator.StreamTranslator.EnsureTextBlock | internal/protocol/anthropic/stream.go:155-178 | a text block is registered under its key once, at the next index |
| StreamTranslator.StreamTranslator.EnsureToolBlock | internal/protocol/anthropic/stream.go:180-217 | a tool block is registered under its key once, at the next index; a call id or name that comes later is ignored |
| StreamTranslator.StreamTranslator.StopKey | internal/protocol/anthropic/stream.go:219-233 | the block of a key is stopped if it is open |
| StreamTranslator.StreamTranslator.StopAllBlocks | internal/protocol/anthropic/stream.go:235-253 | every open block is stopped once, in index order |
| StreamTranslator.StreamTranslator.WriteText | internal/protocol/anthropic/stream.go:255-279 | a text delta reaches the block of its key, and none after its stop |
| StreamTranslator.StreamTranslator.ToolArgsDelta | internal/protocol/anthropic/stream.go:281-305 | an arguments delta reaches the block of its key, and none after its stop |
| StreamTranslator.StreamTranslator.Finish | internal/protocol/anthropic/stream.go:320-365 | thinking ended, blocks stopped, stop reason and usage written, message_stop: once |
| StreamTranslator.StreamTranslator.Fail | internal/protocol/anthropic/stream.go:368-384 | blocks stopped, then one error frame |
| StreamTranslator.StreamTranslator.ProcessData | internal/protocol/anthropic/stream.go:387-681 | one upstream event: the session moves as specified and the output stays legal |
| StreamTranslator.StreamTranslator.EmitFinalOutput | internal/protocol/anthropic/stream.go:683-741 | the output list of a completed event, item by item |
| StreamTranslator.StreamTranslator.HasEmittedText | internal/protocol/anthropic/stream.go:743-750 | whether any text block has emitted text |
| StreamTranslator.StreamTranslator.Pipe | internal/protocol/anthropic/stream.go:822-865 | a list of payloads: output legal, session = the run of the decoded events, and an early end is reported |
| StreamTranslator.StreamTranslator.EnsureThinkingBlock | internal/protocol/anthropic/thinking_stream.go:9-48 | thinking opens at the next index, only when it is enabled and none is open |
| StreamTranslator.StreamTranslator.WriteThinking | internal/protocol/anthropic/thinking_stream.go:50-70 | a thinking delta; nothing is shown when display is omitted |
| StreamTranslator.StreamTranslator.CaptureThinkingSignature | internal/protocol/anthropic/thinking_stream.go:72-80 | the signature and the key it belongs to are kept |
| StreamTranslator.StreamTranslator.FinalizeThinkingBlock | internal/protocol/anthropic/thinking_stream.go:82-121 | a held thinking block is signed and stopped once; without a signature the stop may wait |
| StreamTranslator.StreamTranslator.FinishThinkingBeforeContent | internal/protocol/anthropic/thinking_stream.go:123-128 | no content starts while thinking is open |
| StreamTranslator.StreamTranslator.EmitFinalReasoningItem | internal/protocol/anthropic/thinking_stream.go:130-166 | a final reasoning item is delivered unless its key is completed |
| StreamThinking.EventThinks | internal/protocol/anthropic/thinking_stream.go:9-166 | what any event but a completed one does to the thinking: sessions follow a small machine of held block, key, signature, completed keys and texts |
| StreamThinking.ReasoningDelivered | internal/protocol/anthropic/thinking_stream.go:50-166 | over every run: the thinking blocks say exactly what the events delivered, nothing lost or added, and no key is delivered in full twice |
| StreamThinking.CompletedIsSilent | internal/protocol/anthropic/thinking_stream.go:137-143 | from any point of a run: a completed key is never delivered in full again |
| StreamThinking.NoThinkingEver | internal/protocol/anthropic/thinking_stream.go:23-48 | with thinking off no run ever has a thinking block |
| StreamThinking.ItemDelivers | internal/protocol/anthropic/thinking_stream.go:130-166 | over every run: the end of a reasoning item delivers its summary if and only if no block is held and none was finalized under its key; then the key is completed |
| StreamThinking.NamedAlike | internal/protocol/anthropic/thinking_stream.go:111-120 | a reasoning item named the same from its first increment to its end, with no other named in between: its end delivers nothing more |
| StreamThinking.TwiceInTwoBlocks | internal/protocol/anthropic/thinking_stream.go:130-183 | an increment, a word of text, the item's end: the text is delivered twice if and only if increment and item are named differently |
| StreamThinking.ToldTwice | internal/protocol/anthropic/thinking_stream.go:168-183 | a concrete such run: increments with an output index only, an item with an id |
| StreamThinking.CompletedDelivers | internal/protocol/anthropic/thinking_stream.go:130-166 | over every run and for each reasoning item of a completed output: its summary is added if and only if its key is not completed when the items before it have been taken, and its key is completed then; the end adds nothing |
| StreamThinking.CompletedDeliversOne | internal/protocol/anthropic/thinking_stream.go:130-166 | over every run, for an output of one reasoning item: the completed event adds its summary if and only if no block was finalized under its key |
| StreamThinking.CompletedAfterText | internal/protocol/anthropic/thinking_stream.go:111-166 | an increment, a word of text, a completed event with the item: the text is told twice if and only if increment and item are named differently |
| StreamThinking.TwiceInOneBlock | internal/protocol/anthropic/thinking_stream.go:130-166 | a completed event that finds the block still open, so not finalized under any key: the text is told again in it |
| StreamTheorems.FullDelivers | internal/protocol/anthropic/stream.go:471-634 | a full value is used if and only if its block has emitted nothing and is not stopped |
| StreamTheorems.StreamedDelivers | internal/protocol/anthropic/stream.go:405-541 | a delta is appended to its block unless the block is stopped |
| StreamTheorems.EndingDelivers | internal/protocol/anthropic/stream.go:636-741 | a completed event takes each full value at most once per block |
| StreamTheorems.EventDelivers | internal/protocol/anthropic/stream.go:387-681 | any event, any block: increments appended, or one full value taken, never both |
| StreamTheorems.DeliveredOnce | internal/protocol/anthropic/stream.go:387-741 | over every run, any text or tool block: unstopped it holds all increments so far; stopped, all increments up to the stop or exactly one full value carried by the stopping event |
| StreamTheorems.TextTwice | internal/protocol/anthropic/stream.go:614-634 | a text streamed under one name and ended by an item under another stands in two blocks if and only if the names give two keys; nothing else stands anywhere |
| StreamTheorems.TextNamedApart | internal/protocol/anthropic/stream.go:614-634 | such names: increments with an output index only, an item with an id |
| StreamTheorems.WholeRun | internal/protocol/anthropic/stream.go:320-681 | runs of events that end nothing, one that ends, then [DONE]s: the stream ends exactly there, with every block stopped, in the way the last event says |
| StreamTheorems.EndingKind | internal/protocol/anthropic/stream.go:636-681 | completed and [DONE] finish the message, failures never do |
| Sse.WriteEvent | internal/protocol/anthropic/stream.go:86-114 | the bytes of one frame |
| Sse.Pipe | internal/protocol/anthropic/stream.go:822-865 | the line loop hands on exactly the payloads of the reader it is specified by |
| Sse.RoundTrip | internal/protocol/anthropic/stream.go:86-114 | any list of payloads that are not empty, trimmed and free of line ends is read back in order, once each |
| Sse.FrameCarries | internal/protocol/anthropic/stream.go:822-865 | one frame hands its payload on unchanged if and only if the payload is not empty, trimmed and free of line ends |
| Sse.BlockAgrees | internal/protocol/anthropic/stream.go:834-856 | an event block is dispatched as the WHATWG reader wants it if and only if it has no bare field name, its values are trimmed and the first and last are not empty, or it has no data |
| Sse.StreamAgrees | internal/protocol/anthropic/stream.go:834-856 | a stream of blocks is read as the standard reads it if and only if every block is such |
| Sse.WaysToDisagree | internal/protocol/anthropic/stream.go:834-856 | one block for each way to disagree, and an empty value in between that does no harm |
| StreamPipe.PipeResponsesSSE | internal/protocol/anthropic/stream.go:822-865 | bytes in, legal frames out, for any decoder: the session is the run of the decoded payloads up to the first that is not JSON; which error an input ends in |
| ConvertMessage.ConvertBlocks | internal/protocol/anthropic/translate_req.go:288-392 | the items hold exactly the kept blocks in order; no empty message, no two messages side by side |
| ConvertMessage.Convert | internal/protocol/anthropic/translate_req.go:250-393 | the same for plain and unreadable content, with the role made good |
| ConvertMessage.ToolResultOutput | internal/protocol/anthropic/translate_req.go:395-423 | the texts of a tool result, joined by line ends |
| ConvertMessage.GroupingIsUnique | internal/protocol/anthropic/translate_req.go:288-301 | there is only one such item list for given pieces: the grouping is maximal |
| ConvertMessage.DroppedDoesNotPart | internal/protocol/anthropic/translate_req.go:373-390 | a dropped block leaves the items as if it had not been there |
| Catalog.RankedRanks | internal/catalog/catalog.go:790-836 | the listing holds the given rows in (priority descending, id ascending) order |
| Catalog.RanksUnique | internal/catalog/catalog.go:790-836 | there is only one such listing |
| Catalog.PageAfter | internal/catalog/catalog.go:813-836 | the page after the n-th row is the rest of the listing |
| Catalog.SetProxyOnly | internal/catalog/catalog.go:930-991 | binding a proxy changes proxies and revisions only |
| HotIndex.Index.AddLocked | internal/hot/index.go:70-73 | append, list and positions still inverse |
| HotIndex.Index.RemoveLocked | internal/hot/index.go:76-89 | swap-delete, list and positions still inverse |
| HotIndex.Index.ReplaceAllLocked | internal/hot/index.go:92-100 | list and positions rebuilt for exactly the new keys |
| HotIndex.Index.Resize | internal/hot/index.go:111-129 | capacity set; an over-full set loses the tail of the list |
| HotIndex.Index.LoadEligible | internal/hot/index.go:151-218 | the paging loop loads exactly the first cap() rows of the listing, counts kept |
| HotIndex.Index.LoadMetas | internal/hot/index.go:223-256 | the first cap() rows by id; an empty id refuses all of them |
| HotIndex.Index.AddInflight | internal/hot/index.go:278-294 | one more in flight, or the refusal |
| HotIndex.Index.SubInflight | internal/hot/index.go:297-315 | one less in flight, never below zero, or the refusal |
| HotIndex.Index.SetCooldown | internal/hot/index.go:318-334 | the entry's cooling end, or the refusal |
| HotIndex.Index.Promote | internal/hot/index.go:342-374 | an update keeps the live count; a full set gives up its worst entry for a new id |
| HotIndex.Index.Demote | internal/hot/index.go:377-389 | the id leaves map and list |
| HotIndex.Index.DemoteMany | internal/hot/index.go:392-408 | all the ids leave the map, and the list by swap-deletes in their order |
| HotIndex.Index.Eligible | internal/hot/index.go:414-427 | every eligible entry once, at the given time or the clock's |
| HotIndex.Index.SampleEligible | internal/hot/index.go:435-532 | exactly min(k, number of eligible not excluded) different eligible entries, for any draws |
| HotIndex.Index.SampleShuffled | internal/hot/index.go:459-484 | the same for the shuffle path |
| HotIndex.Index.SampleProbing | internal/hot/index.go:486-531 | the same for the probe-then-scan path |
| HotIndex.DenseList | internal/hot/index.go:41-46 | the list has no duplicates and is the key set |
| HotIndex.LoadHoldsTop | internal/hot/index.go:151-218 | what a load keeps: the best rows, their data, their counts; no listable row left out ranks before one kept |
| HotIndex.PickDemoteVictim | internal/hot/index.go:616-635 | the entry worse than all others |
| HotIndex.OneVictim | internal/hot/index.go:616-649 | the victim does not depend on map order |
| StickyLru.Lru.GetPair | internal/selector/sticky.go:49-67 | the live pair, moved to the front with a new expiry; an expired entry goes |
| StickyLru.Lru.PutPrimary | internal/selector/sticky.go:75-114 | the binding after a put; primary and secondary stay apart if and only if the shift is taken or they do not clash |
| StickyLru.Lru.PutSecondary | internal/selector/sticky.go:117-146 | the secondary set, or cleared when it would equal the primary |
| StickyLru.Lru.DeleteKey | internal/selector/sticky.go:148-157 | one entry goes |
| StickyLru.Lru.DeleteAccount | internal/selector/sticky.go:159-189 | every mention of an account goes |
| StickyLru.Lru.RemoveElement | internal/selector/sticky.go:197-205 | list, map and reverse index lose one entry together |
| StickyLru.Lru.IndexAccount | internal/selector/sticky.go:207-217 | one pair joins the reverse index |
| StickyLru.Lru.UnindexAccount | internal/selector/sticky.go:219-228 | one pair leaves it, and empty sets with it |
| StickyLru.OldPrimary | internal/selector/sticky.go:84-98 | a new primary with shift: the old one is kept as secondary if and only if there was none; a promoted secondary leaves its place empty |
| StickyLru.ReindexReverses | internal/selector/sticky.go:84-98 | a primary change keeps the reverse index exact |
| StickyLru.RemovalReverses | internal/selector/sticky.go:197-205 | a removal keeps the reverse index exact |
| StickyLru.SecondaryReverses | internal/selector/sticky.go:117-146 | a secondary change keeps the reverse index exact |
| StickyLru.DropAccountExact | internal/selector/sticky.go:159-189 | after the account is dropped nothing mentions it, and all other primaries, expiries and the order are as before |
| StickyLru.RunOrdered | internal/selector/sticky.go:49-146 | with a clock that does not go back, the recency list is sorted by expiry over every run |
| StickyLru.EvictionIsFair | internal/selector/sticky.go:103-109 | eviction takes entries of least expiry, never a live one while an expired one is stored |
| Selection.Selector.PickExcluding | internal/selector/selector.go:106-156 | primary if it may serve, else secondary (promoted), else the strategy's choice (bound); only allowed ids; it fails if and only if the strategy can choose nothing |
| Selection.Selector.StableRRPick | internal/selector/selector.go:246-284 | the cursor's turn in the top tier by id; it fails if and only if the tier is empty |
| Selection.Selector.Pow2Pick | internal/selector/selector.go:289-315 | an eligible account with the best score of the sample; it fails if and only if nothing is eligible |
| Selection.SortById | internal/selector/selector.go:271-277 | the insertion sort lists the tier in ascending id order, whatever order it came in |
| Selection.TopTier | internal/selector/selector.go:251-267 | the not excluded entries of the highest priority |
| Selection.TierEmpty | internal/selector/selector.go:252-267 | round robin finds nothing if and only if every candidate is below -2^30 |
| Selection.BelowFloorIsSkipped | internal/selector/selector.go:252-267 | one eligible account below the floor that is never picked |
| Selection.ListsUnique | internal/selector/selector.go:271-277 | ascending id order leaves no choice |
| Selection.RoundRobinIsFair | internal/selector/selector.go:271-284 | n calls over an unchanged tier of n serve each once if and only if the cursor does not wrap or n divides 2^64 |
| Selection.WrapSkipsATurn | internal/selector/selector.go:279-284 | three accounts and a wrapping cursor: one is served twice |
| Lease.Manager.Acquire | internal/lease/lease.go:166-192 | at most MaxAttempts different accounts tried; a lease is the last one, usable and not cooling; ErrNoAccount only when nothing outside the tried is left; otherwise the budget is spent or the caller gone |
| Lease.Manager.AcquireOnce | internal/lease/lease.go:209-288 | one attempt: the lease goes out with the account's own proxy, the in-flight cap is kept, and exactly the reasons for which it may fail |
| Lease.Manager.BindProxy | internal/lease/lease.go:236-262 | the account's own proxy, or the assigned one, which is the value returned and the value written to the row of the trimmed id and to the hot entry; nothing else changes |
| Lease.Manager.ModelCooldownActive | internal/lease/lease.go:624-643 | whether the model cools; dropping what ran out changes no answer now or later |
| Lease.Manager.Release | internal/lease/lease.go:307-330 | rows, hot entry, bindings and model cooldowns after a release; the lease is counted off first |
| Lease.Manager.ReleaseFailure | internal/lease/lease.go:374-527 | what a failure writes |
| Lease.Manager.ReleaseSuccess | internal/lease/lease.go:332-362 | what a success writes |
| Lease.CooldownBounds | internal/lease/lease.go:537-597 | a cooling time is at least a second and over the cap by the jitter at most, for any cap |
| Lease.StreakCountsAllFailures | internal/lease/lease.go:451-475 | the n-th 403 in a row, after any history: it quarantines if and only if the threshold is reached by the streak and all failures before it together |
| Lease.StreakIsCountedAlone | internal/lease/config.go:44-45 | the documented count of consecutive 403s holds for every streak and threshold if and only if no earlier failure is on record |
| Lease.EightErrorsCount | internal/lease/lease.go:451-475 | eight server errors and two 403s reach a threshold of ten |
| Lease.BoundRow | internal/catalog/catalog.go:945-991 | binding a proxy writes one row, that of the trimmed id |
| Lease.BoundKeeps | internal/lease/lease.go:241-262 | with trimmed ids the assigned proxy is kept with its account and no account loses one |
| Lease.UntrimmedIdRebinds | internal/catalog/catalog.go:962-967 | an id with outer white space takes the proxy of another account away |
| LeaseRuns.AcquireStep | internal/lease/lease.go:166-288 | a call of Acquire is one event of the runs below |
| LeaseRuns.ReleaseStep | internal/lease/lease.go:307-330 | a call of Release is one event, cancelled or not |
| LeaseRuns.PromoteStep | internal/hot/index.go:342-374 | a promotion keeps the manager valid and is one event |
| LeaseRuns.DemoteStep | internal/hot/index.go:392-408 | so is a demotion |
| LeaseRuns.ResizeStep | internal/hot/index.go:111-129 | so is a change of capacity |
| LeaseRuns.ReloadStep | internal/hot/index.go:151-218 | so is a reload of the hot set |
| Refresh.DefaultPolicy.OnRefreshFailure | internal/refresh/policy.go:42-90 | a failed refresh: counters, cooling time, error text and quarantine of one row, and nothing else |
| Refresh.DefaultPolicy.OnRefreshSuccess | internal/refresh/policy.go:93-105 | a refresh that worked out: the refusals are forgotten, the cooling time is not |
| Refresh.UpdateTokens | internal/catalog/catalog.go:452-504 | new tokens are written if and only if the row is still at the expected revision |
| Refresh.FailuresInARow | internal/refresh/policy.go:51-88 | any number of failed refreshes in a row: the account stays on if and only if they and the refusals before are fewer than the threshold; the last cooling time holds |
| LeaseRuns.RefreshFailedStep | internal/refresh/policy.go:42-90 | a failed refresh is one event of the runs |
| LeaseRuns.RefreshDoneStep | internal/refresh/policy.go:93-105 | so is one that worked out |
| LeaseRuns.NewTokenStep | internal/catalog/catalog.go:452-504 | so are new tokens |
| LeaseRuns.RunCounts | internal/hot/index.go:278-408 | over every run: hot in-flight ≤ outstanding leases, with equality while the account stays hot |
| LeaseRuns.UsableWhen | internal/lease/lease.go:374-527 | over every run of manager, index and refresher: an account is usable at a time if and only if it came switched on, no release and no failed refresh has quarantined it, it has a token, and the last cooling time set is over |
| LeaseRuns.CoolingStands | internal/catalog/catalog.go:706-708 | over runs in which no refresh of the account fails: a cooling time stands to its end, whatever else happens, if and only if the account is not lent out |
| LeaseRuns.RefreshCutsShort | internal/refresh/policy.go:51-89 | a failed refresh of an account that is cooling for longer and not lent out leaves it usable after 60 seconds |
| LeaseRuns.LaterTimeWins | internal/catalog/catalog.go:706-708 | two leases on one account: a 403 and then a 401 leave it usable after 60 seconds instead of 300 |
| LeaseRuns.ModelCoolsWhen | internal/lease/lease.go:599-622 | over every run: a model cools on an account at a time if and only if the last time set for it is later |
| LeaseRuns.ModelCoolingStands | internal/lease/lease.go:603-616 | a model's cooling time stands to its end if and only if the account is not lent out for that model |
| LeaseRuns.NeverLeasedAgain | internal/lease/lease.go:290-305 | over every run of manager, index and refresher: an account switched off or quarantined is never leased again |
| LeaseRuns.ProxyIsKept | internal/lease/lease.go:241-262 | over every run, with trimmed ids: an account that has a proxy keeps it |
| LeaseRuns.CountIsForgotten | internal/hot/index.go:342-389 | an account demoted and promoted again shows none of its running calls |
| ClusterState.Memory.TryAcquireShard | internal/clusterstate/memory.go:182-201 | a grant if and only if no other worker holds an unexpired lease; exclusion kept |
| ClusterState.Memory.RenewShard | internal/clusterstate/memory.go:203-217 | the owner's expiry moves; exclusion kept |
| ClusterState.Memory.ReleaseShard | internal/clusterstate/memory.go:219-230 | the owner's entry goes; exclusion kept |
| ClusterState.Memory.GetShardOwner | internal/clusterstate/memory.go:232-244 | the owner named is the one worker that may hold the shard |
| ClusterState.Memory.IncrInflight | internal/clusterstate/memory.go:108-118 | the answer is the number of attempts counted |
| ClusterState.Memory.DecrInflight | internal/clusterstate/memory.go:120-134 | one less with a floor at zero; the counters stay exact if and only if an attempt is counted off or there was nothing to count off |
| ClusterState.Memory.ClaimRefreshDue | internal/clusterstate/memory.go:294-322 | as many due unlocked accounts as asked for, each locked and taken off |
| ClusterState.ClaimIsExclusive | internal/clusterstate/memory.go:294-322 | a claimed account cannot be claimed again before its lock runs out |
| ShardLeases.StepExclusive | internal/clusterstate/memory.go:182-230 | every call keeps: an unexpired acknowledgement is the table's own entry |
| ShardLeases.NeverTwoHolders | internal/clusterstate/memory.go:182-244 | over every interleaving and clock advance no shard has two holders, and the table names the holder |
| ShardLeases.HeldIffTable | internal/clusterstate/memory.go:182-244 | over every run: a worker holds a shard by what it was last told if and only if the table says so |
| ShardLeases.ToldIsNoProof | internal/clusterstate/memory.go:182-201 | one worker takes a shard for d seconds, another tries t seconds later: the first is still on record, and holds it if and only if t < d |
| ShardLeases.LeaseLasts | internal/clusterstate/memory.go:182-217 | a grant or renewal lasts to its expiry against anything others do |
| ShardLeases.ClockMustNotGoBack | internal/clusterstate/memory.go:189-192 | with a clock going back two workers do hold one shard |
| ShardLeases.VersionGrows | internal/clusterstate/memory.go:193-198 | versions grow with grants as long as the entry stands; only a release starts them again |
| Worker.Service.ClaimShards | internal/worker/service.go:289-308 | the shards taken are exactly those each try found free, up to the target, each good for a TTL from the start; held at every moment of a claim that ends in time |
| Worker.Service.RenewShards | internal/worker/service.go:310-326 | what stays is good for at least a TTL from the start; no live lease is dropped; a round that ends while all was good held every shard at every moment and loses none |
| Worker.Service.Run | internal/worker/service.go:265-287 | if every round ends less than a TTL after the one before it started, every shard on the list is held at every moment up to the end, one step of anybody at a time, and none is lost |
| Worker.Service.ReleaseAll | internal/worker/service.go:328-338 | nothing on the list is held afterwards |
| Worker.StoreLeaser.PassGate | internal/worker/leaser.go:86-95 | increment then check: passing leaves the attempt counted once, refusal leaves it counted nowhere |
| Worker.StoreLeaser.AcquireAttempt | internal/worker/leaser.go:57-126 | a lease leaves the attempt counted once, a failure nowhere; the account the shared state has on record for the session comes first if it may serve, else its second; the reasons for failing |
| Worker.StoreLeaser.Acquire | internal/worker/leaser.go:38-55 | at most maxAttempts different accounts tried, the shared one first; how the call may end |
| Worker.StoreLeaser.Release | internal/worker/leaser.go:128-179 | the counter goes down; it stays exact if and only if the lease was out or there was nothing to take off; what a failure cools |
| InflightGate.AtMostMaxLeases | internal/worker/leaser.go:82-112 | for every interleaving of the workers' steps: at most max leases on an account, and the counter is the number of attempts counted and not counted off |
| InflightGate.StrayDecrement | internal/clusterstate/memory.go:120-134 | a decrement with no attempt behind it makes the counter wrong unless it finds nothing |
| InflightGate.EndGated | internal/clusterstate/memory.go:120-134 | counting off is exact, so the floor at zero is never used |
| InflightGate.CountedHere | internal/worker/leaser.go:86-95 | an attempt admitted by its own answer counts everyone admitted before it |
| InflightGate.RefusalMeansBusy | internal/worker/leaser.go:90-95 | a refusal if and only if max others were counted |
| InflightGate.RefusedWithoutLeases | internal/worker/leaser.go:86-112 | but they need not hold leases: a refusal with no lease on the account |
| Clients.Store.AcquireSlot | internal/clients/store.go:453-482 | slot and window after a call; a refused call takes neither |
| Clients.Store.ReleaseSlot | internal/clients/store.go:486-499 | one less with a floor at zero; the count stays exact if and only if a holder gave its slot back or there was none |
| Clients.Store.ReserveQuota | internal/clients/store.go:514-546 | the guarded reservation and its errors; the books stay balanced |
| Clients.Store.RefundQuota | internal/clients/store.go:549-569 | the guarded refund and its errors; the books stay balanced if and only if it ends a reservation, is refused, or the token is unlimited |
| Clients.Store.SettleUsage | internal/clients/store.go:573-627 | the bounded settlement, its shortfall and errors; the books stay balanced if and only if it ends a reservation, is refused, or the token is unlimited |
| Clients.Store.RecordUsage | internal/clients/store.go:631-665 | the guarded one-step use; the books stay balanced |
| Clients.RequireClient | internal/httpserver/middleware.go:206-286 | a reservation ends exactly one way (settled for 200-499, else refunded, or leaked when the token is off), unless the handler panics; the slot is always given back |
| Ledger.StepBalanced | internal/clients/store.go:514-665 | every step keeps remain + used + open + lost = grant + shortfall, with nothing below zero |
| Ledger.StrayEnd | internal/clients/store.go:549-627 | a refund or settlement with no reservation behind it breaks the books of every token that is not unlimited |
| Ledger.Conservation | internal/clients/store.go:514-665 | for a finite token that stays enabled, over every interleaving: remain ≥ 0 and remain + used + open = grant + shortfall |
| Ledger.LeaksWhenOff | internal/clients/store.go:549-590 | a reservation leaks if and only if the token is off when it ends |
| RateGate.RefusalIsFree | internal/clients/store.go:462-476 | a refused call takes no slot and no count; at most it opens an empty window |
| RateGate.StepFair | internal/clients/store.go:453-482 | every call keeps the bounds on windows and minutes |
| RateGate.RpmBound | internal/clients/store.go:453-482 | over every run: windows a minute apart, at most rpm calls in each, at most 2·rpm in any half-open minute |
| RateGate.TwiceIsReached | internal/clients/store.go:462-480 | for every limit the bound 2·rpm is reached by a token with one slot all along: a refusal for concurrency opens a window, and each call after it is over before the next |
| RateGate.UnhinderedBound | internal/clients/store.go:462-480 | without a refusal for concurrency at most 2·rpm − 1 calls fit into a minute |
| ImportJobs.UploadPermit.Release | internal/importjobs/jobs.go:95-108 | the permit goes; a second release changes nothing |
| ImportJobs.Manager.ReserveUpload | internal/importjobs/jobs.go:347-363 | a new permit if and only if open and a slot is free |
| ImportJobs.Manager.Submit | internal/importjobs/jobs.go:546-599 | which refusal, or the job started, its permit consumed and the history trimmed; the job itself is kept |
| ImportJobs.Manager.Complete | internal/importjobs/jobs.go:721-742 | one slot less, the job finished, the history trimmed; the count of running jobs stays exact if and only if the job was unfinished or none was counted |
| ImportJobs.Manager.TrimLocked | internal/importjobs/jobs.go:744-761 | the loop comes to dropping the first surplus finished jobs |
| ImportJobs.TrimMeans | internal/importjobs/jobs.go:744-761 | nothing unfinished goes, what stays keeps its order, order and jobs stay in bijection, and at most maxKeep are left or none is finished |
| ImportJobs.OldestGo | internal/importjobs/jobs.go:744-761 | older finished jobs go first |

## Left out

- StreamTranslator.StreamTranslator.ProcessData: requires an event in order, because content events after the terminal
  frame other than [DONE] are not guarded by the code; any frame they wrote would break the stream
  (`StreamReader.NothingAfterTerminal`). Writes always succeed. The pipes require the same of their payloads.
- StreamTheorems.DeliveredOnce: speaks of one block; a text that arrives under two keys is the subject of `TextTwice`, and
  thinking blocks are that of `StreamThinking`.
- Stream parsing: events start after JSON decoding; a payload that is not JSON is one event. Error-type mapping of
  failures and usage cost parsing are finite tables and not modelled; block and thinking state are keys and values,
  not pointers.
- Sse.Pipe: the line limit is exact, but reads that fail halfway are not modelled; ProcessLine is not modelled.
- Sse.StreamAgrees: speaks of lines, not of how the standard finds line ends or of its byte order mark.
- ConvertMessage.Convert: lower-casing is ASCII only; JSON encoding is two functions given from outside.
- HotIndex.Index.SampleEligible: a missing random source (nil) is not modelled; in-flight counts do not wrap at 32 bits.
- HotIndex.Index.LoadEligible: the catalogue does not change between its pages, and closing between its two lock phases
  is not modelled; database errors are not modelled.
- Hot entries: revision, identity key and expiry time are copied along in the source and not modelled.
- Selection.Selector.Pow2Pick: scores are real numbers; rounding is not modelled.
- Selection.Selector.PickExcluding: hit counters are not modelled, nor is ApplyConfig, which can swap the sticky table.
- Lease.Manager.Acquire: says of other hot entries that their counts are unchanged, not that their proxy fields are;
  catalogue read errors other than a missing row are not modelled.
- Lease.Manager.Release: last-used times, proxy failure reports and persisted model cooldowns are not modelled.
- Lease.CooldownBounds: a negative CooldownExpMax, on which the source's shift panics, is not modelled; a shift that
  leaves 64 bits wraps as in the source.
- LeaseRuns.UsableWhen: an administrator switching accounts on or off, imports, deletions and probes also write rows and
  are no events of the runs; NeverLeasedAgain is subject to the same. Each event is one step: a release and a refresh of
  one account that read its row at the same time are not modelled.
- Refresh.DefaultPolicy.OnRefreshFailure: scanning, rate limiting and the OAuth call are not modelled, nor are times of
  expiry; an error text is cut by characters.
- LeaseRuns.CoolingStands: speaks of times with more than a second to go, and so does ModelCoolingStands.
- LeaseRuns.RunCounts: leaves out LoadMetas, which may bring counts of its own.
- ClusterState.Memory: the shared sticky table and worksets are not modelled, nor is the Redis state, whose renewal is
  a separate read and write and has no such theorem.
- Worker.StoreLeaser.AcquireAttempt: what the shared state has on record for a session is an input, and the store does
  not change during an attempt.
- Worker.Service.ClaimShards: the reload of the hot set that follows a claim is not modelled; nor is reconciling in
  Worker.Service.Run, which touches no lease.
- Worker.StoreLeaser.Release: what it writes to the shared sticky table is not modelled.
- Clients.RequireClient: key extraction and authentication are its input; the static API key mode is not modelled.
- Ledger.Conservation: patches of a token's quota and of its unlimited flag are not modelled; 64-bit overflow is not.
- ImportJobs.Manager.Submit: staging files are two flags; progress details and changes of the slot limit while jobs
  run are not modelled.
- Settings, HTTP handlers, SQL, OAuth, proxies and the user interface: input and output, or finite tables.
