# Verified core of an LLM gateway

The gateway relays requests to upstream model channels, bills users for them, and lets administrators manage the
channels. This project models the parts of it that carry protocols, state machines and non-trivial loops, and proves
what they guarantee over every input, every interleaving and every run.

- `LockProtocol.dfy`, `TopUp.dfy`: the reference-counted order lock, interleaved at every shared access, and crediting of top-up orders under it
- `RateLimit.dfy`: the in-memory sliding-window limiter and its purge
- `ModelNames.dfy`, `Reconcile.dfy`, `ReconcileRuns.dfy`: reconciling a channel's model list with its upstream
- `MultiKey.dfy`, `MultiKeyChannel.dfy`: administration of channels with several keys
- `BodyStorage.dfy`, `BodyCache.dfy`: request bodies in memory and on disk, and the usage accounting
- `OpusScan.dfy`: the Ogg page scanner behind the duration of Opus audio
- `StepUp.dfy`: step-up verification markers in the session
- `VideoTask.dfy`, `Billing.dfy`, `Relay.dfy`: settlement of video tasks, the billing session, the retry loops
- `RatioDiff.dfy`, `ModelsDev.dfy`: price comparison and the cheapest-provider choice
- `Enrich.dfy`: filling in a page of models in one batch
- `Text.dfy`, `Wrappers.dfy`: trimming, splitting and joining text; options

Each part has a value model (datatypes and step functions), the code as classes and methods with loops that are proved
to compute those steps, and lemmas about all runs of the steps. Clocks, stores, upstream answers, regular-expression
matching and failures of writes are parameters, so the lemmas hold for every behaviour of them.

## Where the code does less than it promises

The model follows the code. In these places a natural promise is false. The lemmas named show how it fails and, where
that depends on the input, exactly when it holds.

- Model names are stored in one comma-separated text, so an upstream name that contains a comma is stored as its pieces.
  Applying all pending changes then never settles (`Reconcile.CommaStaysPending`, exact condition
  `Reconcile.ConvergesIff`), and the denylist is bypassed (`ReconcileRuns.CommaBypasses`, exact condition
  `ReconcileRuns.GainsExactly`).
- In the same way an ignored name is added (`ReconcileRuns.CommaAddsIgnored`).
- A pending name that starts with `regex:` removes the ignore rule of the same text when it is added, and what only that
  rule held back comes up again (`Reconcile.RegexNameUnmasks`, exact condition `Reconcile.ConvergesIff`).
- The comment on the limiter's constants asks for durations no longer than the purge expiration. One more second is still
  exact, and every longer duration over-admits (`RateLimit.AcceptsIffWindowHasRoom`,
  `RateLimit.LongerDurationsOverAdmit`). A limit of zero admits one request.
- An action on a multi-key channel acts on the list of keys and their records as it should if and only if the keys a
  deletion leaves begin and end with a non-blank key, because the stored text is trimmed of newlines
  (`MultiKey.ActionRefinesIff`; `MultiKey.BlankIsLost` is a failing row). An empty key text is not written at all, so
  deleting the disabled keys of a channel in which all keys are automatically disabled deletes none and enables them all
  (`MultiKey.DeletingAllRevivesAll`).
- Appending keys keeps the old list and adds every new key once if and only if the stored text is not all newlines or
  nothing is new, and, for a channel without keys, the lines are already trimmed and distinct
  (`MultiKeyChannel.AppendIsExactIff`; `MultiKeyChannel.FirstBatchKeepsRepeats` is a failing batch).
- A paid order is credited if and only if the credit call after its status was stored succeeds. If it fails, no later
  notification repeats it (`TopUp.CreditedIff`, `TopUp.FailedCreditIsLost`, `TopUp.LostForever`).
- The two body storages differ on empty reads, and nowhere else (`BodyStorage.SameAnswerIff`).
- A failed video task that its upstream reports as running again can be refunded twice, a task row that could not be
  written can be charged twice, and tasks failed because their channel is gone are never refunded
  (`VideoTask.RevivalRefundsTwice`, `VideoTask.LostUpdateChargesTwice`, `VideoTask.BulkFailureKeepsCharge`; exact condition
  `VideoTask.SettledKeptIff`).
- The books of a billing session balance over a sequence of calls if and only if no settlement takes effect after a
  refund (`Billing.BooksBalanceIff`; `Billing.SettleAfterRefundIsWrong` is a failing sequence); the relay handlers end a
  session with one call.
- RetryTimes + 1 bounds the attempts of a relayed request if and only if it may use one group only or RetryTimes is zero
  (`Relay.RelayBoundedIff`), and those of a task also when its channel is locked or named by the token
  (`Relay.TaskBoundedIff`). Otherwise a group that runs out of channels restarts the counter in the next one, with or
  without cross-group retry (`Relay.OneTooMany`).
- A price difference is reported if and only if a channel that survives the pruning shows something other than the marker
  there (`RatioDiff.BuildDifferences`). The whole report is sound and complete exactly when nothing is hidden in this way
  (`RatioDiff.SoundAndCompleteIff`). A null, the text "same" as a price, and a repeated channel name can each hide one
  (`RatioDiff.NullIsLost`, `RatioDiff.MarkerTextIsLost`, `RatioDiff.RepeatedNameIsLost`).

## Model

| member | source | states |
|---|---|---|
| `LockProtocol.NextKeepsInv` | controller/topup.go:267-307 | every shared access by any of any number of threads keeps the invariant: `refCount` of a mapped mutex is the number of threads between increment and decrement, the mutex of each of them is the one in the map, owners of mutexes are inside the section, no entry without a thread relying on it, nobody has crashed |
| `LockProtocol.RunKeepsInv` | controller/topup.go:267-307 | the invariant holds in every state of every interleaving that starts with an empty map |
| `LockProtocol.KeyIsEntered` | controller/topup.go:278-290 | in every run a thread works with the trade number of its last `Enter` |
| `LockProtocol.MutualExclusion` | controller/topup.go:278-307 | in every run, two threads that hold the lock and whose last `Enter` was for the same trade number are the same thread |
| `LockProtocol.LookupIsStable` | controller/topup.go:293-306 | while a thread is counted, the map holds under the trade number it last entered its mutex, with a `refCount` equal to the number of counted threads of that number; the mutex that unlock looked up without `createLock` is the one this thread locked |
| `LockProtocol.UnlockNeverFails` | controller/topup.go:293-306 | unlock always finds the entry and never unlocks a mutex nobody holds |
| `LockProtocol.NoEntryOnceIdle` | controller/topup.go:299-305 | once no thread that is in the protocol last entered a trade number, the map has no entry for it |
| `LockProtocol.DeadlockFree` | controller/topup.go:278-307 | whenever some thread is in the protocol, a thread is inside the section or one can move |
| `TopUp.WorkFrame` | controller/topup.go:375-401 | a database call of a handler changes its own order, its own job and at most the credit of its own order |
| `TopUp.WorkKeepsLedger` | controller/topup.go:384-400 | a database call keeps the ledger backed by successful, correctly priced, distinct orders, and never changes an order that has left pending |
| `TopUp.DoKeepsData` | controller/topup.go:372-407 | every event (begin, lock step, database call that may fail, finish, new order) keeps the data invariant, given mutual exclusion |
| `TopUp.HistoryKeepsInv` | controller/topup.go:372-407 | lock and data invariants hold together in every state of every history of EPay success, Stripe failure and Stripe expiry handlers |
| `TopUp.WorksOnBegun` | controller/topup.go:372-407 | in every history a handler in its section works on the order, and for the purpose, of its last `Begin` |
| `TopUp.OneHandlerInside` | controller/topup.go:372-374 | two handlers inside the section whose last `Begin` was for the same trade number are the same handler |
| `TopUp.WorkTouchesBegun` | controller/topup.go:375-401 | a database call of a handler changes no order but the one its last `Begin` named |
| `TopUp.OrdersSettleOnce` | controller/topup_stripe.go:231-251 | between any two states of a history an order keeps buyer, amount and provider, and once it is not pending it never changes |
| `TopUp.CreditedAtMostOnce` | controller/topup.go:384-403 | all credits belong to different orders, each stored as success and credited Amount × QuotaPerUnit to its buyer |
| `TopUp.CreditFollowsSuccess` | controller/topup.go:389-400 | a step that credits finds the order already stored as success and not credited before |
| `TopUp.CreditMovesBalance` | model/user.go:904-933 | every step changes a balance by exactly what it appends to the ledger |
| `TopUp.QuotaIsWholePart` | controller/topup.go:397-399 | the credit is the whole part of Amount × QuotaPerUnit, truncated toward zero |
| `TopUp.PaidIsCredited` | controller/topup.go:384-401 | in every history, whatever else fails, an EPay order that became success and whose credit call does not fail has been credited, or a handler inside its section is about to credit it |
| `TopUp.CreditedIff` | controller/topup.go:397-401 | once that handler is done, such an order has been credited if and only if its credit call succeeded, for a known buyer and a quota that is not negative |
| `TopUp.FailedCreditIsLost` | controller/topup.go:397-401 | a credit call that fails leaves the order settled, not credited and with nobody about to credit it |
| `TopUp.LostForever` | controller/topup.go:384-403 | an order in that situation is not credited in any later state, however many notifications come |
| `TopUp.PaidInFull` | controller/topup.go:384-401 | otherwise the ledger credits its buyer the whole part of Amount × QuotaPerUnit |
| `TopUp.BalanceIsCredit` | controller/topup.go:397-401 | in every state a user's balance is the initial one plus all credits to that user |
| `TopUp.Tables.EpayNotify` | controller/topup.go:372-407 | over the tables alone: a pending EPay order with all three calls succeeding becomes success with the method paid by, the balance grows by the whole part of amount × unit and the ledger gains that one entry; a failed or impossible credit leaves balance and ledger, and every other case leaves all tables, as they were |
| `TopUp.Tables.EpayNotifySteps` | controller/topup.go:372-407 | the same section leaves the tables as the three steps of the state machine do and ends it |
| `TopUp.EpaySection` | controller/topup.go:372-407 | the three steps have the effect on the tables that `EpayNotify` states |
| `TopUp.Tables.Credit` | controller/topup.go:397-401 | a successful credit of an existing user adds the whole part of amount × unit to that balance and one ledger entry, and nothing else |
| `TopUp.Tables.AsyncPaymentFailed` | controller/topup_stripe.go:231-255 | a pending Stripe order becomes failed if the save succeeds; every other order, and every other case, leaves the tables as they were; and these are the steps of the state machine |
| `TopUp.Tables.Expire` | model/topup.go:87-112 | a pending Stripe order becomes expired if the transaction succeeds; nothing else changes; and this is the step of the state machine |
| `TopUp.Tables.Increase` | model/user.go:904-933 | a credit adds to the balance and the ledger, or changes nothing for a failure, a negative amount or an unknown user |
| `RateLimit.InMemoryRateLimiter.Request` | common/rate-limit.go:45-70 | the request answers and updates the store as the step function `Asked`, for known and unknown keys, full and partial queues |
| `RateLimit.InMemoryRateLimiter.ClearExpiredItems` | common/rate-limit.go:31-41 | one purge removes exactly the keys whose newest request is older than the expiration, in any order, and keeps the queues of the others |
| `RateLimit.AnswerCounts` | common/rate-limit.go:45-70 | under the queue invariant one request is accepted exactly when fewer than its limit of the whole history are young |
| `RateLimit.AskKeepsInv` | common/rate-limit.go:49-61 | a request keeps the queue the tail of the accepted history, with everything dropped too old or the queue full |
| `RateLimit.SweepKeepsInv` | common/rate-limit.go:33-39 | a purge loses only histories that can no longer matter |
| `RateLimit.RunKeepsInv` | common/rate-limit.go:28-70 | the queue invariant holds after every sequence of requests for any keys and purges |
| `RateLimit.AcceptsIffWindowHasRoom` | common/rate-limit.go:45-70 | after any interleaving of requests and purges, a request is accepted exactly when fewer than the limit of all earlier accepted requests are younger than the duration |
| `RateLimit.AcceptedAreSpaced` | common/rate-limit.go:49-61 | an accepted request and the one a full limit before it are at least the duration apart |
| `RateLimit.NoWindowOverflows` | common/constants.go:206-233 | no window of the key's duration, wherever it starts, holds more accepted requests than the limit, for durations up to the expiration plus one |
| `RateLimit.LongerDurationsOverAdmit` | common/rate-limit.go:33-39 | for every longer duration and every limit there is a run in which a full window accepts one more |
| `ModelNames.NormalizeFacts` | controller/channel_upstream_update.go:107-112 | normalising yields trimmed, non-empty, distinct names, exactly those of the input |
| `ModelNames.NormalizeFixed` | controller/channel_upstream_update.go:107-112 | a normal list is left as it is |
| `Text.TrimSplits` | controller/channel_upstream_update.go:107-112 | what a trim takes away at either end consists of cut characters, and nothing in between is lost |
| `ModelNames.MergeModelNames` | controller/channel_upstream_update.go:114-128 | the loop over the seen-map computes the deduplicated concatenation `Merge` |
| `ModelNames.MergeFacts` | controller/channel_upstream_update.go:114-128 | the merge is normal and is the union |
| `ModelNames.MergeNew` | controller/channel_upstream_update.go:114-128 | merging unknown names keeps the base as a prefix and appends them in order |
| `ModelNames.SubtractFacts` | controller/channel_upstream_update.go:130-139 | the result is normal and is the difference |
| `ModelNames.IntersectFacts` | controller/channel_upstream_update.go:141-150 | the result is normal and is the intersection |
| `ModelNames.GetModelsNames` | model/channel.go:274-279 | trimming commas before splitting does not change the names of a stored list |
| `ModelNames.StoredPieces` | controller/channel_upstream_update.go:401 | storing a list and reading it back gives exactly the trimmed comma-separated pieces of its names |
| `ModelNames.StoredRoundTrip` | controller/channel_upstream_update.go:818 | a normal list without commas survives storing and reading, in order |
| `ModelNames.StoredNamesArePlain` | model/channel.go:274-279 | no name read back contains a comma |
| `Reconcile.CollectFacts` | controller/channel_upstream_update.go:186-248 | pending additions are exactly the upstream names that are neither local, redirect targets, hard-excluded nor ignored; pending removals exactly the local names that are neither upstream nor redirect sources |
| `Reconcile.CollectMeans` | controller/channel_upstream_update.go:186-248 | a name is added exactly if it is offered, not local, none of the three excluded names, no redirect target, equal to no plain ignore rule and matched by no `regex:` rule |
| `Reconcile.SelectionFacts` | controller/channel_upstream_update.go:806-812 | a selection is cut down to what is pending, and additions win over removals |
| `Reconcile.NextModelsFacts` | controller/channel_upstream_update.go:152-157 | the next list holds the local and added names without the removed ones |
| `Reconcile.AppliedLocal` | controller/channel_upstream_update.go:814-819 | after an apply the channel holds the pieces of the next list, and the list itself in order when it has no commas |
| `Reconcile.AppliedLists` | controller/channel_upstream_update.go:821-828 | which names are ignored, pending to add and pending to remove after an apply, and the time of the check |
| `Reconcile.AppliedRemovals` | controller/channel_upstream_update.go:826-828 | after an apply exactly those removals are pending that were, and that were not selected or were also selected as additions |
| `Reconcile.AfterApplyAll` | controller/channel_upstream_update.go:793-841 | what a detection followed by applying everything leaves in all lists; nothing stays pending, neither to add nor to remove |
| `Reconcile.ConvergesIf` | controller/channel_upstream_update.go:186-248 | if no pending name has a comma and no dropped rule unmasks a candidate, a second detection finds nothing |
| `Reconcile.ConvergesOnlyIf` | controller/channel_upstream_update.go:186-248 | otherwise the second detection finds an addition |
| `Reconcile.ConvergesIff` | controller/channel_upstream_update.go:793-841 | detect, apply all, detect again is empty if and only if that condition held before |
| `Reconcile.CommaStaysPending` | controller/channel_upstream_update.go:814-819 | a pending name with a comma is pending again after applying everything |
| `Reconcile.UnmaskedBecomesPending` | controller/channel_upstream_update.go:822-824 | a candidate ignored only by a dropped rule becomes pending |
| `Reconcile.OrdinaryListsConverge` | controller/channel_upstream_update.go:793-841 | upstream lists without commas and without `regex:` names always converge |
| `Reconcile.ApplyAllKeepsOrder` | controller/channel_upstream_update.go:152-157 | applying everything keeps the surviving local names in order, appends the additions in order, and keeps every local redirect source |
| `Reconcile.CommaDiverges` | controller/channel_upstream_update.go:814-819 | every admissible name with a comma makes an empty channel diverge |
| `Reconcile.RegexNameUnmasks` | controller/channel_upstream_update.go:822-824 | every rule offered as a name unmasks what only it ignored and makes the channel diverge |
| `ReconcileRuns.ChannelRow.CheckAndPersist` | controller/channel_upstream_update.go:373-420 | the check updates the row as the model's step, counts the auto-added names, reports a change exactly when it was saved and added something, and leaves the row alone when it is too early or the write fails |
| `ReconcileRuns.CheckMeans` | controller/channel_upstream_update.go:373-420 | what a check stores: nothing before the interval has passed, only the time after a failed fetch, otherwise the time, exactly the stale names, and exactly the missing names, of which auto-sync leaves none pending; without auto-sync the list stays |
| `ReconcileRuns.ChannelRow.ApplyUpdates` | controller/channel_upstream_update.go:793-841 | the apply updates the row as the model's step; it returns the selected names, exactly the names that stay pending to add and to remove, and whether the list changed, or empty lists when the write fails |
| `ReconcileRuns.GainsExactly` | controller/channel_upstream_update.go:397-409 | a step gives a channel exactly the comma-separated pieces of the names it sets out to add |
| `ReconcileRuns.PendingNeverIgnored` | controller/channel_upstream_update.go:220-237 | over every run no plain name is both pending and ignored |
| `ReconcileRuns.SuppressedForever` | controller/channel_upstream_update.go:220-237 | a plain name that is ignored and not pending stays so in every run |
| `ReconcileRuns.IgnoredForever` | controller/channel_upstream_update.go:806-828 | and is never added to the channel, whatever checks find and selections ask, in runs without commas |
| `ReconcileRuns.IgnoringSuppresses` | controller/channel_upstream_update.go:809-828 | ignoring a pending name without adding it makes it such a name |
| `ReconcileRuns.ExcludedNeverPending` | controller/channel_upstream_update.go:39-43 | a hard-excluded name never becomes pending and no step sets out to add it |
| `ReconcileRuns.ExcludedNeverAdded` | controller/channel_upstream_update.go:220-224 | a hard-excluded name is never added by auto-sync or apply in runs without commas |
| `ReconcileRuns.CommaBypasses` | controller/channel_upstream_update.go:397-404 | with a comma, auto-sync adds any hard-excluded name |
| `ReconcileRuns.CommaAddsIgnored` | controller/channel_upstream_update.go:397-404 | with a comma, auto-sync adds any ignored name that is not pending |
| `MultiKey.StoreRoundTripIff` | model/channel.go:159-181 | a key list survives joining, storing and splitting if and only if it is non-empty and its first and last keys are not blank |
| `MultiKey.SwitchOneMeans` | controller/channel.go:1392-1453 | disabling sets status 2 and keeps time and reason, enabling sets status 1 and drops them, and the other records stay |
| `MultiKey.SwitchAllMeans` | controller/channel.go:1475-1516 | the same for all records, where disabling changes only those with status 1 |
| `MultiKey.DeleteMeans` | controller/channel.go:1557-1604 | deleting keeps the other records in order |
| `MultiKey.PruneMeans` | controller/channel.go:1620-1672 | deleting the disabled keys does nothing without a status 3, enables all when every status is 3, and prunes otherwise |
| `MultiKey.SurvivorsSplit` | controller/channel.go:1636-1657 | pruning goes record by record in order: status 3 goes, status 1 keeps only its key, others stay as they are |
| `MultiKey.OneRefines` | controller/channel.go:1392-1453 | disabling or enabling one key does the same to its record, for indices in and out of range |
| `MultiKey.AllRefine` | controller/channel.go:1475-1516 | enabling or disabling all keys does the same to all records |
| `MultiKey.DeleteRefinesIff` | controller/channel.go:1557-1604 | deleting a key removes exactly its record, re-indexing all maps, if and only if the remaining keys survive storing |
| `MultiKey.DeleteDisabledRefinesIff` | controller/channel.go:1620-1672 | deleting the automatically disabled keys keeps exactly the other records, with time and reason of the disabled ones, under the same condition |
| `MultiKey.DeletingAllRevivesAll` | model/channel.go:524-571 | when all keys are automatically disabled, none is deleted and all are enabled |
| `MultiKey.ActionRefinesIff` | controller/channel.go:1392-1672 | an action on the index-keyed maps is the action on the list of records if and only if the keys it leaves survive storing; then the size stays the number of keys and every map index below it |
| `MultiKey.SequenceRefines` | controller/channel.go:1392-1672 | every sequence of actions that are guarded when their turn comes is the same sequence on the list of records |
| `MultiKey.SwitchingIsGuarded` | controller/channel.go:1392-1516 | sequences that only enable and disable are always guarded |
| `MultiKey.NoBlankSequence` | controller/channel.go:1392-1672 | without blank keys every sequence refines, and no key becomes blank |
| `MultiKey.BlankIsLost` | model/channel.go:179-180 | deleting the first of the keys "a", blank, "b" loses the blank one too |
| `MultiKeyChannel.Block` | controller/channel.go:1505-1516 | the loop disables exactly the enabled positions and counts them |
| `MultiKeyChannel.RemoveOne` | controller/channel.go:1557-1589 | the loop keeps every other key and re-indexes its status, time and reason |
| `MultiKeyChannel.RemoveAuto` | controller/channel.go:1620-1657 | the loop keeps the keys that are not automatically disabled, re-indexed, and counts the deleted ones |
| `MultiKeyChannel.Channel.Save` | model/channel.go:524-571 | an empty key text is not written, the size is recounted from the text in force, and exactly the statuses below it are kept |
| `MultiKeyChannel.Channel.DisableKey` | controller/channel.go:1392-1411 | the object follows the step: the key gets status 2, nothing else changes, and the answer is whether the index was in range |
| `MultiKeyChannel.Channel.EnableKey` | controller/channel.go:1435-1453 | as above for enabling: status, time and reason of the key are gone, those of the others stay |
| `MultiKeyChannel.Channel.EnableAllKeys` | controller/channel.go:1475-1477 | as above for all keys |
| `MultiKeyChannel.Channel.DisableAllKeys` | controller/channel.go:1505-1516 | as above, with the number of keys disabled |
| `MultiKeyChannel.Channel.DeleteKey` | controller/channel.go:1548-1604 | as above, and the last key cannot be deleted |
| `MultiKeyChannel.Channel.DeleteDisabledKeys` | controller/channel.go:1620-1672 | as above, with the number of keys deleted |
| `MultiKeyChannel.Channel.AppendKeys` | controller/channel.go:878-948 | the append mode stores the old keys followed by the fresh ones |
| `MultiKeyChannel.TrimmedLines` | controller/channel.go:916-922 | the non-blank lines of the input, trimmed, in order |
| `MultiKeyChannel.Seen` | controller/channel.go:925-932 | the keys already there, up to trimming |
| `MultiKeyChannel.Dedup` | controller/channel.go:933-944 | the new keys once each, in order, without those present up to trimming |
| `MultiKeyChannel.FreshFacts` | controller/channel.go:914-944 | the fresh keys are distinct and are exactly the non-blank trimmed lines not yet present |
| `MultiKeyChannel.AppendKeepsPrefix` | controller/channel.go:946-947 | the stored list is the old list followed by the fresh keys |
| `MultiKeyChannel.AppendToBlank` | controller/channel.go:893-895 | what happens to a text of newlines only |
| `MultiKeyChannel.AppendToEmpty` | controller/channel.go:878 | a channel without keys stores the input as it is |
| `MultiKeyChannel.PrefixKeptIff` | controller/channel.go:878-947 | exactly when the old list is kept as a prefix, for every stored text |
| `MultiKeyChannel.AppendIsExactIff` | controller/channel.go:878-947 | exactly when the old list stays and each new key is added once, trimmed and unless present |
| `MultiKeyChannel.FirstBatchKeepsRepeats` | controller/channel.go:878 | a key repeated in the first batch is stored twice |
| `MultiKeyChannel.AppendExtendsView` | controller/channel.go:878-947 | under that condition every old record keeps its position, key, status, time and reason; new records are enabled |
| `MultiKeyChannel.AppendTwice` | controller/channel.go:878-947 | appending the same input again adds nothing, whatever the stored text |
| `BodyStorage.MemoryStorage.Call` | common/body_storage.go:47-81 | the memory storage follows its step function for read, seek, bytes and close |
| `BodyStorage.DiskStorage.ReadAll` | common/body_storage.go:198-230 | reading the whole body returns every byte and restores the position |
| `BodyStorage.DiskStorage.Call` | common/body_storage.go:169-230 | the disk storage follows its step function |
| `BodyStorage.CallsMean` | common/body_storage.go:47-81 | as numbers: where a seek ends and when it fails, which bytes a read and a read of the whole body deliver, and that a closed storage answers nothing |
| `BodyStorage.SameAnswerIff` | common/body_storage.go:47-230 | storages of the same body answer a call alike if and only if it is not an empty read of an open storage at or past the end, and stay the same either way |
| `BodyStorage.Indistinguishable` | common/body_storage.go:47-230 | no sequence of calls without empty reads tells them apart |
| `BodyStorage.ReadsDeliverInOrder` | common/body_storage.go:47-54 | reads of any sizes deliver the rest of the body in order, up to their total |
| `BodyCache.Process.CreateBodyStorage` | common/body_storage.go:241-259 | creation from bytes: on disk exactly when caching is on, the size reaches the threshold and fits the maximum, and the file can be written, in memory otherwise |
| `BodyCache.Process.CreateBodyStorageFromReader` | common/body_storage.go:262-303 | creation from a reader: exactly when a body is stored, too large or failed, and when it goes to disk; counters follow the step |
| `BodyCache.Process.CloseStorage` | common/body_storage.go:187-196 | closing counts down once, however often it is called |
| `BodyCache.StepIsExact` | common/disk_cache_config.go:109-134 | every step keeps counters and byte totals equal to those of the open storages, and the clamp to zero never fires |
| `BodyCache.RunsAreExact` | common/body_storage.go:241-303 | so does every run of creations and repeated closes |
| `BodyCache.UsageStaysBelow` | common/disk_cache_config.go:170-177 | disk usage never exceeds the maximum by more than one body limit less one |
| `BodyCache.HonestUsageStaysWithin` | common/disk_cache_config.go:170-177 | with honest declared lengths it never exceeds the maximum |
| `BodyCache.SlackIsReached` | common/body_storage.go:262-303 | a run that reaches the larger bound |
| `OpusScan.GranuleRoundTrip` | common/audio.go:228-229 | a granule position written as 64-bit two's complement, lowest byte first, is read back, negative ones included |
| `OpusScan.SyncIsOggS` | common/audio.go:219-220 | the sync pattern of a page is the text "OggS" |
| `OpusScan.TruncatedPageEnds` | common/audio.go:234-239 | a page whose segment table is cut off is the last one visited |
| `OpusScan.PageSize` | common/audio.go:241-245 | the loop adds up the segment table |
| `OpusScan.ReadPage` | common/audio.go:228-248 | a page yields its signed granule position and the position behind its payload, or none when the table is cut off |
| `OpusScan.ScanPages` | common/audio.go:199-249 | the resynchronising scan visits exactly the positions of `Visits` and keeps the largest non-negative granule position of them; it ends on every input |
| `OpusScan.GetOpusDuration` | common/audio.go:196-254 | the duration is that granule position at 48 kHz |
| `OpusScan.StepOverPage` | common/audio.go:228-248 | wherever the bytes of a well-formed page stand, the scan steps from its start to its end |
| `OpusScan.ScanFindsPages` | common/audio.go:204-249 | on pages separated by gaps without the sync pattern the scan visits exactly the page starts, whatever the payloads contain |
| `OpusScan.ScanReadsGranules` | common/audio.go:228-232 | and reads exactly their granule positions |
| `OpusScan.BestIsMax` | common/audio.go:230-232 | the running maximum is the maximum of zero and all granule positions |
| `OpusScan.ScanIsExact` | common/audio.go:196-254 | for every such stream: page starts and the maximum of zero and all signed granule positions |
| `StepUp.SessionStore.PasskeyVerifyFinish` | controller/passkey.go:485-493 | a finished assertion writes the ready marker |
| `StepUp.SessionStore.SetSecureVerification` | controller/secure_verification.go:145-155 | a verification consumes the marker and stamps time and method |
| `StepUp.SessionStore.ConsumePasskeyReady` | controller/secure_verification.go:157-179 | consuming succeeds exactly for a saved, unexpired marker, and removes it |
| `StepUp.SessionStore.VerifyPasskey` | controller/secure_verification.go:98-130 | the passkey branch follows its step |
| `StepUp.SessionStore.VerifyTwoFactor` | controller/secure_verification.go:86-130 | the two-factor branch follows its step |
| `StepUp.SessionStore.RequireMethod` | controller/passkey.go:559-576 | the check answers by method and age and clears an expired verification |
| `StepUp.ReadySource` | controller/passkey.go:485-493 | in every trace a ready marker stems from an assertion nobody has used or overwritten since |
| `StepUp.VerifiedSource` | controller/secure_verification.go:145-155 | in every trace a verification in the session stems from the last successful verify call |
| `StepUp.PasskeyCheckIsBacked` | controller/passkey.go:559-576 | a passing passkey check at t has an assertion at t0 and a verify call at t1 with t1 − t0 < 60 and t − t1 < 300, and nothing in between that replaces either |
| `StepUp.BackedCheckPasses` | controller/passkey.go:559-576 | the converse, for a clock that does not run backwards |
| `StepUp.PasskeyCheckIff` | controller/secure_verification.go:145-179 | both directions together |
| `StepUp.TwoFactorCheckIff` | controller/passkey.go:559-576 | a two-factor check at t passes exactly when the last successful verification was by code at t1 with t − t1 < 300 and nothing cleared it, for a clock that does not run backwards |
| `StepUp.AssertionUsedOnce` | controller/secure_verification.go:170-178 | two successful passkey verifications have a fresh assertion between them |
| `VideoTask.Settlement.UpdateSingleTask` | controller/task_video.go:127-276 | for every reported status and every combination of failing writes: which status and quota are stored, what the balance becomes, and whether it is a refund; a success with price a and working writes records a and moves the balance by old quota − a |
| `VideoTask.StepIsPolled` | controller/task_video.go:127-276 | the step of the state machine has exactly those effects |
| `VideoTask.SuccessCostsItsPrice` | controller/task_video.go:181-231 | in a run, after a successful poll with a recomputed price and working writes the net charge is that price, dearer or cheaper |
| `VideoTask.Settlement.FailWithoutChannel` | controller/task_video.go:35-46 | the bulk failure marks the task and moves no money |
| `VideoTask.SettledKeptIff` | controller/task_video.go:127-276 | an event keeps the net charge equal to the recorded quota (zero once failed) if and only if it is one of the listed harmless ones |
| `VideoTask.RunsStaySettled` | controller/task_video.go:127-276 | runs with successful writes and no revival keep the charge right |
| `VideoTask.RefundFollowsFailure` | controller/task_video.go:264-276 | a refund happens only in the call that persisted the first failure, for the quota then recorded |
| `VideoTask.FailedStaysFailed` | controller/task_video.go:251-257 | without revival a failed task stays failed and is not refunded again |
| `VideoTask.RefundedAtMostOnce` | controller/task_video.go:251-276 | without revival there is at most one refund in any run, whichever writes fail |
| `VideoTask.RevivalRefundsTwice` | controller/task_video.go:252-253 | failing, running and failing again refunds twice |
| `VideoTask.LostUpdateChargesTwice` | controller/task_video.go:197-202 | a lost row update charges the difference twice |
| `VideoTask.BulkFailureKeepsCharge` | controller/task_video.go:35-46 | a bulk-failed task keeps its charge, even when its upstream reports the failure later |
| `Billing.BillingSession.PreConsume` | service/billing_session.go:186-230 | exactly when pre-consuming succeeds for wallets, subscriptions and playground requests, what both stores then hold, and what a failure leaves behind |
| `Billing.BillingSession.ReserveMore` | service/billing_session.go:152-178 | what a reservation does to the reserved amount and to both stores when it succeeds, with rollback of the funding when the token refuses, and exactly when it succeeds |
| `Billing.BillingSession.SettleTo` | service/billing_session.go:41-78 | what settling does to both stores for every combination of failures, and that it follows the step |
| `Billing.BillingSession.RefundAll` | service/billing_session.go:82-124 | refunding follows the step |
| `Billing.StepKeepsBooksIff` | service/billing_session.go:41-178 | one call keeps stores and session in agreement if and only if it is not a settlement that takes effect after a refund |
| `Billing.BooksBalanceIff` | service/billing_session.go:41-178 | over every sequence of calls and failures, if and only if no settlement takes effect after a refund: settlement and refund exclude each other, the funding is debited the reserved amount, then the settled one, or after a refund what its failed writes left |
| `Billing.ChargesAreExactIff` | service/billing_session.go:41-178 | when settlements, refunds and rollbacks go through, funding and token are both charged exactly the settled amount, or nothing after a refund, under the same condition |
| `Billing.SettleAfterRefundIsWrong` | service/billing_session.go:41-79 | settling after a refund charges only the difference |
| `Relay.SelectSpends` | service/channel_select.go:107-190 | selecting a channel over the automatic groups and stepping the counter spends at least one of the remaining attempts |
| `Relay.SelectMeans` | service/channel_select.go:107-190 | a channel is found exactly if some group from the current one on has one; the first such group is used, its counter goes on or starts again, and with cross-group retry a spent counter prepares the next group |
| `Relay.Prepare` | controller/relay.go:308-338 | which channel and counter an attempt runs with, or why it is refused |
| `Relay.DecisionsAreWants` | controller/relay.go:340-370 | which errors are retried, case by case over the policy: channel errors, skipped errors, spent retries, named channels, status ranges; and the cases of tasks |
| `Relay.TraceTriesAsWanted` | controller/relay.go:180-249 | in every trace a further attempt follows a failed one exactly if its error is to be retried and a channel is available, and a refusal has its cause |
| `Relay.RequestLoop` | controller/relay.go:180-249 | the loop makes exactly the attempts of a trace: each with the counter the selection gives and the upstream's answer, each after an error the decision accepted, until one that is not retried or is refused, whose error is returned; the success settles inside its attempt, an error is refunded at the end |
| `Relay.OutcomeIsUnique` | controller/relay.go:180-249 | these conditions determine attempts and error |
| `Relay.AttemptsAreBounded` | controller/relay.go:180-249 | at most RetryTimes + 1 attempts in each group the request may still use, one without retries |
| `Relay.BoundedByRetryTimesIff` | controller/relay.go:180-249 | for decisions that retry some error, no trace exceeds RetryTimes + 1 attempts if and only if the channel is locked, one group is left, or RetryTimes is zero |
| `Relay.RelayBoundedIff` | controller/relay.go:340-370 | the same for the decision of `Relay` |
| `Relay.TaskBoundedIff` | controller/relay.go:629-669 | the same for the decision of `RelayTask`, where a channel named by the token also bounds it |
| `Relay.OneTooMany` | service/channel_select.go:144-155 | a group without further channels restarts the counter and gives one attempt too many, with or without cross-group retry |
| `Relay.LimitIsReached` | service/channel_select.go:163-173 | with cross-group retry every error that is retried while retries are left uses up every group's share |
| `Relay.RelayRequest` | controller/relay.go:171-249 | over the policy, answers and counters: a further attempt follows a failed one exactly if the error is a channel error or one the policy retries, retries are left and a channel is available; a free model has no session and a refused pre-consumption makes no attempt; otherwise exactly one billing call ends the session: settlement for the price of the attempt that succeeded, or a refund; with working stores the user pays the price or nothing |
| `Relay.Submit` | relay/relay_task.go:205-211 | the first submission that comes to it pre-consumes, later ones do not, and a refused pre-consumption is the answer |
| `Relay.TaskLoop` | controller/relay.go:532-585 | the task loop makes exactly the attempts of a trace over those answers and leaves the session its first opener gave it |
| `Relay.RelayTask` | controller/relay.go:519-592 | the same for tasks with their own cases (429, 307, 5xx, 400, 408, local errors, 2xx); if some attempt opened a session, exactly one billing call ends it: settlement if no error is left, refund otherwise |
| `RatioDiff.Compare` | controller/ratio_sync.go:607-626 | what one channel contributes to an entry |
| `RatioDiff.ValuesEqualIff` | controller/ratio_sync.go:55-62 | numbers are equal when they are less than 1e-9 apart, everything else when it is identical |
| `RatioDiff.CellMeans` | controller/ratio_sync.go:607-628 | the marker stands for a value equal to the local one and for no value on either side, nil for a missing or null value against a local one, anything else is the value itself |
| `RatioDiff.UntrustedIff` | controller/ratio_sync.go:563-592 | a channel is not trusted for a model exactly when it lists the default pair 37.5 and 1 |
| `RatioDiff.BuildItem` | controller/ratio_sync.go:597-643 | the entry of a model and field shows every channel's value or marker and confidence, and whether it is included |
| `RatioDiff.AllModels` | controller/ratio_sync.go:544-558 | every model mentioned locally or by a channel |
| `RatioDiff.BuildEntries` | controller/ratio_sync.go:595-656 | the first phase yields exactly the included entries |
| `RatioDiff.DifferingChannels` | controller/ratio_sync.go:658-667 | the channels that show a difference in some entry |
| `RatioDiff.Prune` | controller/ratio_sync.go:669-695 | pruning removes the other channels, and then entries that show no difference and models without entries |
| `RatioDiff.IncludedIffRealDifference` | controller/ratio_sync.go:633-643 | an entry is included exactly when some channel really differs, whatever the values |
| `RatioDiff.KeepsIffKept` | controller/ratio_sync.go:678-689 | pruning keeps an entry exactly when a surviving channel shows something other than the marker |
| `RatioDiff.PrunedIsReport` | controller/ratio_sync.go:658-695 | after pruning a model and field are reported exactly when a channel differs there and the entry is kept, listing exactly the surviving channels with their cells and confidence |
| `RatioDiff.BuildDifferences` | controller/ratio_sync.go:538-698 | this for all inputs; the report is sound and complete if and only if nothing is hidden, and so for clean values and distinct names |
| `RatioDiff.SoundAndCompleteIff` | controller/ratio_sync.go:658-695 | exactly when every difference is reported with exactly the channels that differ somewhere |
| `RatioDiff.CleanHidesNothing` | controller/ratio_sync.go:607-631 | values other than null and "same" under distinct names hide nothing |
| `RatioDiff.NullIsLost` | controller/ratio_sync.go:614-628 | a null against a local price is included and then lost |
| `RatioDiff.MarkerTextIsLost` | controller/ratio_sync.go:624-628 | a price that is the marker text is not reported |
| `RatioDiff.RepeatedNameIsLost` | controller/ratio_sync.go:628-630 | a later channel of the same name hides an earlier one's difference |
| `ModelsDev.BuildCandidate` | controller/ratio_sync.go:847-881 | exactly when a provider's costs make a candidate, and that it has their input and output cost and their cache cost unless negative |
| `ModelsDev.SortedKeys` | controller/ratio_sync.go:917-921 | the keys in strictly ascending order |
| `ModelsDev.AddProvider` | controller/ratio_sync.go:923-945 | one provider's models update every model's choice by the replacement rule |
| `ModelsDev.SelectCandidates` | controller/ratio_sync.go:917-946 | the fold over all providers in order gives every model its choice |
| `ModelsDev.ChosenIsBest` | controller/ratio_sync.go:883-895 | the choice is best among the providers seen so far, although near-equality is not transitive |
| `ModelsDev.ChoiceIsCheapest` | controller/ratio_sync.go:883-946 | the choice is positive if any candidate is, no positive candidate is cheaper by 1e-9 or more, and positive candidates of earlier providers are strictly dearer |
| `ModelsDev.NearlyEqualIsNotTransitive` | controller/ratio_sync.go:48-53 | near-equality is not transitive |
| `ModelsDev.NearlyEqualIff` | controller/ratio_sync.go:48-53 | two prices are nearly equal when they are less than 1e-9 apart |
| `Enrich.KeyIsInjective` | controller/model_meta.go:326 | the key of name, underscore and type never merges two different channels |
| `Enrich.MatchesMeans` | controller/model_meta.go:233-241 | a prefix, suffix or contains rule matches exactly the names that begin with, end with or contain the model's name; other rules match nothing |
| `Enrich.MatchedNamesSplit` | controller/model_meta.go:245 | the matching names come in the order of the prices |
| `Enrich.GatheredIsFound` | controller/model_meta.go:230-272 | what the price loop collects for a model is its matching names in order and the exact unions of endpoints, groups and quota types |
| `Enrich.UniteChannels` | controller/model_meta.go:321-336 | the channels of all matched names, each once |
| `Enrich.SortedQuotas` | controller/model_meta.go:311-319 | the collected quota types in strictly ascending order |
| `Enrich.FillRule` | controller/model_meta.go:288-341 | a rule model gets what enriching it alone by scanning the prices would give |
| `Enrich.Classify` | controller/model_meta.go:181-195 | exact models are grouped by name and rule models listed in order, none missed, none wrong |
| `Enrich.FillExact` | controller/model_meta.go:197-216 | every exact model is filled in place and no other slot changes |
| `Enrich.Gather` | controller/model_meta.go:221-272 | the nested loops collect for every rule model what scanning all prices for it alone collects |
| `Enrich.FillRules` | controller/model_meta.go:287-341 | every rule model is filled in place and no other slot changes |
| `Enrich.EnrichModels` | controller/model_meta.go:176-342 | the batch gives every model of the page exactly what enriching it alone would |

## Left out

- HTTP handling, OAuth, e-mail, payment and WebAuthn libraries and upstream clients: their results are parameters.
- Several processes sharing one database: the order lock is memory of one process.
- Subscription orders. Crediting by Stripe, Creem, Waffo and manual completion, which runs inside one database transaction; a database error
  reported after the write took effect; the update of an order row by a handler of another payment provider at the same
  time outside the lock.
- Key texts that are JSON arrays (Vertex AI), the paged key listing, and automatic disabling of keys during relaying.
- The trust decision, the choice between wallet and subscription, the plan a subscription takes from and the reuse of a
  request identifier, billing without a session, retries of subscription refunds, and the extra fee for policy violations.
- Negative values of RetryTimes; the choice of a channel inside a group by priority and weight.
- Disk cache cleanup, synchronisation and reset, hit counters, concurrent admission, and integer overflow of counters.
- File operations that fail or read short, whence values other than start, current and end.
- Audio formats other than Opus; read errors in the middle of a page other than the end of the data.
- The cookie encoding of sessions, session values of a wrong type, and account checks before a verification.
- Floating-point rounding of prices and quotas, and conversion of prices to ratios after the choice.
- Two slots of a page of models that alias the same row, and the JSON encoding of endpoint lists.
- Compilation of regular expressions: matching is a parameter that is false for patterns that do not compile.
- Log lines, notifications, progress texts and time columns.
- Relay.RequestLoop: the price an attempt settles for is a parameter, because it is computed inside the relay handlers.
- ReconcileRuns.IgnoredForever: the part about the channel's own list needs runs without commas, because
  `ReconcileRuns.CommaAddsIgnored` shows that it fails otherwise.
- ReconcileRuns.ExcludedNeverAdded: needs runs without commas, because `ReconcileRuns.CommaBypasses` shows that it fails
  otherwise.
