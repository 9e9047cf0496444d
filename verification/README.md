# Verified model of the node's ledgers and protocols

The node counts the traffic of proxy users, reports it to a panel that bills for it, and limits how many
devices of an account are online at once. This project models the parts where a mistake costs money or lets
a device in that should be out, and proves what they keep over every run:

- **Traffic ledger and reporting** (`Decimal`, `TotalsKeys`, `TrafficReports`, `TrafficStore`, `LedgerInvariant`,
  `NodeStore`, `GroupCommit`, `FairScan`, `Walks`, `FairPlan`, `Billing`, `ReportStates`, `ReportSteps`,
  `ReportClient`). The database is a value `Db`; every
  database transaction is one step. `NodeStore.Store` is the object with its `queue` and `writing` fields, and
  each of its methods is proved against the step it performs. `Billing` puts the node, a panel that bills a
  report which follows its progress, re-acknowledges the one it stands at and refuses the rest, and a network
  that loses, repeats and delays messages into one state machine, with rollbacks of the panel and crashes
  between steps. `ReportClient` is the reporting cycle, loop by loop, against that state machine: a ghost counter of
  lost messages and unsound replies (`Server.faults`) gives every failure its cause. `Walks` and `FairPlan` count
  the reports a cycle needs.
- **Deferred receipts** (`DeferredReceipts`, `DeferredBook`). The fold of signed partial confirmations into a
  retained record, and the bucket of those records.
- **Cross-node device limit** (`GlobalLimit`, `GlobalLimitProofs`, `GlobalVersions`, `GlobalEviction`,
  `GlobalLeases`, `GlobalScripts`, `GlobalSync`). The Redis keys of one account, one transition per script, any number of nodes
  with any clocks, leases and limits. `GlobalScripts` is each script statement by statement on mutable keys.
- **Local device slots** (`DeviceSlots`, `BookSharing`, `AccountBooks`). The two halves of a book of online slots
  are heap objects that several auth keys alias; giving up the lock is arbitrary interference that keeps a
  book's halves paired.
- **Ledger conversion** (`ConversionRules`, `LedgerConversion`), **patch application** (`PatchText`, `PatchApply`,
  `PatchReverse`) and **connection identifiers** (`AuthId`).

Conventions. Go `int` and `int64` are unbounded integers with the source's range tests written out
(`Wrappers.MAX_INT64`). Go maps are iterated in an arbitrary order. Errors are `Result` values with the
source's branches. Random numbers, clocks, the network and the panel's choices are parameters or
nondeterministic. A predicate such as `LedgerInv`, `HeldInv` or `AccountInv` names an invariant; the lemmas
named `...Keeps` show that each step keeps it.

`dafny verify dfyconfig.toml` checks the whole project. Nothing was executed.

## What the code does not do

Six expectations turned out not to hold of the code as it is; each has a lemma with a concrete input or run, and
the exact condition under which the code does meet it.

- `Record` bounds upload and download separately while a freeze needs their sum: two accepted records can make the
  next freeze fail (`LedgerInvariant.AcceptedTrafficCanBlockReports`), which it does exactly when the walk reaches
  a row without an int64 sum before the report is complete (`FreezeFailsExactly`). Such an account is never
  reported again (`FairScan.UnreportableStays`) and stops the whole ledger: at most as many further reports are made
  as there are accounts before it (`UnreportableStopsTheLedger`), and then none (`NothingPassesIt`).
- `PendingBatches` counts accounts, but a report ends at the second identity of a user: one cycle can leave an
  account unreported (`FairScan.TwoIdentitiesNeedTwoReports`). Where the sums fit and no traffic interferes, the
  planned number is enough if and only if the walk, cut at every adjacent pair of one user and each stretch counted
  in thousands rounded up, needs no more (`FairPlan.PlanIsEnough`, `ReportSteps.CycleReportsAll`). Up to a thousand
  accounts, the one planned report names them all if and only if no user has two identities and all amounts
  together are an int64 (`FairPlan.OneReportIsEnough`). Fairness holds without either (`FairScan.OwedIsReported`).
- The merging loop makes progress exactly when the panel's reply subsumes the confirmation in force and an
  outstanding one (`DeferredBook.MergeProgress`); a plain reply would repeat the round for ever
  (`PlainReplyMakesNoProgress`).
- A panel that has lost reports cannot always be brought up: a report confirmed without a receipt is not in the
  history (`Billing.RecoveryCanFail`, a run of six steps). It can be replayed if and only if it was confirmed with a
  receipt and nothing about it awaits merging (`Billing.RecoveryReplaysTheChain`).
- A replay does not always carry the confirmation in force: once the record of a settled merge has expired
  (`DeferredBook.SettledRecordExpires`), the history still holds the receipt from before it. What a replay carries
  changes by pruning if and only if the record has expired and a merge had replaced that receipt
  (`Billing.PruneForgets`, `Billing.ReplayedReceipt`).
- An identifier decodes to what was encoded exactly when the account id is positive and neither host nor
  identity holds a bar (`AuthId.EverythingDecodes`); a credential may hold any number of them.

## Model

| member | source | states |
|---|---|---|
| Decimal.ValueOfDigits | service/hysteria2/auth.go:96-104 | a decimal numeral written for a number denotes that number, whatever its size |
| Decimal.AtoiOfItoa | service/hysteria2/auth.go:17-23 | writing any int64 and reading it back gives the same number, negative ones and both bounds included |
| Decimal.NewerThanIsNumeric | common/limiter/global.go:68-70 | comparing canonical numerals by length and then by text is comparing the numbers |
| Decimal.DigitsInjective | common/limiter/global.go:97-99 | two canonical numerals are the same text exactly when they are the same number |
| TotalsKeys.UsageKeyRoundTrip | common/traffic/store.go:446-451 | a bucket key reads back to the user id and identity it was made of |
| TotalsKeys.UsageKeyOrder | common/traffic/store.go:446-451 | the database's byte order on keys is user id first, then identity |
| TotalsKeys.TotalsRoundTrip | common/traffic/store.go:453-473 | stored counters read back unchanged if both are int64; any larger word is refused |
| TotalsKeys.SuccessorStep | common/traffic/store.go:284-335 | one step of the circular walk lands on a key exactly when nothing lies between, and otherwise takes the key it lands on out of what lies between |
| TotalsKeys.BetweenMonotone | common/traffic/store.go:284-335 | removing keys never lengthens the way to a key |
| TrafficReports.ValidateReport | common/traffic/store.go:419-444 | the running pass accepts exactly the reports with a good header, well-formed rows in strictly increasing user ids and an int64 sum |
| TrafficReports.ValidMeans | common/traffic/store.go:419-444 | which reports are valid, spelled out: nothing to merge, hexadecimal ids, another report before it or none, one to 1000 rows of accountable users in increasing ids, and all counters together an int64 |
| DeferredReceipts.CoversPointwise | common/traffic/deferred.go:154-165 | covering is the pointwise order of the scopes put on users |
| DeferredReceipts.CoversTransitive | common/traffic/deferred.go:154-165 | covering is transitive |
| DeferredReceipts.ConflictMask | common/traffic/deferred.go:170-180 | a conflict receipt puts both scopes on every user of the report and none on others |
| DeferredReceipts.UnionMask | common/traffic/deferred.go:141-153 | merging entries or-s the scopes of every user and gives acceptable entries again |
| DeferredReceipts.UnionReasons | common/traffic/deferred.go:141-153 | the reason on a user is that of the newer entry if it names the user, and else the one there was |
| DeferredReceipts.UnionOrdered | common/traffic/deferred.go:207-213 | the merged entries are in the order of the report, each user once |
| DeferredReceipts.SubsumesMeans | common/traffic/deferred.go:154-180 | one receipt subsumes another exactly if it says as much: every user of the report in conflict, or the same metadata and, user by user, at least the same scopes |
| DeferredReceipts.FoldKeeps | common/traffic/deferred.go:181-206 | every receipt seen so far, the new one included, is subsumed by the confirmation in force or by an outstanding proof after a fold |
| DeferredReceipts.FoldRetains | common/traffic/deferred.go:181-206 | what stays in force or outstanding is accepted evidence, and nothing is outstanding beside a conflict |
| DeferredReceipts.FoldEntries | common/traffic/deferred.go:141-153 | the entries after a fold hold exactly the scopes stated by some receipt ever accepted |
| DeferredReceipts.FoldInv | common/traffic/deferred.go:124-215 | folding an accepted confirmation into a sound record never fails, gives a sound record and adds just that receipt to the evidence |
| DeferredReceipts.RunInv | common/traffic/deferred.go:84-227 | after any sequence of acknowledgements of a report the record is sound and its evidence is what was received |
| DeferredReceipts.OrderInsensitive | common/traffic/deferred.go:141-153 | two runs over the same receipts, in any order and with any repetition, put the same scopes on every user: the union of those stated |
| DeferredReceipts.JoinOfRetained | common/traffic/deferred.go:154-214 | the confirmation in force and the outstanding proofs alone already state every scope ever stated |
| DeferredReceipts.ConflictAbsorbs | common/traffic/deferred.go:170-195 | once a conflict arrives or is in force, it stays in force with nothing outstanding |
| DeferredReceipts.FoldShrinks | common/traffic/deferred.go:184-194 | fewer proofs are outstanding after a fold exactly when the new receipt subsumes the confirmation in force and one of them |
| DeferredReceipts.FoldDisposes | common/traffic/deferred.go:181-206 | a receipt becomes outstanding if and only if neither it nor the confirmation in force says as much as the other; it takes over from a confirmation it says as much as, if that is not a conflict of all, and then from exactly the outstanding ones it says as much as; nothing else is lost |
| DeferredReceipts.RunRetains | common/traffic/deferred.go:84-227 | whatever was received, in any order: something retained says as much as each receipt, nothing is retained twice, and the confirmation in force and an outstanding receipt never say as much as one another |
| DeferredBook.CheckEntries | common/traffic/deferred.go:100-117 | the shrinking-set pass accepts exactly entries naming distinct users of the report with known reasons and scopes |
| DeferredBook.CoversEntries | common/traffic/deferred.go:154-165 | the two loops over a scope table decide covering |
| DeferredBook.IsConflict | common/traffic/deferred.go:170-180 | decides whether a receipt puts every user in conflict |
| DeferredBook.MergeEntries | common/traffic/deferred.go:142-213 | the union map listed in report order is the merged entry list |
| DeferredBook.TestSubsumes | common/traffic/deferred.go:154-197 | decides subsumption: a conflict, or equal metadata and covering |
| DeferredBook.FilterProofs | common/traffic/deferred.go:185-193 | keeps exactly the proofs the new receipt does not subsume, and fails on one that does not decode |
| DeferredBook.FoldRecord | common/traffic/deferred.go:124-218 | the record update is the fold whose outcome `DeferredReceipts.FoldDisposes` gives exactly and whose invariants that module proves |
| DeferredBook.PruneRecords | common/traffic/deferred.go:230-266 | one pass stamps undated records and deletes those past retention that have no proofs |
| DeferredBook.RememberDeferred | common/traffic/deferred.go:84-227 | refuses what does not fit the report, else folds and prunes; every branch and failure is that of the specified step |
| DeferredBook.DeferredMerge | common/traffic/deferred.go:311-331 | finds the first record in key order with a proof outstanding, and none only if there is none |
| DeferredBook.PruneKeepsProofs | common/traffic/deferred.go:230-266 | pruning never removes a record with proofs and changes nothing but missing stamps |
| DeferredBook.PruneExactly | common/traffic/deferred.go:230-266 | pruning keeps exactly the records with something outstanding, those without a stamp, which it stamps, and those stamped at most ninety days ago |
| DeferredBook.RememberKeepsBook | common/traffic/deferred.go:84-227 | whatever arrives, every record of the bucket stays sound and under its report's id |
| DeferredBook.RememberAccepts | common/traffic/deferred.go:84-227 | a well-formed confirmation of a known report is never refused |
| DeferredBook.RememberExactly | common/traffic/deferred.go:84-227 | a sound book takes a receipt if and only if it fits the report |
| DeferredBook.FittingMeans | common/traffic/deferred.go:59-117 | a receipt fits exactly if it carries no deferral, or one of that very report with one to 1000 entries for users of the report, each once, with known reason and scope |
| DeferredBook.RememberLeaves | common/traffic/deferred.go:84-227 | after a fitting deferral the record of its report has it as evidence, retains one that says as much and keeps its stamp and earlier evidence; a new record is about the report as it came; it is gone only if its ninety days are over, and the other records change as by pruning |
| DeferredBook.RememberOthers | common/traffic/deferred.go:84-227 | and changes no proof of another report |
| DeferredBook.MergeProgress | common/traffic/deferred.go:181-206 | a merging round leaves strictly fewer proofs in the whole bucket if and only if the reply subsumes the confirmation in force and one outstanding proof |
| DeferredBook.MergeStep | api/sspanel/traffic.go:161-180 | a reply that states both submitted receipts is accepted and strictly shrinks what is outstanding |
| DeferredBook.Settled | api/sspanel/traffic.go:161-180 | with nothing outstanding, the confirmation in force subsumes all evidence |
| DeferredBook.PlainReplyMakesNoProgress | api/sspanel/traffic.go:161-180 | a reply without a deferral changes nothing and differs from what was sent, so the loop would go round again |
| DeferredBook.MergeExists | common/traffic/deferred.go:170-206 | a reply that settles a merge always exists: the conflict of every user |
| DeferredBook.SettledRecordExpires | common/traffic/deferred.go:230-266 | a record that a merge has settled is dropped when its retention is over, with the merged confirmation |
| LedgerInvariant.ScreenedRequestsAreGood | common/traffic/store.go:200-222 | whatever `Record` queues is a positive user, a short identity and a non-zero int64 sum |
| TrafficStore.RecordOneIs | common/traffic/store.go:240-255 | a request is refused exactly when the upload or the download of its account would leave int64; else each number is added to its own counter, and no other account changes |
| TrafficStore.BatchBooks | common/traffic/store.go:224-264 | a batch adds to each counter of each account exactly the numbers of the requests that were not refused |
| TrafficStore.BatchRefuses | common/traffic/store.go:240-255 | a request of a batch is refused exactly when it does not fit on top of the accepted ones before it |
| LedgerInvariant.RecordOneKeeps | common/traffic/store.go:224-264 | recording keeps the ledger invariant: no zero or overflowing total, a pending report that is valid, follows the confirmed one and is covered |
| LedgerInvariant.RecordSinglyKeeps | common/traffic/store.go:224-264 | so does any batch |
| LedgerInvariant.SubtractExact | common/traffic/store.go:397-411 | subtracting a report succeeds exactly when the totals cover it; each account then loses exactly its row and no zero total is left |
| LedgerInvariant.SortIs | common/traffic/store.go:340-340 | sorting rows of distinct users gives a permutation in strictly increasing user ids |
| LedgerInvariant.ScanTakesMaximalRun | common/traffic/store.go:300-336 | the scan takes a run of successive keys with distinct users and an int64 sum that cannot be extended, or fails at a row without an int64 sum |
| LedgerInvariant.NewReportIs | common/traffic/store.go:266-359 | the report frozen from a run is valid, covered by the totals and lists exactly the run's accounts, each row with the stored upload as upload and download as download |
| LedgerInvariant.PendingKeeps | common/traffic/store.go:266-359 | with int64 sums, a freeze succeeds, keeps the invariant and yields a report whenever anything is owed |
| LedgerInvariant.PendingOutcome | common/traffic/store.go:266-359 | for any totals, a freeze changes only report and cursor and keeps the invariant; it fails only on a reused id or a row without an int64 sum |
| LedgerInvariant.FreezeFailsExactly | common/traffic/store.go:303-336 | a freeze fails if and only if the walk from the cursor reaches a row whose counters have no int64 sum before the report is complete |
| LedgerInvariant.BadMeans | common/traffic/store.go:303-316 | what stops a walk: no user, a long identity, a negative counter or no int64 sum; in a sound ledger only the last occurs |
| LedgerInvariant.AcceptedTrafficCanBlockReports | common/traffic/store.go:245-313 | two records that are both accepted make the next freeze fail |
| LedgerInvariant.ConfirmKeeps | common/traffic/store.go:371-417 | confirming the pending id never fails its coverage check: only a refused receipt stops it; each account loses exactly what was reported and the invariant holds |
| LedgerInvariant.ConfirmsPending | common/traffic/store.go:371-396 | only the pending report is confirmed, if it is valid and follows the confirmed one; it is then the confirmed one and none is pending |
| LedgerInvariant.ConfirmRemembers | common/traffic/store.go:384-396 | a deferral that came with the confirmation is in its report's record, as `DeferredBook.RememberLeaves` says, and any receipt is in the history under the id the report followed |
| LedgerInvariant.ProgressLeaves | common/traffic/deferred.go:274-294 | a deferral that comes with the panel's progress is refused exactly if it is malformed, about another id or does not fit its report; it has no effect if the history does not have that report, and else gets into its record |
| LedgerInvariant.FrozenAmounts | common/traffic/store.go:300-348 | a new report carries the whole total of each account it names and nothing of others |
| LedgerInvariant.LateTrafficSurvives | common/traffic/store.go:397-411 | traffic recorded between freeze and confirmation is exactly what is left of the accounts reported |
| LedgerInvariant.OthersKeep | common/traffic/store.go:139-157 | initializing and remembering deferrals keep the invariant |
| NodeStore.SubtractRows | common/traffic/store.go:397-411 | the write loop computes the subtraction, and stops at the first row the totals do not cover |
| NodeStore.ScanTotals | common/traffic/store.go:300-336 | the loop with its seen-set, running sum and cursor computes the specified run and the key the cursor ends on |
| NodeStore.Store.NeedsInitialization | common/traffic/store.go:126-137 | exactly when `Initialize` would take a report id, or none |
| NodeStore.Store.Initialize | common/traffic/store.go:139-157 | sets the first confirmed id once, exactly on an unused ledger and exactly to nothing or a report id, and changes nothing else |
| ReportClient.PrepareTraffic | api/sspanel/traffic.go:99-125 | a ledger in use is left alone; an unused one begins where the panel stands, in a state the protocol may start from, or stays unused |
| NodeStore.Store.RecoverAfter | common/traffic/store.go:168-198 | yields exactly the valid report with a receipt that followed the id, if nothing about it awaits merging, with the confirmation in force or, without a record, its own receipt; `Billing.RecoveryReplaysTheChain` and `Billing.ReplayedReceipt` say what that means on the chain |
| NodeStore.Store.Submit | common/traffic/store.go:200-222 | queues a request exactly for a positive user, counters that are not negative with an int64 sum above zero, and at most one identity of at most 40 bytes; under that user and identity, upload as upload and download as download; does nothing for two zeros, refuses the rest, and starts a writer exactly when none runs |
| NodeStore.Store.WriteRound | common/traffic/store.go:224-264 | one commit of the whole queue adds to each counter exactly what its accepted requests state, and refuses exactly those that do not fit on top of the ones before; the totals and outcomes are those of recording one by one; a failed commit changes nothing and tells everyone |
| NodeStore.Store.Pending | common/traffic/store.go:266-359 | returns the frozen report or freezes a new one; a failure leaves the database alone |
| NodeStore.Store.PendingBatches | common/traffic/store.go:362-369 | the least number of full reports with room for every account owed: a thousand times one fewer has not; whether it is enough is `FairPlan.PlanIsEnough` |
| NodeStore.Store.Confirm | common/traffic/store.go:371-417 | performs the specified confirmation or nothing |
| NodeStore.Store.RememberDeferred | common/traffic/deferred.go:269-271 | performs the specified fold or nothing |
| NodeStore.Store.RememberDeferredConfirmation | common/traffic/deferred.go:274-294 | rebuilds a record from the panel's last signature if the report is in the history |
| NodeStore.Store.DeferredMerge | common/traffic/deferred.go:311-331 | submits the report of a record, with the confirmation in force as its receipt and the first outstanding proof to reconcile, and nothing exactly if nothing is outstanding |
| GroupCommit.SinglyCommits | common/traffic/store.go:224-264 | committing a batch is committing its requests one by one |
| GroupCommit.SinglyFails | common/traffic/store.go:224-264 | a failed commit is every one of its requests failing |
| GroupCommit.StepKeeps | common/traffic/store.go:200-264 | submitting, taking the queue, committing, failing, answering and stopping each keep the writer's invariant |
| GroupCommit.RunKeeps | common/traffic/store.go:200-264 | so every reachable state satisfies it |
| GroupCommit.AnswersAreSingle | common/traffic/store.go:200-264 | answers so far are, in order and once each, those of single transactions, and a waiting request always has a running writer |
| GroupCommit.StoppedMeansDone | common/traffic/store.go:200-264 | when the writer has stopped everyone is answered and the totals are those of single transactions |
| FairScan.RunConsumes | common/traffic/store.go:284-335 | a run that misses an account brings the cursor its own length closer to it |
| FairScan.NoEarlyReturn | common/traffic/store.go:329-335 | the walk returns to a key it took only after passing every other key |
| FairScan.FullUnlessReached | common/traffic/store.go:303-336 | with one identity a user and sums that fit, a complete run reaches a given account or holds 1000 rows |
| FairScan.FreezeIs | common/traffic/store.go:266-359 | a new report names exactly a maximal circular run after the cursor, and the cursor ends on its last key |
| FairScan.StillOwed | common/traffic/store.go:371-417 | an account a report does not name is still owed after more traffic and the confirmation |
| FairScan.RoundIs | api/sspanel/traffic.go:200-211 | a freeze-confirm round with traffic at any point reports every account of its run and leaves the others owed |
| FairScan.MissedRound | api/sspanel/traffic.go:200-211 | a round that misses an account strictly shortens the distance to it |
| FairScan.OwedIsReported | common/traffic/store.go:282-343 | while no new account appears between, an owed account at circular distance d is reported within d + 1 reports |
| FairScan.OwedIsReportedFast | common/traffic/store.go:282-343 | with one identity a user and sums that fit, within d / 1000 + 1 reports |
| FairScan.CycleCoversEveryAccount | common/traffic/store.go:362-369 | then the planned number of reports covers every account owed when the cycle began, whatever traffic arrives meanwhile |
| FairScan.TwoIdentitiesNeedTwoReports | common/traffic/store.go:318-369 | two identities of one user: one report is planned and it names one of them |
| FairScan.UnreportableStays | common/traffic/store.go:245-313 | an account whose counters have no int64 sum is in no report, and remains such an account through a round with any traffic |
| FairScan.UnreportableStopsTheLedger | common/traffic/store.go:300-336 | while no new account appears before it, at most as many further reports are made as accounts lie between the cursor and it |
| FairScan.NothingPassesIt | common/traffic/store.go:300-336 | once it is next, every freeze fails, whatever is owed by others |
| Walks.WalkStep | common/traffic/store.go:284-335 | the circular walk over a set of accounts is its first successor, and then the walk from there over the rest |
| Walks.FollowsIsWalk | common/traffic/store.go:284-335 | any chain of successors without a repetition is a beginning of that walk, and the walk over the rest is what is left of it |
| Walks.SegmentEnds | common/traffic/store.go:318-327 | between two adjacent pairs of one user, a user comes twice at most at the two ends: once round the circle |
| Walks.NeededIsPlanned | common/traffic/store.go:318-336 | cutting the walk greedily, at a user seen or at 1000 rows, takes as many reports as its stretches in thousands, each rounded up |
| FairPlan.RunTakes | common/traffic/store.go:300-336 | with sums that fit, a report takes from the walk exactly what the greedy cut does |
| FairPlan.QuietCycle | api/sspanel/traffic.go:200-211 | rounds without traffic empty the ledger if and only if there are as many as the walk needs, and there are never more |
| FairPlan.PlanIsEnough | api/sspanel/traffic.go:200-211 | a quiet cycle of the planned length whose sums fit reports everything if and only if the stretches of the walk take no more reports than planned |
| FairPlan.OneIdentityIsEnough | common/traffic/store.go:362-369 | with one identity a user the stretches take exactly the planned number |
| FairPlan.OneReportIsEnough | common/traffic/store.go:318-369 | up to 1000 accounts one report is planned, and it names them all if and only if no user has two identities and all amounts together are an int64 |
| Billing.HandleAt | api/sspanel/traffic.go:238-257 | a panel at position j takes exactly the next report and the one it stands at, and only the next one moves it or its bill |
| Billing.StepKeeps | api/sspanel/traffic.go:136-213 | recording, freezing, sending, replaying, asking for a merge, delivering, losing, confirming, remembering a reply and rolling back each keep the protocol invariant |
| Billing.RunInv | api/sspanel/traffic.go:136-213 | so every reachable state satisfies it: the history chain from every past id leads to the confirmed report |
| Billing.NothingLost | api/sspanel/traffic.go:136-213 | wherever the panel stands on the chain, billed plus owed is accepted, per account and counter |
| Billing.ExactlyOnce | api/sspanel/traffic.go:136-213 | in every run with lost, repeated and delayed messages, merge requests that meet a rolled-back panel included, crashes and rollbacks, billed plus still owed equals accepted for every account |
| Billing.ProgressIsConfirmedOrFrozen | api/sspanel/traffic.go:136-160 | without a rollback the panel's progress is always the node's confirmed id or its pending one |
| Billing.RecoveryReplaysTheChain | common/traffic/store.go:168-198 | from any earlier confirmed id the history yields exactly the report that followed, if and only if it came with a receipt and nothing of it awaits merging |
| Billing.RecoverableIds | common/traffic/store.go:384-396 | every id the history answers for is one the node has confirmed before |
| Billing.NothingBeforeTheOrigin | common/traffic/store.go:168-198 | for an id that is not on its chain the node replays nothing and reports the failure |
| Billing.MergeIsOfChain | api/sspanel/traffic.go:161-168 | a merge request carries a report of the chain, so a panel that has lost it may take it once |
| Billing.RecoveryCanFail | common/traffic/store.go:168-198 | there is a run of six steps after which the panel waits for a report that the node has confirmed and cannot replay |
| Billing.ReplayedReceipt | common/traffic/store.go:182-196 | a replay carries the confirmation in force while its record is retained, and else the receipt it was confirmed with |
| Billing.PruneForgets | common/traffic/deferred.go:230-266 | pruning changes what a replay carries if and only if the record has expired and a merge had replaced the receipt of the confirmation |
| ReportSteps.SoundBooks | api/sspanel/traffic.go:136-213 | in a sound state the panel stands on the chain, and billed plus owed is accepted for every account |
| ReportSteps.SoundPost | api/sspanel/traffic.go:238-257 | the panel takes a post of report `i` of the chain if and only if it stands at `i` or right behind it, moves if and only if it stands at `i`, and the state stays sound |
| ReportSteps.RecoveryIs | common/traffic/store.go:168-198 | report `i` can be replayed if and only if it is not stuck: confirmed without a receipt, or awaiting a merge |
| ReportSteps.RecoverRemembers | common/traffic/deferred.go:84-227 | the receipt of a replay is remembered if and only if it fits, and touches no report behind it |
| ReportSteps.SendConfirms | common/traffic/store.go:371-417 | confirming a report the panel has taken fails only for a receipt that does not fit |
| ReportSteps.FreezeExactly | common/traffic/store.go:266-359 | a freeze fails if and only if it is blocked, and finds nothing if and only if nothing is frozen or owed |
| ReportSteps.CycleReportsAll | api/sspanel/traffic.go:200-211 | a cycle that began with nothing frozen and ended well has emptied a ledger whose sums fit if and only if the stretches of its walk take no more reports than planned |
| ReportClient.Server.ReadProgress | api/sspanel/traffic.go:215-236 | the reply is the panel's progress; without a fault it comes, with nothing to remember or a receipt of that report |
| ReportClient.Server.Post | api/sspanel/traffic.go:238-257 | a request may be lost, or arrive and its reply be lost; without a fault the panel answers exactly what it takes, with a receipt that fits |
| ReportClient.Server.PostMerge | api/sspanel/traffic.go:161-180 | a merge request may move a panel that has lost the report; without a fault the reply states both submitted receipts and is neither |
| ReportClient.Client.Progress | api/sspanel/traffic.go:215-236 | reads the panel's progress and remembers the deferral it came with, touching nothing of the reports the panel has lost; it fails only for a fault |
| ReportClient.Client.SubmitMerge | api/sspanel/traffic.go:161-171 | a merge request moves the panel only forward on the chain, and not at all if nothing about a lost report awaits merging |
| ReportClient.Client.RememberMerge | api/sspanel/traffic.go:172-180 | remembering a reply that states both receipts leaves fewer proofs outstanding |
| ReportClient.Client.MergeOne | api/sspanel/traffic.go:161-180 | one round of merging remembers the panel's reply, leaves fewer proofs outstanding, and fails only for a fault |
| ReportClient.Client.MergeDeferred | api/sspanel/traffic.go:161-180 | the merging loop ends with nothing outstanding, touches only deferral records, and fails only for a fault |
| ReportClient.Client.RecoverOne | api/sspanel/traffic.go:182-198 | one replay sends the report after the given position, moves the panel right behind it and remembers the receipt it replied with; without a fault it fails if and only if that report is stuck or the panel already stands further on |
| ReportClient.Client.RecoverNext | api/sspanel/traffic.go:182-198 | the body of the recovery loop extends the replayed stretch by exactly the next report |
| ReportClient.Client.Recover | api/sspanel/traffic.go:182-198 | the loop replays the missing stretch of the chain in order, at most 100 reports; it is done only at the confirmed or frozen report, gives up only 100 reports closer, and fails without a fault only for a report stuck from the start or a panel that merges had moved on |
| ReportClient.Client.SendOne | api/sspanel/traffic.go:200-211 | a round confirms exactly the frozen report and leaves panel and node agreeing; it fails only for a fault, and then leaves the ledger untouched |
| ReportClient.Client.FreezeNext | api/sspanel/traffic.go:200-211 | the next freeze fails if and only if it is blocked, and yields nothing only when nothing is owed |
| ReportClient.Client.SendRound | api/sspanel/traffic.go:200-211 | the log grows by exactly the confirmed report, and the next is frozen from the ledger right after it, except after the last round |
| ReportClient.Client.SendNext | api/sspanel/traffic.go:200-211 | each round of the loop is a round of the chronicle that leads from the ledger at its start to the one at its end |
| ReportClient.Client.SendAll | api/sspanel/traffic.go:200-211 | it is done when the planned number of reports has been confirmed or nothing is owed, with node and panel at the same report; without a fault it fails only where a freeze is blocked |
| ReportClient.Client.FreezeFirst | api/sspanel/traffic.go:149-152 | a cycle's report is the one still frozen, or is frozen from the ledger as it stands; it fails if and only if a row without an int64 sum blocks the freeze |
| ReportClient.Client.Consult | api/sspanel/traffic.go:157-180 | the progress read is where the panel stood; merging then leaves nothing outstanding, moves the panel only if something about a lost report awaited it, and fails only for a fault |
| ReportClient.Client.Prepare | api/sspanel/traffic.go:136-160 | freezing, reading the progress and merging leave a sound state; without a fault it fails if and only if the freeze is blocked |
| ReportClient.Client.Finish | api/sspanel/traffic.go:182-213 | recovery and then sending: nothing is sent before the panel is back at the end of the chain |
| ReportClient.Client.ReportUserTraffic | api/sspanel/traffic.go:136-213 | a whole cycle keeps the exactly-once invariant whatever fails. What it replays is the stretch from the panel's position. Done means that node and panel agree and that the planned number of reports was confirmed or nothing is owed, by rounds that lead from the first ledger to the last; without a fault it fails only for a blocked freeze, for a report without a receipt, or where its own merges had moved the panel on by two reports or more, and then nothing about a lost report awaits merging any more |
| ReportClient.Client.NextCycle | service/anytls/traffic.go:335-345 | without a fault, a cycle that finds the lost reports recoverable leaves the panel 100 reports nearer; or, once, its merges move the panel on by two or more; or the panel is back at the end of the chain. What is recoverable stays so |
| ReportClient.Client.CatchUp | service/anytls/traffic.go:335-345 | without a fault, and unless a row without an int64 sum blocks the next freeze, n lost reports that came with receipts are replayed in n / 100 cycles, rounded up, and one cycle more at most if something about one of them awaited merging at first; the panel is then back at the end of the chain, and the last cycle ended well or, after sending, at such a row |
| GlobalLimitProofs.PresentKeeps | common/limiter/global.go:64-109 | presenting a version authorizes exactly an unrevoked version no older than any known, drops the slot exactly when revoked or superseded, and touches no other slot |
| GlobalLimitProofs.ClockIsIdle | common/limiter/global.go:142-160 | once on the panel clock, the clock migration never restarts a lease |
| GlobalLimitProofs.VictimsAre | common/limiter/global.go:288-303 | an evict on a full account removes live - limit + 1 distinct live slots, the chosen target first |
| GlobalLimitProofs.AdmitKeeps | common/limiter/global.go:250-268 | admit keeps the account sound and leaves at most max(what was there, the effective limit) slots |
| GlobalLimitProofs.EvictKeeps | common/limiter/global.go:281-306 | so does evict with the caller's limit |
| GlobalLimitProofs.SyncKeeps | common/limiter/global.go:162-191 | sync keeps the account sound, adds no slot and leaves other slots as they were |
| GlobalLimitProofs.StepKeeps | common/limiter/global.go:162-324 | so every step of the five scripts keeps the invariant and leaves at most max(what was there, the effective limit) slots |
| GlobalLimitProofs.StepLimits | common/limiter/global.go:111-139 | if all limits used are at most a bound, the effective limit of every step is |
| GlobalLimitProofs.NeverMoreThanTheLimit | common/limiter/global.go:64-324 | over any interleaving of nodes and clocks, an account that starts empty never holds more slots than the largest limit used |
| GlobalVersions.TextOrderIsNumeric | common/limiter/global.go:97-99 | the script's text test for authorization is the numeric comparison of versions |
| GlobalVersions.PresentingBars | common/limiter/global.go:91-107 | presenting a version bars every lower one, and revoking bars all |
| GlobalVersions.PresentingRetains | common/limiter/global.go:64-90 | and keeps the kick record at least as long as the presented authorization lasts, whatever was asked before |
| GlobalLeases.PresentRecords | common/limiter/global.go:64-109 | presenting leaves the newer of the versions known and presented, or the revocation, in the kick record, kept until the later of the two times, for ever if one says so |
| GlobalVersions.BarsLast | common/limiter/global.go:64-109 | a bar, and how long it is kept, survives every step of every node but a cleaning that comes an idle allowance after that time |
| GlobalVersions.BarsHold | common/limiter/global.go:91-107 | an authorized step is not below any bar |
| GlobalVersions.StillBarred | common/limiter/global.go:64-109 | so over whole runs, cleanings included, a presented version stays a bar while the authorization it came with may last |
| GlobalVersions.AlwaysSound | common/limiter/global.go:64-324 | in every reachable state every slot in the hash carries exactly the version of its kick record and none is revoked |
| GlobalVersions.SupersededHoldsNothing | common/limiter/global.go:64-109 | while that may last, a step is authorized only with a version at least every one presented before for the slot and only if nobody revoked it, and what the slot holds carries such a version |
| GlobalEviction.AdmitSpares | common/limiter/global.go:250-276 | admit and verify never take another device's live slot nor a live lease of it |
| GlobalEviction.TouchedLives | common/limiter/global.go:233-245 | a touched slot is live until it has been idle for the allowance or its authorization ends, and no other slot becomes live or stale by it |
| GlobalEviction.VictimsAreOldest | common/limiter/global.go:288-303 | apart from the target no victim was seen later than a slot that stays |
| GlobalEviction.EvictIsExact | common/limiter/global.go:281-306 | an evict that removes anyone acted on a full account with a confirmation and removed exactly the slots it returns; otherwise every other live device stays |
| GlobalEviction.EvictRefuses | common/limiter/global.go:281-306 | evict refuses if and only if the slot is revoked, the version older than one known or past its end, or the synced limit another; or the slot is not held, at least the limit of other live devices are, and the confirmation is missing or about to expire |
| GlobalEviction.VerifyAgrees | common/limiter/global.go:250-276 | verify answers what admit would answer, and whom admit admits under a limit is registered |
| GlobalEviction.FullMeansOthers | common/limiter/global.go:250-268 | admission is refused for want of room if and only if the slot is not live and at least the limit of other live devices are |
| GlobalEviction.SyncTakesExactly | common/limiter/global.go:162-191 | a sync takes its own slot if and only if it revokes, brings a newer version or detaches the last lease, and touches no other |
| GlobalEviction.OnlyEvictTakes | common/limiter/global.go:162-324 | another device's live slot goes in a slot script only by a confirmed evict that names it; a sync loses only its own slot, cleanup only stale ones |
| GlobalEviction.OwnSlotStays | common/limiter/global.go:199-306 | the caller's own live slot outlives admit, verify and evict that present no newer version |
| GlobalLeases.AdmitDecides | common/limiter/global.go:111-268 | an admission answers -1 for an outdated or revoked version or an authorization that is over, 0 if the slot is not live and other live devices fill the limit, and else 1; limit and end are those last synced for slot and scope, else those of the caller's lease, else the caller's |
| GlobalLeases.AdmitRenews | common/limiter/global.go:255-266 | whom an admission lets in under a limit has a lease with the end in force that is of now or younger than the smaller of the touch time and half the allowance; so the slot stays live for the rest of its allowance |
| GlobalLeases.AdmitLeavesOthers | common/limiter/global.go:199-268 | no other lease is changed, and exactly those not in use, or of the own slot under a newer version, go |
| GlobalLeases.VerifyOnlySweeps | common/limiter/global.go:270-276 | a verification registers nothing: it only sweeps |
| GlobalLeases.UnauthorizedLeaves | common/limiter/global.go:250-252 | an unauthorized admission or verification takes at most the own slot, for a newer version |
| GlobalLeases.EvictDecides | common/limiter/global.go:281-289 | an evict refuses exactly an outdated or revoked version, one past the end in force, another limit than the one synced, or a full account without a confirmation that still lasts |
| GlobalLeases.EvictRegisters | common/limiter/global.go:281-306 | an evict that does not refuse registers the caller with the end in force |
| GlobalLeases.EvictLeavesOthers | common/limiter/global.go:199-306 | and changes no lease of a device it does not return; exactly those not in use go |
| GlobalLeases.SweepExactly | common/limiter/global.go:208-231 | a sweep takes exactly the leases idle beyond their allowance or past their end, and a slot with its last lease |
| GlobalLeases.LiveMeans | common/limiter/global.go:208-231 | a slot is live exactly while one of its leases is in use |
| GlobalLeases.SyncStores | common/limiter/global.go:183-188 | a sync deletes the policy of a detached device, stores that of an authorized one and leaves the others alone |
| GlobalLeases.SyncLeases | common/limiter/global.go:171-182 | a sync that leaves the slot takes the scope's lease if the device is detached and gives it the new limit and end if authorized; no other lease changes |
| GlobalLeases.CleanKickExactly | common/limiter/global.go:314-316 | a kick record is cleaned exactly when it is not for ever and an idle allowance has passed since its end |
| GlobalLeases.CleanPolicyExactly | common/limiter/global.go:310-312 | a policy is cleaned exactly when its slot has no kick record |
| GlobalLeases.CleanLedgerExactly | common/limiter/global.go:320-323 | the cleanup of a ledger keeps exactly the leases in use, and an empty one loses its clock mark |
| GlobalLeases.ClockRestarts | common/limiter/global.go:142-160 | a ledger from before the panel's clock restarts every lease at the panel's time, once, and changes nothing else of it |
| GlobalScripts.SweepEntry | common/limiter/global.go:212-221 | the lease loop keeps exactly the leases neither idle nor expired and the latest time one was seen |
| GlobalScripts.RestartLeases | common/limiter/global.go:145-154 | the migration loop restarts every lease of an entry at the panel's time |
| GlobalScripts.SortByAge | common/limiter/global.go:232-232 | the list is ordered by activity and holds the same slots once each |
| GlobalScripts.RemoveListed | common/limiter/global.go:292-297 | the removal loop takes exactly the target out of the list |
| GlobalScripts.AccountKeys.NoteVersion | common/limiter/global.go:64-109 | the statements compute the transition whose guarantees `GlobalLimitProofs.PresentKeeps` states |
| GlobalScripts.AccountKeys.MoveToPanelClock | common/limiter/global.go:142-160 | the statements compute the clock transition |
| GlobalScripts.AccountKeys.SweepStale | common/limiter/global.go:199-231 | the loop leaves exactly the live entries with their live leases, and lists them once each with their last activity |
| GlobalScripts.AccountKeys.TouchSlot | common/limiter/global.go:233-245 | no sweep of any node takes the slot before the lease runs out; every other slot and lease fares as before |
| GlobalScripts.AccountKeys.Prelude | common/limiter/global.go:64-139 | version, clock and policy are read in the order the scripts read them |
| GlobalScripts.AccountKeys.RunAdmit | common/limiter/global.go:250-268 | the admit script is the admit transition |
| GlobalScripts.AccountKeys.AdmitLive | common/limiter/global.go:253-267 | its verdict after the sweep, and whom it lets in under a limit holds a lease that was renewed now or is younger than it may go without renewal, as `GlobalLeases.AdmitRenews` says of the whole script |
| GlobalScripts.AccountKeys.RunVerify | common/limiter/global.go:270-276 | the verify script is the verify transition |
| GlobalScripts.AccountKeys.RunEvict | common/limiter/global.go:281-306 | the evict script is the evict transition for the age order its sort arrived at |
| GlobalScripts.AccountKeys.EvictLive | common/limiter/global.go:285-305 | its refusal and registration after the sweep |
| GlobalScripts.AccountKeys.RemoveVictims | common/limiter/global.go:290-302 | the two removal loops remove and return exactly the victims |
| GlobalScripts.AccountKeys.RunSync | common/limiter/global.go:162-191 | one user of the sync script is the sync transition |
| GlobalScripts.AccountKeys.RunCleanKick | common/limiter/global.go:314-316 | every bar that may still be asked for stays, with its retention; nothing else is touched |
| GlobalScripts.AccountKeys.RunCleanPolicy | common/limiter/global.go:310-312 | every slot with a kick record is seen under the limit and deadline it was; nothing else is touched |
| GlobalScripts.AccountKeys.RunCleanLedger | common/limiter/global.go:320-323 | the ledger keeps exactly its live entries and an empty one loses its clock mark |
| GlobalSync.NeverShortened | common/limiter/global.go:632-646 | a device a scope has authorized keeps its authorization at least as long whatever is listed later |
| GlobalSync.RememberMeans | common/limiter/global.go:632-646 | what is remembered of a device is its last listing, whatever was remembered before, with the longest end of all; of an unlisted one, what was remembered |
| GlobalSync.SentMeans | common/limiter/global.go:632-646 | the entry sent for a listed device is the listed user in every field but the end, which is the longest so far; it carries the terms of the last listing and neither revokes nor detaches |
| GlobalSync.DepartedMeans | common/limiter/global.go:647-677 | what is sent behind the listed devices is about remembered ones that nobody listed, as remembered, detached, and revoked exactly if their account is still listed |
| GlobalSync.DevicesAre | common/limiter/global.go:662-677 | every entry of an official device is sent as often as planned, and no other |
| GlobalSync.LeftExactly | common/limiter/global.go:700-705 | after a sync a device is remembered exactly while it is listed, or, once its account is gone, until an idle allowance after its end |
| GlobalSync.ListedArrives | common/limiter/global.go:162-189 | a listed device's entry brings its kick version to Redis: no older one stands or holds the slot afterwards; unless a newer one is known, the terms of the last listing are stored |
| GlobalSync.DepartedArrives | common/limiter/global.go:162-189 | a departed device's entry takes its lease and policy, and revokes the slot if its account is still listed |
| GlobalSync.SendBatches | common/limiter/global.go:656-699 | every device is sent once and in order, in batches of which all but the last hold 64, up to the first script run that fails |
| GlobalSync.ScopeSync.Note | common/limiter/global.go:627-646 | each listed device is sent as listed, with the longer of the listed end and those before, and with the terms of its last listing; remembered is then its last listing, with the longest end; accounts and devices are exactly the listed ones |
| GlobalSync.ScopeSync.NoteDeparted | common/limiter/global.go:647-653 | exactly the remembered devices no longer listed are sent as detached, revoked if their account is still listed |
| GlobalSync.ScopeSync.SyncUsers | common/limiter/global.go:600-709 | sends exactly the listed and the departed devices and then forgets exactly the revoked and the long expired; after a failed run it forgets nobody and leaves the list pending |
| GlobalSync.ScopeSync.Forget | common/limiter/global.go:700-708 | the forgetting loop removes exactly those |
| GlobalSync.ScopeSync.SyncPending | common/limiter/global.go:580-598 | sends the pending list again, and clears it exactly when every run goes through |
| GlobalSync.RememberTwice | common/limiter/global.go:632-646 | remembering a list a second time changes nothing |
| GlobalSync.RetrySendsAll | common/limiter/global.go:600-709 | whatever a failed sync had to send, revocations included, the retry sends as well, with authorizations at least as long |
| DeviceSlots.PeekOldest | common/limiter/device_kick.go:42-60 | finds a slot no younger than any other, and none only in an empty book |
| DeviceSlots.EvictDeviceSlot | common/limiter/device_kick.go:64-78 | removes the target if online, else an oldest slot, from both halves; fails only on an empty book; a missing set changes nothing |
| DeviceSlots.PurgeStaleDeviceSlots | common/limiter/device_online.go:197-211 | removes exactly the slots idle beyond the expiry from both halves and returns the number left |
| DeviceSlots.VerifyDeviceSlot | common/limiter/device_online.go:311-327 | the counting loop decides: fresh itself, or fewer fresh slots than the limit, or no limit |
| DeviceSlots.RoomExactly | common/limiter/device_online.go:231-327 | there is no room exactly if the slot was not active within the last minute and at least as many others as the limit were; a re-check allows exactly what an admission lets in without asking |
| DeviceSlots.AdmitRound | common/limiter/device_online.go:231-264 | one round under the lock renews, registers, makes room with a grant, refuses, or asks the panel; only the first three change the purged book |
| DeviceSlots.AdmitDeviceSlot | common/limiter/device_online.go:218-266 | it asks the panel at most once, and exactly if the first round, on the book found at the start, is full; it refuses exactly if the caller is no longer authorized, or if the last round, on the book found when the lock was taken back, is full and the panel has not granted; a refusal leaves exactly what the purge left, and an admission is `Admitted` |
| DeviceSlots.MakeRoom | common/limiter/device_online.go:250-260 | the loop evicts count - limit + 1 slots in turn, target first |
| DeviceSlots.EvictionSize | common/limiter/device_kick.go:64-78 | evicting in turn removes that many different slots |
| DeviceSlots.EvictionAge | common/limiter/device_kick.go:64-78 | no victim but the target was active later than a slot that stays |
| DeviceSlots.AdmissionIs | common/limiter/device_online.go:218-266 | after an admission the slot is in, the book holds at most max(fresh before, limit) slots, and only the kicked ones left, the client's choice first, then none younger than a survivor |
| DeviceSlots.AdmissionBound | common/limiter/device_online.go:218-266 | under a limit, at most max(fresh when the lock was taken, limit) slots are left, counted in the book as it was found |
| DeviceSlots.Tables.EnsureDeviceSlot | common/limiter/device_online.go:276-305 | its verdict is that of `VerifyDeviceSlot`; it writes exactly when a renewal is due, never evicts and touches no other key's book |
| DeviceSlots.EnsureBound | common/limiter/device_online.go:276-305 | registering again under a limit leaves at most max(fresh before, limit) fresh slots |
| BookSharing.OnlineKeyRoundTrip | common/limiter/device_online.go:92-114 | a slot identifier names its device; a third party's names none |
| BookSharing.ReconciledStructure | common/limiter/device_online.go:122-154 | reconciling gives every listed account with a book one book, different for different accounts |
| BookSharing.AssignKeeps | common/limiter/device_online.go:160-194 | pointing a key of an account at its book keeps all books apart |
| BookSharing.SyncedStructure | service/anytls/traffic.go:113-123 | with unlisted keys gone, all keys of an account's official devices alias one book and no other account's |
| BookSharing.StillSound | common/limiter/device_online.go:276-305 | opening a book for a key between syncs keeps that |
| BookSharing.DeviceKeepsItsSlot | service/anytls/traffic.go:18-124 | when a credential of the account stays listed, a device keeps its slot through a sync if and only if it had one, is still listed, and no record under its credentials changed its kick version |
| BookSharing.OutsideBookIs | common/limiter/device_online.go:129-136 | in the book of a third-party credential that stays listed, a sync leaves every slot but those of devices no longer listed, with the activity it had |
| BookSharing.OfficialBookIs | service/anytls/traffic.go:18-124 | in an official book, against any listed credential's book from before: every slot but those of devices no longer listed or with another kick version, with the activity it had |
| BookSharing.RecordsAre | service/anytls/traffic.go:83-93 | under a key that anyone is listed with stands the first of them, as listed |
| BookSharing.ResolvesExactly | service/anytls/traffic.go:158-165 | a credential resolves to a slot exactly if it is on record, unexpired and of the kick version asked for: its device, or for a third party the exit address |
| BookSharing.OutdatedIsRefused | service/anytls/traffic.go:232-238 | a re-check with a kick version that is not that of the record is refused and changes nothing |
| BookSharing.RecheckIs | service/anytls/traffic.go:232-262 | a re-check succeeds exactly if there is room or the slot was active within the minute, and, unless it was active within ten seconds, the cross-node verdict is good; only its own time changes, and it goes after a bad verdict |
| BookSharing.ConnectionIs | service/anytls/traffic.go:174-228 | a connection is let in exactly if its credential resolves at both looks, the cross-node verdict is good and the panel granted it or there was room at the last look; the panel is asked exactly if the first look found none |
| BookSharing.NewAccountStartsEmpty | common/limiter/device_online.go:160-194 | an account none of whose listed credentials had a book starts with an empty one |
| AccountBooks.FilterBook | common/limiter/device_online.go:129-136 | a book keeps exactly the slots that do not begin with "client-" or are a listed device's, with the times they had, in both halves |
| AccountBooks.DropDelisted | common/limiter/device_online.go:123-136 | so does every book on the table, however many keys share it |
| AccountBooks.CollectBooks | common/limiter/device_online.go:137-153 | every listed account whose keys have a book is given one of them, and only such accounts |
| AccountBooks.ReconcileDeviceSlots | common/limiter/device_online.go:122-154 | delisted devices hold no slot, and each account has its collected book |
| AccountBooks.ShareAccountSlots | common/limiter/device_online.go:160-194 | all keys of an official device go to its account's book, an existing one if there is any, else a new empty one; a third party's table is left alone |
| AccountBooks.KickOut | service/anytls/traffic.go:49-54 | the device's slot leaves exactly the books of credentials whose version changed |
| AccountBooks.NewRecords | service/anytls/traffic.go:83-93 | a key's record is that of the first user listed with it |
| AccountBooks.DropUnlisted | service/anytls/traffic.go:113-123 | exactly the keys on record stay |
| AccountBooks.SyncBooks | service/anytls/traffic.go:38-107 | the user loop leaves each account's book with what it started from less the kicked devices, and third parties' books as the reconciling left them |
| AccountBooks.SyncTables | service/anytls/traffic.go:18-124 | a sync keeps the tables sound: paired halves, one book per account, no book across accounts |
| AccountBooks.Service.SyncUsers | service/anytls/traffic.go:18-124 | the same for the service object, with the exact contents of every official and third-party book |
| AccountBooks.Service.EnsureOnline | service/anytls/traffic.go:232-262 | a re-check keeps its place exactly where `VerifyDeviceSlot` would say so and a due renewal passes the cross-node check; it writes the slot exactly when a renewal is due, takes it out after a bad verdict, changes no book but that of its key, and keeps one book per account |
| AccountBooks.Service.EnsureHere | service/anytls/traffic.go:232-244 | the local half: the verdict of `VerifyDeviceSlot`, and a write exactly when a renewal is due |
| AccountBooks.Service.ReleaseOnline | service/anytls/traffic.go:264-271 | the credential's slot leaves its book, if the credential still is what it was; no other book changes |
| AccountBooks.Service.OpenBook | service/anytls/traffic.go:198-214 | a credential without a book gets an empty one of its own, and there is still one book per account |
| AccountBooks.Service.AdmitOn | service/anytls/traffic.go:216-222 | admission on an aliased book decides as `AdmitDeviceSlot` does and keeps one book per account |
| AccountBooks.Service.AllowConnection | service/anytls/traffic.go:174-228 | a connection is admitted exactly if its credential is on record and unexpired at both looks, the cross-node verdict is good and the book lets it in; a bad verdict releases the slot; no book but that of its key changes, and there is still one book per account |
| ConversionRules.BuiltBalances | tools/traffic-revert/main.go:365-367 | the built components equal the totals exactly when every account balances |
| ConversionRules.LegacyThere | tools/traffic-revert/main.go:368-373 | balanced totals cover the legacy amounts to be subtracted |
| ConversionRules.QueueThere | tools/traffic-revert/main.go:374-380 | what is left covers the queue entries to be subtracted |
| ConversionRules.PendingThere | tools/traffic-revert/main.go:382-391 | what is then left covers a pending report the checkpoint has billed |
| ConversionRules.OwedAll | tools/traffic-revert/main.go:368-391 | what remains is exactly the legacy, queued and pending amounts the checkpoint does not cover |
| ConversionRules.RetainedThere | tools/traffic-revert/main.go:402-412 | a retained report is covered by what remains |
| ConversionRules.RangeIs | tools/traffic-revert/main.go:413-417 | the last loop's test is that no account's unreported rest exceeds int64 |
| ConversionRules.NothingLost | tools/traffic-revert/main.go:231-419 | for every account and counter, the totals before are what stays owed plus what the checkpoint covers |
| ConversionRules.ConvertibleMeans | tools/traffic-revert/main.go:231-419 | which ledgers convert, spelled out: readable checkpoint, totals and pending report, and either the original format throughout, or the third one, not behind the checkpoint, with sound parts that agree and add up |
| ConversionRules.OwedMeans | tools/traffic-revert/main.go:368-391 | what stays owed, by kind of checkpoint: everything; all but a covered old report; or just the queue entries and the pending report with later numbers |
| ConversionRules.DropsExactly | tools/traffic-revert/main.go:382-401 | the pending report is dropped exactly if the checkpoint is its own or a later one of its kind, or of the new kind while the report is not; a kept one keeps its rows and gets a plain number |
| ConversionRules.PendingRow | tools/traffic-revert/main.go:347-356 | the pending report counts for an account exactly the two numbers of the user's row |
| LedgerConversion.Load | tools/traffic-revert/main.go:160-178 | loads exactly tables of positive ids with int64 amounts that are not zero |
| LedgerConversion.ReadReport | tools/traffic-revert/main.go:202-229 | the running pass accepts exactly well-formed, ascending, non-empty reports with an int64 sum |
| LedgerConversion.Add | tools/traffic-revert/main.go:180-187 | adds exactly unless a counter leaves int64 |
| LedgerConversion.Subtract | tools/traffic-revert/main.go:189-200 | subtracts exactly when covered, deleting an account that reaches zero |
| LedgerConversion.SumQueue | tools/traffic-revert/main.go:285-316 | in any order, the queue loop succeeds exactly when its entries are sound and no sum overflows, and gives the sums |
| LedgerConversion.CheckUsers | tools/traffic-revert/main.go:317-330 | the index is accepted exactly when each entry points at its own user's queue entry |
| LedgerConversion.AddReport | tools/traffic-revert/main.go:347-356 | adds the rows of a new-format report exactly when no sum overflows |
| LedgerConversion.LegacyCovers | tools/traffic-revert/main.go:353-355 | accepts exactly when the legacy totals cover every row |
| LedgerConversion.SubtractReport | tools/traffic-revert/main.go:386-390 | subtracting covered rows never falls short and takes exactly them |
| LedgerConversion.SubtractLegacy | tools/traffic-revert/main.go:369-373 | the same for the legacy amounts, in any order |
| LedgerConversion.SubtractQueued | tools/traffic-revert/main.go:374-380 | the same for the queue entries up to the checkpoint, in any order |
| LedgerConversion.PendingComponents | tools/traffic-revert/main.go:331-364 | a pending report is taken in exactly when its number, kind and digest agree with checkpoint, legacy totals and local sequence |
| LedgerConversion.CrossCheck | tools/traffic-revert/main.go:270-367 | passes exactly the new-format ledgers whose parts add up |
| LedgerConversion.Deduct | tools/traffic-revert/main.go:368-391 | after the cross-check no subtraction falls short in any order, and exactly the owed amounts are left |
| LedgerConversion.CheckRange | tools/traffic-revert/main.go:413-417 | true exactly when every rest is an int64 sum |
| LedgerConversion.CheckRemaining | tools/traffic-revert/main.go:402-417 | setting the retained report aside never falls short |
| LedgerConversion.Prepare | tools/traffic-revert/main.go:231-419 | converts exactly the ledgers described by `Convertible`, never for want of traffic, and yields exactly the owed amounts and the retained report |
| PatchText.SplitIsSplit | tools/prepare-xray.go:167-168 | splitting after newlines gives whole lines and a last piece without one |
| PatchText.SplitOfJoin | tools/prepare-xray.go:167-168 | and is the only such splitting of the text |
| PatchText.HunkStep | tools/prepare-xray.go:171-200 | applying one more fitting hunk keeps the result equal to source and hunks read so far |
| PatchText.BlocksMore | tools/prepare-xray.go:184-199 | a context line belongs to the old and the new block, a removed one to the old, an added one to the new |
| PatchText.LineKinds | tools/prepare-xray.go:172-186 | a hunk opens at a line that begins with "@@ ", and its lines begin with a space, a plus or a minus |
| PatchText.StartOfWritten | tools/prepare-xray.go:176-177 | the start of any header a diff writes is the number behind the minus, up to a comma or a space, whatever follows |
| PatchText.NormalizedPair | tools/prepare-xray.go:168-168 | every carriage return with its newline becomes a newline, wherever it stands |
| PatchText.ReturnsDoNotMatter | tools/prepare-xray.go:168-168 | a patch saved with carriage returns is read as the same hunks |
| PatchApply.ReadHeader | tools/prepare-xray.go:176-180 | accepts exactly a start at or after the cursor and inside the source, and returns it |
| PatchApply.ApplyBody | tools/prepare-xray.go:184-200 | succeeds exactly when the old block stands at the cursor, and then writes the new block |
| PatchApply.ApplyHunk | tools/prepare-xray.go:176-200 | succeeds exactly when the hunk fits, copying what lies before it untouched |
| PatchApply.ApplyPatch | tools/prepare-xray.go:166-206 | succeeds exactly when there is a hunk and all fit in order; the output is the source with each old block replaced by its new block and all between untouched |
| PatchReverse.SwapExchanges | tools/prepare-xray.go:184-199 | swapping plus and minus exchanges a body's old and new block |
| PatchReverse.StartOfHeader | tools/prepare-xray.go:176-177 | a written header's start is read back as written |
| PatchReverse.PatchedKeepsEnd | tools/prepare-xray.go:166-206 | patching with whole lines leaves the text's last piece in place |
| PatchReverse.ReverseRestores | tools/prepare-xray.go:166-206 | where the patched lines stand, the reversed hunks with starts shifted by the running difference fit and restore the source lines |
| PatchReverse.RenderRoundTrip | tools/prepare-xray.go:168-200 | hunks written out as text are read back as the same hunks |
| PatchReverse.ReversePatchRestores | tools/prepare-xray.go:166-206 | the reversed patch, as text, applies to the patched source and gives the source back |
| AuthId.StripConnectionUndoes | service/hysteria2/auth.go:25-38 | stripping a connection prefix gives back any identifier it was put on |
| AuthId.KickVersionDecodes | service/hysteria2/auth.go:96-104 | the kick version is recovered |
| AuthId.UidDecodes | service/hysteria2/auth.go:40-54 | the account id is recovered |
| AuthId.IdentityDecodes | service/hysteria2/auth.go:84-94 | the identity is recovered if and only if it holds no bar |
| AuthId.SplitDecodes | service/hysteria2/auth.go:59-74 | credential and host are recovered if and only if the account id is positive and the host holds no bar |
| AuthId.EverythingDecodes | service/hysteria2/auth.go:40-104 | all four decoders recover what was encoded if and only if the id is positive and neither host nor identity holds a bar |
| AuthId.Layout | service/hysteria2/auth.go:17-82 | an identifier is connection, kick version, identity if any, account id, credential and host, in this order, with bars between |
| AuthId.ConnectionInvisible | service/hysteria2/auth.go:25-104 | no decoder sees the connection prefix |
| AuthId.ConnectionsDiffer | service/hysteria2/auth.go:25-31 | identifiers of connections with different numbers differ |
| AuthId.ConnectionSeq.Next | service/hysteria2/auth.go:25-31 | each identifier carries the next number of the 64-bit counter |

## Left out

Assumptions about the surroundings:

- JSON, base64, SHA-256 and signatures are abstract records; a hash is taken to be injective, so a digest is the data.
- The database, Redis and HTTP: a transaction or a script is one atomic step; disk errors are a failing commit only where `writeRecords` handles one, and malformed keys or values in the database are not part of this model, nor is a corrupt report or record beyond the tests the code itself makes on its fields.
- Random report ids are new: different from every id on the chain.
- The panel is an environment with the rules stated in `Billing.Handle`; its own code is not part of this model.
- Times are whole seconds, milliseconds or nanoseconds as the code uses them; Lua's rounding of large numbers is not modelled, and deadlines plus clock offset are taken to be non-negative.
- A credential belongs to one account and is either official or third-party (`OwnedAs`).

Statements weaker than one might expect:

- ReportClient.Server.PostMerge: assumes that a merge reply states both submitted receipts or is one of them; `DeferredBook.MergeProgress` says what happens with any other reply.
- ReportClient.Client.ReportUserTraffic: traffic recorded during a cycle is not interleaved here; `Billing` interleaves recording with every step, and `FairScan.Round` with every round. An unsound reply of the panel counts as a fault, like a lost message.
- FairPlan.PlanIsEnough: rounds without traffic and sums that fit; with traffic, `FairScan.OwedIsReported` bounds when an account is reported.
- NodeStore.Store.RecoverAfter: the confirmation in force only while its record is retained, as `Billing.PruneForgets` says of the code.
- DeferredBook.RememberDeferred: a receipt's signature is carried and compared but not checked.
- FairScan.OwedIsReported: counts rounds in which no new account appears between the cursor and the one waited for; such an account is served first and moves the bound by itself.
- GlobalLimitProofs.NeverMoreThanTheLimit: one account whose keys start in the panel-clock format; the older slot formats and the third-party ledger with plain timestamps and Redis expiry are not part of this model.
- GlobalScripts.AccountKeys.RunEvict: a positive limit, which every caller ensures before it evicts.
- GlobalSync.ScopeSync.SyncUsers: the scope-less call, which remembers nothing, and the pause after repeated failures are not modelled; the policy text is the pair of numbers it is printed from.
- GlobalSync.ScopeSync.SyncPending: one scope; the try-lock and the pause after a failed round are not modelled.
- DeviceSlots.AdmitDeviceSlot: works on the books it was given, even if a sync replaced the tables while it asked the panel, as the code does; others may do anything to a book while the lock is free but break its pairing; the report of a kick to the panel is the returned list of victims.
- AccountBooks.Service.EnsureOnline: the cross-node verdict is a parameter here; `GlobalLimit` is about how it comes about. A sync between the local and the cross-node half is not interleaved.
- AccountBooks.Service.AllowConnection: likewise; a sync while the cross-node check or the panel is asked is not interleaved, and noting the client's address is not modelled.
- AccountBooks.Service.SyncUsers: rate limiters and the list of inbound users are not modelled; the Hysteria2 and TUIC services differ only in their keys.
- LedgerConversion.Prepare: ids and amounts are taken as decoded; parsing their hexadecimal and binary forms is not modelled.
- PatchApply.ReadHeader: a header without a second field is a failure here, where the program panics; fields are separated by ASCII white space.
- PatchReverse.ReversePatchRestores: no hunk line ends in a carriage return and a newline, and the patched text has at most the largest int64 of lines.
- AuthId.EverythingDecodes: identifiers as `accountAuthID` makes them; older ones without an account id are not covered.

Not modelled:

- The cache of recent verdicts, the second look at a limit that changed and the fallback when Redis is down (common/limiter/global.go:393-579).
- common/limiter/limiter.go: it refreshes a stale slot without counting again, so the strict bound is proved for common/limiter/device_online.go.
- The conversion tool's backup, file handling and write phase, and its inspect command.
- `DeferredReports`, report paths and host changes, rate limits, listeners and service life cycle: they would only add easy members.
