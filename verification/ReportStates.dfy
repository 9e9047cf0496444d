/** Predicates on protocol states that a reporting cycle is specified with. */
module ReportStates {
  import opened Wrappers
  import opened TotalsKeys
  import opened TrafficReports
  import opened DeferredReceipts
  import B = DeferredBook
  import opened TrafficStore
  import opened LedgerInvariant
  import opened Billing
  import F = FairScan
  import P = FairPlan

  /** How a cycle ends. `Incomplete` is the limit of one hundred replayed reports. */
  datatype Outcome = Done | Incomplete | Failed(error: string)

  // ---------------------------------------------------------------- what can stop a cycle

  /** The next freeze fails: the walk reaches a row without an int64 sum before the report is complete. */
  ghost predicate Blocked(db: Db) {
    && db.pending == None && db.totals != map[]
    && exists ext :: Blocks(db.totals, Successor(db.totals.Keys, db.cursor), ext)
  }

  /** Report `i` of the log cannot be replayed: it was confirmed without a receipt, or something about it still
      awaits merging. */
  ghost predicate Stuck(records: Records, log: seq<Report>, i: nat) {
    && i < |log|
    && (log[i].receipt == NO_RECEIPT || (log[i].id in records && records[log[i].id].proofs != []))
  }

  /** Nothing about the reports from `j` on awaits merging. */
  ghost predicate Clear(records: Records, log: seq<Report>, j: nat) {
    forall id {:trigger Later(log, j, id)} :: Later(log, j, id) && id in records ==> records[id].proofs == []
  }

  /** One of the reports from `j` on. */
  ghost predicate Later(log: seq<Report>, j: nat, id: string) {
    exists i :: j <= i < |log| && log[i].id == id
  }

  /** Every report from `j` on was confirmed with a receipt. */
  ghost predicate Replayable(log: seq<Report>, j: nat) {
    forall i :: j <= i < |log| ==> log[i].receipt != NO_RECEIPT
  }

  /** No proof came or went about the reports from `j` on. */
  ghost predicate Untouched(before: Records, after: Records, log: seq<Report>, j: nat) {
    forall id {:trigger Later(log, j, id)} :: Later(log, j, id) && id in after ==>
      id in before && after[id].proofs == before[id].proofs
  }

  /** `sent` are the reports of the log from position `j` on, in order. */
  ghost predicate Replays(sent: seq<Report>, log: seq<Report>, j: nat) {
    && (sent != [] ==> j + |sent| <= |log|)
    && forall i :: 0 <= i < |sent| ==> SameBytes(sent[i], log[j + i])
  }

  /** The receipt the panel may give with its progress: none to remember, or one of the report it stands at. */
  ghost predicate ProgressFits(receipt: Receipt, id: string, history: map<string, Report>) {
    && ReadAck(receipt).Ok?
    && (HasAck(receipt) ==>
          && receipt.ack.id == id
          && (receipt.ack.previous in history ==> Matches(receipt, history[receipt.ack.previous])))
  }

  /** What lets `Answered` be read, and is always true. */
  ghost predicate LookAtAnswer(before: Db) { true }

  /** The node has remembered the panel's answer to a merge of record `id`. */
  ghost predicate Answered(before: Db, id: string, receipt: Receipt, now: int, after: Db) {
    && B.Outstanding(after.deferred) < B.Outstanding(before.deferred)
    && forall db: Db {:trigger LookAtAnswer(db)} :: LookAtAnswer(db) && db == before ==>
          id in db.deferred && RememberDb(db, B.MergeReport(db.deferred[id]), receipt, now) == Ok(after)
  }

  /** `progress` is what a panel shows that has taken `at` reports of the chain; it is back when that is the log. */
  ghost predicate Shows(origin: string, log: seq<Report>, db: Db, at: nat, progress: string) {
    && (at >= |log| <==> Back(db, progress))
    && (at < |log| ==> progress == IdAt(origin, log, at))
  }

  /** The recovery loop has replayed `sent` from report `j` on, and goes on from `progress`. The panel stood at
      `start` when it began and stands at `pos` now; `before` and `after` are the deferred records then and now. */
  ghost predicate Recovering(log: seq<Report>, before: Records, after: Records, start: nat, pos: nat, j: nat,
                             sent: seq<Report>)
  {
    && Replays(sent, log, j) && |sent| <= 100 && start <= pos
    && j + |sent| <= pos && (pos == if sent == [] then start else j + |sent|) && (sent != [] ==> start <= j + 1)
    && Untouched(before, after, log, j + |sent|)
  }

  /** Why recovery stops after `n` reports without a fault: the next one is stuck, or a merge had moved the panel
      more than one report on before the loop began. */
  ghost predicate Halts(log: seq<Report>, before: Records, start: nat, j: nat, n: nat) {
    start > j + 1 || Stuck(before, log, j + n)
  }

  /** How the recovery loop ends: back at the end of the log; or after a hundred reports, that much nearer to it;
      or stopped before the end. */
  ghost predicate Recovered(log: seq<Report>, before: Records, after: Records, start: nat, pos: nat, j: nat,
                            sent: seq<Report>, r: Outcome)
  {
    && Replays(sent, log, j) && |sent| <= 100 && start <= pos
    && match r
       case Done => j + |sent| >= |log| && (pos == if sent == [] then start else j + |sent|)
       case Incomplete => |sent| == 100 && pos == j + 100 < |log| && Untouched(before, after, log, j + 100)
       case Failed(_) => StoppedAt(log, before, after, start, j, sent)
  }

  /** What lets `Finishes` and `CycleEnds` be read, and is always true. */
  ghost predicate LookAtEnd(r: Outcome) { true }

  /** How the second half of a cycle ends, that began with the ledger `db`, the panel at `start` and its progress read
      at `j`. It stops at the limit of the recovery loop; or it is done, having sent what was planned or all that was
      owed; or without a fault, a row without an int64 sum has stopped it after it had sent something, or the recovery
      loop has stopped before the end of the log. */
  ghost predicate Finishes(log: seq<Report>, db: Db, start: nat, j: nat, log2: seq<Report>, db2: Db, pos: nat,
                           replayed: seq<Report>, batches: int, r: Outcome, faultless: bool)
  {
    forall end: Outcome {:trigger LookAtEnd(end)} :: LookAtEnd(end) && end == r ==>
      && log <= log2 && Replays(replayed, log, j) && |replayed| <= 100
      && (|log2| > |log| ==> pos >= |log2|) && (end == Done || log2 != log ==> j + |replayed| >= |log|)
      && match end
         case Incomplete =>
           && |replayed| == 100 && log2 == log && pos == j + 100 < |log| && db2 == db.(deferred := db2.deferred)
           && Untouched(db.deferred, db2.deferred, log, pos)
         case Done =>
           && db2.pending == None && pos == |log2| <= |log| + AtLeastOne(batches)
           && (db2.totals == map[] || |log2| == |log| + AtLeastOne(batches))
         case Failed(_) =>
           faultless ==>
             || (|log2| > |log| && Blocked(db2))
             || (&& log2 == log && start <= pos && db2 == db.(deferred := db2.deferred)
                 && Halts(log, db.deferred, start, j, |replayed|)
                 && StoppedAt(log, db.deferred, db2.deferred, start, j, replayed))
  }

  /** How a cycle ends, that began with the ledger `db`, the panel at `at`, and something about a lost report awaiting
      a merge unless `settled`. What it replays is a stretch of the log from where the panel stood. Without a fault it
      fails only for a row without an int64 sum, for a report confirmed without a receipt, or where its merges had
      moved the panel on by two reports or more; and then nothing about a lost report awaits merging any more. */
  ghost predicate CycleEnds(log: seq<Report>, db: Db, at: nat, settled: bool, log2: seq<Report>, db2: Db, at2: nat,
                            settled2: bool, replayed: seq<Report>, r: Outcome, faultless: bool)
  {
    forall end: Outcome {:trigger LookAtEnd(end)} :: LookAtEnd(end) && end == r ==>
      && log <= log2 && Replays(replayed, log, at) && |replayed| <= 100
      && (|log2| > |log| ==> at2 >= |log2|) && (end == Done || log2 != log ==> at + |replayed| >= |log|)
      && (Blocked(db) ==> end.Failed? && log2 == log && at2 == at && db2 == db)
      && match end
         case Incomplete => |replayed| == 100 && log2 == log && at2 == at + 100 < |log| && !Blocked(db2) && settled2
         case Done => at2 == |log2|
         case Failed(_) =>
           faultless ==>
             || Blocked(db)
             || (|log2| > |log| && Blocked(db2))
             || (log2 == log && Unreceipted(log, at + |replayed|))
             || (log2 == log && !settled && at2 > at + 1 && settled2 && !Blocked(db2))
  }

  /** The recovery loop stopped at the report behind `sent`; that is the last it touched. */
  ghost predicate StoppedAt(log: seq<Report>, before: Records, after: Records, start: nat, j: nat, sent: seq<Report>) {
    && j + |sent| < |log| && (start > j + 1 ==> sent == [])
    && Untouched(before, after, log, j + |sent| + 1)
  }

  /** The state a proof looks into: always true, and what lets `Sound` be read. */
  ghost predicate LookInto(s: State) { true }

  /** A sound node, of whose chain the panel has taken `n` reports. The facts are kept behind `LookInto`, so that a
      step which only passes a sound state on does not unfold them. */
  ghost predicate Sound(s: State, n: nat) {
    forall x: State {:trigger LookInto(x)} :: LookInto(x) && x == s ==>
      && Inv(x) && B.BookInv(x.db.deferred)
      && StandsAt(x.panel, x.origin, Chain(x), n)
  }

  /** What lets `UnusedIds` be read, and is always true. */
  ghost predicate LookAtIds(s: State) { true }

  /** From the `n`-th on, the random ids are well formed, distinct and not in use. */
  ghost predicate UnusedIds(s: State, ids: nat -> string, n: nat) {
    forall x: State {:trigger LookAtIds(x)} :: LookAtIds(x) && x == s ==>
      && (forall i: nat :: i >= n ==> IsReportId(ids(i)) && NewId(x, ids(i)))
      && (forall i: nat, j: nat :: n <= i < j ==> ids(i) != ids(j))
  }

  /** The ledger a report was frozen from, and the id it was given. */
  datatype Origin = Origin(db: Db, id: string)

  /** `db` holds the report frozen from `o.db`, and nothing but deferred records has changed since. */
  ghost predicate FrozenFrom(db: Db, o: Origin) {
    && o.db.pending == None && IsReportId(o.id) && db.pending.Some?
    && PendingDb(o.db, o.id).Ok? && PendingDb(o.db, o.id).value.1 == db.pending
    && db == PendingDb(o.db, o.id).value.0.(deferred := db.deferred)
  }

  /** A cycle that begins with nothing frozen: `report` is frozen from `start`, or nothing is owed. */
  ghost predicate Begun(start: Db, id: string, report: Option<Report>, db: Db) {
    if report.Some? then FrozenFrom(db, Origin(start, id))
    else db == start.(deferred := db.deferred) && db.totals == map[]
  }

  /** How many cycles replay that many reports; one cycle also when there are none. */
  function Cycles(lost: int): nat {
    if lost <= 0 then 1 else (lost + 99) / 100
  }

  /** Before cycle `cycles`, counted from 0, of a node that had lost `lost` reports at first: it has lost no more than
      the cycles still allowed replay. If merges were outstanding at first, one cycle more is allowed; `clear` says
      that nothing about a lost report awaits merging now, and `first` that nothing did at first. */
  ghost predicate Nearer(lost: int, first: bool, cycles: nat, left: int, clear: bool) {
    && (clear || (cycles == 0 && !first))
    && cycles + Cycles(left) <= Cycles(lost) + (if first || cycles == 0 then 0 else 1)
    && (first ==> cycles + Cycles(left) == Cycles(lost))
  }

  /** What a cycle without a fault gains: a hundred replayed reports; or, once, merges that moved the panel on; or the
      panel is back at the end of the log, and the cycle has ended well or at a row without an int64 sum. */
  ghost predicate Gains(log: seq<Report>, at: nat, clear: bool, log2: seq<Report>, db2: Db, at2: nat, clear2: bool,
                        r: Outcome)
  {
    || (&& r == Incomplete && log2 == log && at2 == at + 100 < |log|
        && Replayable(log2, at2) && !Blocked(db2) && clear2)
    || (&& r.Failed? && log2 == log && at2 > at + 1 && !clear
        && Replayable(log2, at2) && !Blocked(db2) && clear2)
    || (|log| <= at + 100 && Caught(log, log2, db2, at2, r))
  }

  /** The panel is back where `before` ended, and the cycle has ended well or at a row without an int64 sum. */
  ghost predicate Caught(before: seq<Report>, log: seq<Report>, db: Db, at: nat, r: Outcome) {
    at >= |before| && (r == Done || (r.Failed? && |log| > |before| && Blocked(db)))
  }

  /** Where the reporting task stands after `cycles` cycles without a fault: nearer, or back in time. */
  ghost predicate CatchesUp(before: seq<Report>, lost: int, first: bool, cycles: nat, log: seq<Report>, db: Db, at: nat,
                            clear: bool, r: Outcome)
  {
    || (&& r != Done && log == before && Replayable(log, at) && !Blocked(db)
        && Nearer(lost, first, cycles, |log| - at, clear))
    || (&& Caught(before, log, db, at, r)
        && (r == Done ==> cycles <= Cycles(lost) + (if first then 0 else 1) && (first ==> cycles == Cycles(lost))))
  }

  function AtLeastOne(n: int): (m: nat)
    ensures m >= 1 && m >= n
  {
    if n > 1 then n else 1
  }

  /** A cycle that ended well: nothing is frozen, and the planned number of reports has been confirmed or nothing is
      owed. From a ledger with nothing frozen it went by rounds without traffic. */
  ghost predicate Completed(start: Db, before: nat, db: Db, after: nat, dbs: seq<Db>, steps: seq<F.Step>) {
    && db.pending == None && before <= after <= before + AtLeastOne(BatchesFor(|start.totals.Keys|))
    && (db.totals == map[] || after == before + AtLeastOne(BatchesFor(|start.totals.Keys|)))
    && (start.pending == None ==>
          P.QuietRounds(dbs, steps) && dbs[0] == start && dbs[|steps|].totals == db.totals && |steps| == after - before)
  }

  /** Report `i` was confirmed without a receipt, so the history does not have it. */
  ghost predicate Unreceipted(log: seq<Report>, i: nat) {
    i < |log| && log[i].receipt == NO_RECEIPT
  }

  /** Rounds without traffic from the ledger `o.db` to `db`, as many as the log has grown. */
  ghost predicate Chronicle(o: Option<Origin>, dbs: seq<Db>, steps: seq<F.Step>, db: Db, sent: int) {
    o.Some? ==> P.QuietRounds(dbs, steps) && dbs[0] == o.value.db && dbs[|steps|] == db && |steps| == sent
  }

  /** The frozen report, if any, was frozen from the last ledger of the chronicle. */
  ghost predicate FrozenAt(o: Option<Origin>, at: Option<Origin>, db: Db, last: Db) {
    o.Some? ==> at.Some? && at.value.db == last && LedgerInv(last) && FrozenFrom(db, at.value)
  }
}
