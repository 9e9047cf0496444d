/** The circular scan is fair: every owed account is reported after a bounded number of reports, and one
    reporting cycle covers every account when each user has one identity. */
module FairScan {
  import opened Wrappers
  import opened TotalsKeys
  import opened TrafficReports
  import opened DeferredReceipts
  import opened TrafficStore
  import opened LedgerInvariant

  /** How many accounts the walk from `cursor` meets before `k`. */
  ghost function Distance(totals: Totals, cursor: Option<Key>, k: Key): nat {
    |Between(totals.Keys, cursor, k)|
  }

  /** A run that does not take `k` brings the cursor exactly its own length closer to `k`. */
  lemma {:induction false} RunConsumes(totals: Totals, cursor: Option<Key>, run: seq<Key>, k: Key)
    requires k in totals && k !in run && run != []
    requires IsRun(totals, Successor(totals.Keys, cursor), run)
    ensures Distance(totals, Some(run[|run| - 1]), k) == Distance(totals, cursor, k) - |run|
  {
    var first, n := Successor(totals.Keys, cursor), |run| - 1;
    var at := if n == 0 then cursor else Some(run[n - 1]);
    RunAt(totals, cursor, run, n);
    StepConsumes(totals, at, run[n], k);
    if n > 0 {
      var init := run[..n];
      RunPrefix(totals, first, run, n);
      assert init[n - 1] == run[n - 1];
      RunConsumes(totals, cursor, init, k);
    }
  }

  lemma StepConsumes(totals: Totals, cursor: Option<Key>, next: Key, k: Key)
    requires k in totals && k != next && next == Successor(totals.Keys, cursor)
    ensures Distance(totals, Some(next), k) == Distance(totals, cursor, k) - 1
  {
    SuccessorStep(totals.Keys, cursor, k);
  }

  /** Every row of a run is the successor of the one before. */
  lemma RunAt(totals: Totals, cursor: Option<Key>, run: seq<Key>, n: nat)
    requires totals != map[] && n < |run| && IsRun(totals, Successor(totals.Keys, cursor), run)
    ensures run[n] in totals && run[n] == Successor(totals.Keys, if n == 0 then cursor else Some(run[n - 1]))
  {
    assert run[n] == RunNext(totals, Successor(totals.Keys, cursor), run[..n]);
  }

  lemma RunPrefix(totals: Totals, first: Key, run: seq<Key>, n: nat)
    requires totals != map[] && IsRun(totals, first, run) && n <= |run|
    ensures IsRun(totals, first, run[..n])
  {
    RunTotalPrefix(totals, first, run, n);
    forall i | 0 <= i < n ensures run[..n][i] == RunNext(totals, first, run[..n][..i]) {
      TakeTake(run, n, i);
    }
  }

  /** The walk does not come back to a key it took without passing every other key. */
  lemma NoEarlyReturn(totals: Totals, cursor: Option<Key>, run: seq<Key>, k: Key)
    requires k in totals && k !in run && run != []
    requires IsRun(totals, Successor(totals.Keys, cursor), run)
    ensures RunNext(totals, Successor(totals.Keys, cursor), run) !in run
  {
    forall i | 0 <= i < |run| ensures run[i] != RunNext(totals, Successor(totals.Keys, cursor), run) {
      NotBackAt(totals, cursor, run, k, i);
    }
  }

  lemma NotBackAt(totals: Totals, cursor: Option<Key>, run: seq<Key>, k: Key, i: nat)
    requires k in totals && k !in run && i < |run|
    requires IsRun(totals, Successor(totals.Keys, cursor), run)
    ensures run[i] != RunNext(totals, Successor(totals.Keys, cursor), run)
  {
    var first, last := Successor(totals.Keys, cursor), run[|run| - 1];
    RunPrefix(totals, first, run, i + 1);
    RunConsumes(totals, cursor, run[..i + 1], k);
    RunConsumes(totals, cursor, run, k);
    SuccessorStep(totals.Keys, Some(last), k);
    assert Distance(totals, Some(run[i]), k) >= Distance(totals, Some(last), k);
  }

  ghost predicate OneIdentityPerUser(totals: Totals) {
    forall a, b :: a in totals && b in totals && a.uid == b.uid ==> a == b
  }

  /** The bytes of all accounts together are an int64. */
  ghost predicate SumFits(totals: Totals) {
    forall run: seq<Key> :: DistinctRun(run) && (forall k :: k in run ==> k in totals) ==>
        RunTotal(totals, run) <= MAX_INT64
  }

  /** With one identity per user and a sum that fits, a complete run either takes `k` or is full. */
  lemma FullUnlessReached(totals: Totals, cursor: Option<Key>, run: seq<Key>, k: Key)
    requires k in totals && OneIdentityPerUser(totals) && SumFits(totals)
    requires IsRun(totals, Successor(totals.Keys, cursor), run) && Stopped(totals, Successor(totals.Keys, cursor), run)
    ensures k in run || |run| == MAX_REPORT_USERS
  {
    if k !in run && |run| != MAX_REPORT_USERS {
      var next := RunNext(totals, Successor(totals.Keys, cursor), run);
      NoEarlyReturn(totals, cursor, run, k);
      assert !SeenUid(run, next.uid);
      RunTotalSnoc(totals, run, next);
      assert DistinctRun(run + [next]);
      SumFitsRun(totals, run + [next]);
    }
  }

  lemma SumFitsRun(totals: Totals, run: seq<Key>)
    requires SumFits(totals) && DistinctRun(run) && forall k :: k in run ==> k in totals
    ensures RunTotal(totals, run) <= MAX_INT64
  {
  }

  // ---------------------------------------------------------------- rounds

  /** The accounts the next new report takes. */
  ghost function NextRun(db: Db): seq<Key>
    requires db.totals != map[]
  {
    var first := Successor(db.totals.Keys, db.cursor);
    match Scan(db.totals, first, first, [])
    case Ok(run) => run
    case Err(_) => []
  }

  /** What happens between one freeze and the next: a report is frozen under `id`, traffic arrives and deferred
      records change, the report is confirmed with `receipt`, and more traffic arrives. */
  datatype Step = Step(id: string, receipt: Receipt, now: int, during: seq<Request>, deferred: Records,
                       later: seq<Request>)

  /** The ledger just before the confirmation. */
  ghost function Busy(frozen: Db, s: Step): Db {
    frozen.(totals := RecordSingly(frozen.totals, s.during).0, deferred := s.deferred)
  }

  ghost predicate Round(db: Db, next: Db, s: Step) {
    && db.pending == None && IsReportId(s.id)
    && PendingDb(db, s.id).Ok? && PendingDb(db, s.id).value.1.Some?
    && (forall q :: q in s.during + s.later ==> GoodRequest(q))
    && var confirmed := ConfirmDb(Busy(PendingDb(db, s.id).value.0, s), s.id, s.receipt, s.now);
       confirmed.Ok? && next == confirmed.value.(totals := RecordSingly(confirmed.value.totals, s.later).0)
  }

  lemma {:induction false} RecordSinglyGrows(totals: Totals, batch: seq<Request>, k: Key)
    requires k in totals && forall q :: q in batch ==> GoodRequest(q)
    ensures k in RecordSingly(totals, batch).0 && AtMost(At(totals, k), At(RecordSingly(totals, batch).0, k))
  {
    if batch != [] {
      var n := |batch| - 1;
      assert batch[n] in batch;
      RecordSinglyGrows(totals, batch[..n], k);
    }
  }

  /** A new report takes a maximal run, names exactly its accounts, and moves the cursor to its end. */
  lemma FreezeIs(db: Db, id: string)
    requires LedgerInv(db) && db.pending == None && IsReportId(id)
    requires PendingDb(db, id).Ok? && PendingDb(db, id).value.1.Some?
    ensures db.totals != map[]
    ensures var run, first := NextRun(db), Successor(db.totals.Keys, db.cursor);
            var (frozen, report) := PendingDb(db, id).value;
            && IsRun(db.totals, first, run) && Stopped(db.totals, first, run)
            && frozen.cursor == Some(run[|run| - 1]) && frozen.totals == db.totals
            && frozen.pending == report && report.value.id == id && LedgerInv(frozen)
            && multiset(report.value.data) == multiset(Usages(db.totals, run))
  {
    var first := Successor(db.totals.Keys, db.cursor);
    PendingOutcome(db, id);
    FrozenRun(db, id, first);
    NewReportIs(db, first, NextRun(db), id);
  }

  lemma FrozenRun(db: Db, id: string, first: Key)
    requires db.pending == None && db.totals != map[] && first == Successor(db.totals.Keys, db.cursor)
    requires PendingDb(db, id).Ok? && PendingDb(db, id).value.1.Some?
    ensures var run, (frozen, report) := NextRun(db), PendingDb(db, id).value;
            && IsRun(db.totals, first, run) && Stopped(db.totals, first, run) && IsReportId(id) && id != ConfirmedId(db)
            && frozen.cursor == Some(run[|run| - 1]) && frozen.totals == db.totals
            && frozen.pending == report == Some(NewReport(db, run, id))
  {
    ScanTakesMaximalRun(db.totals, first, first, []);
    FrozenReport(db, id);
  }

  lemma FrozenReport(db: Db, id: string)
    requires db.pending == None && db.totals != map[]
    requires PendingDb(db, id).Ok? && PendingDb(db, id).value.1.Some?
    ensures var run, first, (frozen, report) :=
              NextRun(db), Successor(db.totals.Keys, db.cursor), PendingDb(db, id).value;
            && Scan(db.totals, first, first, []) == Ok(run) && run != [] && IsReportId(id) && id != ConfirmedId(db)
            && report == Some(NewReport(db, run, id))
            && frozen == db.(cursor := Some(run[|run| - 1]), pending := report)
  {
  }

  lemma NamedAccounts(totals: Totals, run: seq<Key>, data: seq<Usage>)
    requires multiset(data) == multiset(Usages(totals, run))
    ensures forall u :: u in data <==> exists r :: r in run && u == UsageAt(totals, r)
  {
    forall u ensures u in data <==> exists r :: r in run && u == UsageAt(totals, r) {
      assert u in data <==> u in multiset(Usages(totals, run));
      if r :| r in run && u == UsageAt(totals, r) {
        var i :| 0 <= i < |run| && run[i] == r;
        assert Usages(totals, run)[i] == u;
      }
    }
  }

  lemma BusyKeeps(frozen: Db, s: Step)
    requires LedgerInv(frozen) && forall q :: q in s.during ==> GoodRequest(q)
    ensures LedgerInv(Busy(frozen, s))
  {
    RecordSinglyKeeps(frozen, s.during);
    SameLedger(frozen.(totals := RecordSingly(frozen.totals, s.during).0), Busy(frozen, s));
  }

  /** An account a report does not name is still owed after traffic, confirmation and more traffic. */
  lemma StillOwed(frozen: Db, s: Step, k: Key)
    requires LedgerInv(frozen) && frozen.pending.Some? && k in frozen.totals
    requires forall q :: q in s.during + s.later ==> GoodRequest(q)
    requires forall u :: u in frozen.pending.value.data ==> KeyOf(u) != k
    requires ConfirmDb(Busy(frozen, s), frozen.pending.value.id, s.receipt, s.now).Ok?
    ensures var confirmed := ConfirmDb(Busy(frozen, s), frozen.pending.value.id, s.receipt, s.now).value;
            var later := RecordSingly(confirmed.totals, s.later).0;
            k in later && AtMost(At(frozen.totals, k), At(later, k))
  {
    var busy := Busy(frozen, s);
    BusyKeeps(frozen, s);
    RecordSinglyGrows(frozen.totals, s.during, k);
    ConfirmKeeps(busy, s.receipt, s.now);
    var confirmed := ConfirmDb(busy, frozen.pending.value.id, s.receipt, s.now).value;
    AmountInAbsent(frozen.pending.value.data, k);
    assert At(confirmed.totals, k) == At(busy.totals, k);
    assert GoodTotal(k, busy.totals[k]);
    RecordSinglyGrows(confirmed.totals, s.later, k);
  }

  lemma ConfirmedRoundKeeps(frozen: Db, s: Step)
    requires LedgerInv(frozen) && frozen.pending.Some?
    requires forall q :: q in s.during + s.later ==> GoodRequest(q)
    requires ConfirmDb(Busy(frozen, s), frozen.pending.value.id, s.receipt, s.now).Ok?
    ensures var confirmed := ConfirmDb(Busy(frozen, s), frozen.pending.value.id, s.receipt, s.now).value;
            var next := confirmed.(totals := RecordSingly(confirmed.totals, s.later).0);
            LedgerInv(next) && next.pending == None && next.cursor == frozen.cursor
  {
    BusyKeeps(frozen, s);
    ConfirmKeeps(Busy(frozen, s), s.receipt, s.now);
    RecordSinglyKeeps(ConfirmDb(Busy(frozen, s), frozen.pending.value.id, s.receipt, s.now).value, s.later);
  }

  /** A round moves the cursor to the end of its run, reports every account of the run, and leaves every other
      account owed at least what it was owed. */
  lemma RoundIs(db: Db, next: Db, s: Step, k: Key)
    requires LedgerInv(db) && Round(db, next, s) && k in db.totals
    ensures LedgerInv(next) && next.pending == None
    ensures var run, first := NextRun(db), Successor(db.totals.Keys, db.cursor);
            && IsRun(db.totals, first, run) && Stopped(db.totals, first, run)
            && next.cursor == Some(run[|run| - 1])
            && (k !in run ==> k in next.totals && AtMost(At(db.totals, k), At(next.totals, k)))
            && (k in run ==> UsageAt(db.totals, k) in PendingDb(db, s.id).value.1.value.data)
  {
    FreezeIs(db, s.id);
    var frozen, run := PendingDb(db, s.id).value.0, NextRun(db);
    ConfirmedRoundKeeps(frozen, s);
    NamedAccounts(db.totals, run, frozen.pending.value.data);
    if k !in run {
      StillOwed(frozen, s, k);
    }
  }

  /** A sequence of rounds in which no account appears between the cursor and `k`. */
  ghost predicate Rounds(dbs: seq<Db>, steps: seq<Step>, k: Key) {
    && |dbs| == |steps| + 1
    && forall i :: 0 <= i < |steps| ==>
         var s := steps[i];
         && Round(dbs[i], dbs[i + 1], s)
         && Between(dbs[i + 1].totals.Keys, dbs[i + 1].cursor, k) <= Between(dbs[i].totals.Keys, dbs[i + 1].cursor, k)
  }

  /** Round `i` reports account `k`, with the whole total it had when the report was frozen. */
  ghost predicate Reports(dbs: seq<Db>, steps: seq<Step>, i: nat, k: Key)
    requires i < |steps| <= |dbs|
  {
    && PendingDb(dbs[i], steps[i].id).Ok? && PendingDb(dbs[i], steps[i].id).value.1.Some?
    && UsageAt(dbs[i].totals, k) in PendingDb(dbs[i], steps[i].id).value.1.value.data
  }

  /** An owed account at distance d is reported within d + 1 reports. */
  lemma {:induction false} OwedIsReported(dbs: seq<Db>, steps: seq<Step>, k: Key)
    requires Rounds(dbs, steps, k) && LedgerInv(dbs[0]) && k in dbs[0].totals
    requires |steps| > Distance(dbs[0].totals, dbs[0].cursor, k)
    ensures exists i: nat :: i < |steps| && Reports(dbs, steps, i, k)
    decreases |steps|
  {
    var s := steps[0];
    RoundIs(dbs[0], dbs[1], s, k);
    var run := NextRun(dbs[0]);
    if k in run {
      assert Reports(dbs, steps, 0, k);
    } else {
      MissedRound(dbs, steps, k);
      OwedIsReported(dbs[1..], steps[1..], k);
      var i: nat :| i < |steps[1..]| && Reports(dbs[1..], steps[1..], i, k);
      assert Reports(dbs, steps, i + 1, k);
    }
  }

  /** A round that leaves an account out brings the cursor closer by the rows it took. */
  lemma MissedRound(dbs: seq<Db>, steps: seq<Step>, k: Key)
    requires Rounds(dbs, steps, k) && steps != [] && LedgerInv(dbs[0]) && k in dbs[0].totals && k !in NextRun(dbs[0])
    ensures Rounds(dbs[1..], steps[1..], k) && LedgerInv(dbs[1]) && k in dbs[1].totals && NextRun(dbs[0]) != []
    ensures Distance(dbs[1].totals, dbs[1].cursor, k) + |NextRun(dbs[0])| <= Distance(dbs[0].totals, dbs[0].cursor, k)
  {
    var s := steps[0];
    RoundIs(dbs[0], dbs[1], s, k);
    RunConsumes(dbs[0].totals, dbs[0].cursor, NextRun(dbs[0]), k);
    SubsetSize(Between(dbs[1].totals.Keys, dbs[1].cursor, k), Between(dbs[0].totals.Keys, dbs[1].cursor, k));
    RoundsTail(dbs, steps, k);
  }

  lemma RoundsTail(dbs: seq<Db>, steps: seq<Step>, k: Key)
    requires Rounds(dbs, steps, k) && steps != []
    ensures Rounds(dbs[1..], steps[1..], k)
  {
    forall i | 0 <= i < |steps[1..]|
      ensures var s := steps[1..][i];
              && Round(dbs[1..][i], dbs[1..][i + 1], s)
              && Between(dbs[1..][i + 1].totals.Keys, dbs[1..][i + 1].cursor, k) <=
                 Between(dbs[1..][i].totals.Keys, dbs[1..][i + 1].cursor, k)
    {
      assert steps[1..][i] == steps[i + 1] && dbs[1..][i] == dbs[i + 1] && dbs[1..][i + 1] == dbs[i + 2];
    }
  }

  // ---------------------------------------------------------------- an account without an int64 sum

  /** The two counters of an account, each an int64, have no int64 sum. */
  predicate Unreportable(totals: Totals, k: Key) {
    k in totals && totals[k].up + totals[k].down > MAX_INT64
  }

  /** No report names such an account, and it stays one whatever traffic arrives. */
  lemma UnreportableStays(db: Db, next: Db, s: Step, k: Key)
    requires LedgerInv(db) && Round(db, next, s) && Unreportable(db.totals, k)
    ensures k !in NextRun(db) && Unreportable(next.totals, k)
  {
    RoundIs(db, next, s, k);
    assert forall r :: r in NextRun(db) ==> !Bad(db.totals, r);
  }

  /** It stops the whole ledger: while no new account appears before it, at most as many further reports are
      made as there are accounts between the cursor and it. */
  lemma {:induction false} UnreportableStopsTheLedger(dbs: seq<Db>, steps: seq<Step>, k: Key)
    requires Rounds(dbs, steps, k) && LedgerInv(dbs[0]) && Unreportable(dbs[0].totals, k)
    ensures |steps| <= Distance(dbs[0].totals, dbs[0].cursor, k)
    decreases |steps|
  {
    if steps != [] {
      UnreportableStays(dbs[0], dbs[1], steps[0], k);
      MissedRound(dbs, steps, k);
      UnreportableStopsTheLedger(dbs[1..], steps[1..], k);
    }
  }

  /** Once it is next, every freeze fails, whatever arrived meanwhile for it or for accounts behind it. */
  lemma NothingPassesIt(db: Db, id: string, k: Key)
    requires LedgerInv(db) && db.pending == None && Unreportable(db.totals, k)
    requires Successor(db.totals.Keys, db.cursor) == k
    ensures PendingDb(db, id).Err?
  {
  }

  /** Under one identity per user and sums that fit, an account at distance d is reported within
      d / 1000 + 1 reports. */
  lemma {:induction false} OwedIsReportedFast(dbs: seq<Db>, steps: seq<Step>, k: Key)
    requires Rounds(dbs, steps, k) && LedgerInv(dbs[0]) && k in dbs[0].totals
    requires forall db :: db in dbs ==> OneIdentityPerUser(db.totals) && SumFits(db.totals)
    requires |steps| > Distance(dbs[0].totals, dbs[0].cursor, k) / MAX_REPORT_USERS
    ensures exists i: nat :: i < |steps| && Reports(dbs, steps, i, k)
    decreases |steps|
  {
    var s := steps[0];
    RoundIs(dbs[0], dbs[1], s, k);
    var run := NextRun(dbs[0]);
    FullUnlessReached(dbs[0].totals, dbs[0].cursor, run, k);
    if k in run {
      assert Reports(dbs, steps, 0, k);
    } else {
      MissedRound(dbs, steps, k);
      OwedIsReportedFast(dbs[1..], steps[1..], k);
      var i: nat :| i < |steps[1..]| && Reports(dbs[1..], steps[1..], i, k);
      assert Reports(dbs, steps, i + 1, k);
    }
  }

  /** `PendingBatches` is enough: that many reports cover every account owed when the cycle began. */
  lemma CycleCoversEveryAccount(dbs: seq<Db>, steps: seq<Step>, k: Key)
    requires Rounds(dbs, steps, k) && LedgerInv(dbs[0]) && k in dbs[0].totals
    requires forall db :: db in dbs ==> OneIdentityPerUser(db.totals) && SumFits(db.totals)
    requires |steps| == BatchesFor(|dbs[0].totals.Keys|)
    ensures exists i: nat :: i < |steps| && Reports(dbs, steps, i, k)
  {
    var keys := dbs[0].totals.Keys;
    SubsetSize(Between(keys, dbs[0].cursor, k), keys - {k}) by {
      KeyOrder();
    }
    OwedIsReportedFast(dbs, steps, k);
  }

  /** With two identities of one user the count is short: one report is planned, and it names one of them. */
  lemma TwoIdentitiesNeedTwoReports()
    ensures var a, b := Key(1, "a"), Key(1, "b");
            var totals: Totals := map[a := Amount(1, 0), b := Amount(1, 0)];
            && BatchesFor(|totals.Keys|) == 1
            && Scan(totals, a, a, []) == Ok([a])
            && Successor(totals.Keys, None) == a
  {
    var a, b := Key(1, "a"), Key(1, "b");
    var totals: Totals := map[a := Amount(1, 0), b := Amount(1, 0)];
    assert totals.Keys == {a, b};
    KeyOrder();
    assert KeyLess(a, b);
    assert First(totals.Keys) == Some(a);
    assert Above(totals.Keys, a) == {b};
    assert Next(totals.Keys, a) == Some(b);
    assert RunTotal(totals, []) == 0;
    assert [] + [a] == [a];
    assert a in [a] && SeenUid([a], b.uid);
    assert Scan(totals, a, b, [a]) == Ok([a]);
  }
}
