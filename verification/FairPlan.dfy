/** When the number of reports planned for a cycle is enough: exactly when the walk over the accounts, cut where
    a user repeats, needs no more. */
module FairPlan {
  import opened Wrappers
  import opened TotalsKeys
  import opened TrafficReports
  import opened Walks
  import opened TrafficStore
  import opened LedgerInvariant
  import opened FairScan

  // ---------------------------------------------------------------- runs on the walk

  lemma RunIsWalk(totals: Totals, cursor: Option<Key>, run: seq<Key>)
    requires totals != map[] && IsRun(totals, Successor(totals.Keys, cursor), run)
    ensures OnWalk(totals.Keys, cursor, run)
  {
    forall i | 0 <= i < |run| ensures run[i] == Successor(totals.Keys, CursorAfter(cursor, run[..i])) {
      assert run[i] == RunNext(totals, Successor(totals.Keys, cursor), run[..i]);
    }
    FollowsIsWalk(totals.Keys, cursor, run);
  }

  // ---------------------------------------------------------------- quiet cycles

  /** A round without traffic. */
  ghost predicate Quiet(db: Db, next: Db, s: Step) {
    Round(db, next, s) && s.during == [] && s.later == []
  }

  /** A round without traffic takes its whole run out of the totals. */
  lemma QuietRoundIs(db: Db, next: Db, s: Step)
    requires LedgerInv(db) && Quiet(db, next, s)
    ensures LedgerInv(next) && next.pending == None && db.totals != map[]
    ensures var run, first := NextRun(db), Successor(db.totals.Keys, db.cursor);
            && IsRun(db.totals, first, run) && Stopped(db.totals, first, run)
            && next.cursor == Some(run[|run| - 1])
            && next.totals == db.totals - KeySet(run)
  {
    FreezeIs(db, s.id);
    QuietKeeps(db, next, s);
    var run := NextRun(db);
    forall k | k in db.totals
      ensures At(next.totals, k) == if k in run then Amount(0, 0) else At(db.totals, k)
    {
      QuietAmount(db, next, s, k);
    }
    QuietTotals(db.totals, next.totals, run);
  }

  lemma QuietKeeps(db: Db, next: Db, s: Step)
    requires LedgerInv(db) && Quiet(db, next, s)
    ensures LedgerInv(next) && TotalsOk(next.totals) && next.totals.Keys <= db.totals.Keys
    ensures next.pending == None && next.cursor == PendingDb(db, s.id).value.0.cursor
  {
    FreezeIs(db, s.id);
    var frozen := PendingDb(db, s.id).value.0;
    assert Busy(frozen, s).totals == frozen.totals;
    BusyKeeps(frozen, s);
    ConfirmKeeps(Busy(frozen, s), s.receipt, s.now);
  }

  /** What a round without traffic leaves of an account. */
  lemma QuietAmount(db: Db, next: Db, s: Step, k: Key)
    requires LedgerInv(db) && Quiet(db, next, s) && k in db.totals
    ensures At(next.totals, k) == if k in NextRun(db) then Amount(0, 0) else At(db.totals, k)
  {
    FreezeIs(db, s.id);
    var frozen := PendingDb(db, s.id).value.0;
    assert Busy(frozen, s).totals == frozen.totals;
    BusyKeeps(frozen, s);
    ConfirmKeeps(Busy(frozen, s), s.receipt, s.now);
    FrozenAmounts(db, s.id, k);
    NamedAccounts(db.totals, NextRun(db), frozen.pending.value.data);
    RunNamesKey(db.totals, NextRun(db), frozen.pending.value.data, k);
  }

  lemma RunNamesKey(totals: Totals, run: seq<Key>, data: seq<Usage>, k: Key)
    requires forall u :: u in data <==> exists r :: r in run && u == UsageAt(totals, r)
    ensures (exists u :: u in data && KeyOf(u) == k) <==> k in run
  {
    if k in run { assert KeyOf(UsageAt(totals, k)) == k; }
  }

  lemma QuietTotals(before: Totals, after: Totals, run: seq<Key>)
    requires TotalsOk(before) && TotalsOk(after) && after.Keys <= before.Keys
    requires forall k :: k in before ==> At(after, k) == if k in run then Amount(0, 0) else At(before, k)
    ensures after == before - KeySet(run)
  {
    forall k | k in before ensures k in after <==> k !in run {
      assert GoodTotal(k, before[k]);
      if k in after { assert GoodTotal(k, after[k]); }
    }
    assert after.Keys == before.Keys - KeySet(run);
  }

  /** Where the walk goes on after a run that has not taken everything. */
  lemma NextOnWalk(totals: Totals, cursor: Option<Key>, run: seq<Key>)
    requires totals != map[] && run != [] && |run| < |totals.Keys|
    requires IsRun(totals, Successor(totals.Keys, cursor), run)
    ensures OnWalk(totals.Keys, cursor, run)
    ensures var next := RunNext(totals, Successor(totals.Keys, cursor), run);
            next in totals && next !in run && |run| < |Walk(totals.Keys, cursor)| &&
              Walk(totals.Keys, cursor)[|run|] == next
  {
    var keys, last := totals.Keys, Some(run[|run| - 1]);
    var rest := keys - KeySet(run);
    RunIsWalk(totals, cursor, run);
    WalkIs(keys, cursor);
    WalkIs(rest, last);
    assert rest != {};
    var k :| k in rest;
    NoEarlyReturn(totals, cursor, run, k);
    SuccessorWithout(keys, KeySet(run), last);
    WalkStep(rest, last);
  }

  /** With sums that fit, the run is as long as the users on the walk allow. */
  lemma RunTakes(totals: Totals, cursor: Option<Key>, run: seq<Key>)
    requires totals != map[] && SumFits(totals)
    requires IsRun(totals, Successor(totals.Keys, cursor), run) && Stopped(totals, Successor(totals.Keys, cursor), run)
    ensures |run| == Take(Walk(totals.Keys, cursor))
    ensures Walk(totals.Keys, cursor)[|run|..] == Walk(totals.Keys - KeySet(run), Some(run[|run| - 1]))
  {
    RunIsWalk(totals, cursor, run);
    WalkIs(totals.Keys, cursor);
    if |run| < |totals.Keys| && |run| < MAX_REPORT_USERS {
      NextOnWalk(totals, cursor, run);
      FullStop(totals, Successor(totals.Keys, cursor), run);
    }
    RunFills(Walk(totals.Keys, cursor), run, Walk(totals.Keys - KeySet(run), Some(run[|run| - 1])));
  }

  lemma RunFills(walk: seq<Key>, run: seq<Key>, rest: seq<Key>)
    requires walk == run + rest && run != [] && DistinctRun(run) && |run| <= MAX_REPORT_USERS
    requires |run| < |walk| && |run| < MAX_REPORT_USERS ==> SeenUid(run, walk[|run|].uid)
    ensures |run| == Take(walk) && walk[|run|..] == rest
  {
    assert walk[..|run|] == run;
    TakeIs(walk, |run|);
  }

  /** With sums that fit, a run that stops short of a full report stops at a user it has. */
  lemma FullStop(totals: Totals, first: Key, run: seq<Key>)
    requires totals != map[] && SumFits(totals) && IsRun(totals, first, run) && Stopped(totals, first, run)
    requires |run| < MAX_REPORT_USERS && RunNext(totals, first, run) in totals
    ensures SeenUid(run, RunNext(totals, first, run).uid)
  {
    var k := RunNext(totals, first, run);
    if !SeenUid(run, k.uid) {
      RunTotalSnoc(totals, run, k);
      assert DistinctRun(run + [k]);
      SumFitsRun(totals, run + [k]);
    }
  }

  lemma SumFitsFewer(totals: Totals, fewer: Totals)
    requires SumFits(totals) && fewer.Keys <= totals.Keys && forall k :: k in fewer ==> fewer[k] == totals[k]
    ensures SumFits(fewer)
  {
    forall run: seq<Key> | DistinctRun(run) && (forall k :: k in run ==> k in fewer)
      ensures RunTotal(fewer, run) <= MAX_INT64
    {
      assert Usages(fewer, run) == Usages(totals, run);
      SumFitsRun(totals, run);
    }
  }

  /** Rounds without traffic, one after the other. */
  ghost predicate QuietRounds(dbs: seq<Db>, steps: seq<Step>) {
    |dbs| == |steps| + 1 && forall i :: 0 <= i < |steps| ==> Quiet(dbs[i], dbs[i + 1], steps[i])
  }

  ghost function Ahead(db: Db): seq<Key> { Walk(db.totals.Keys, db.cursor) }

  lemma EmptyWalk(db: Db)
    ensures db.totals == map[] <==> Ahead(db) == []
    ensures Needed(Ahead(db)) == 0 <==> Ahead(db) == []
  {
    WalkIs(db.totals.Keys, db.cursor);
    assert db.totals == map[] <==> db.totals.Keys == {};
  }

  lemma QuietStep(db: Db, next: Db, s: Step)
    requires LedgerInv(db) && Quiet(db, next, s) && SumFits(db.totals)
    ensures LedgerInv(next) && SumFits(next.totals) && Needed(Ahead(db)) == 1 + Needed(Ahead(next))
  {
    QuietRoundIs(db, next, s);
    var run := NextRun(db);
    RunTakes(db.totals, db.cursor, run);
    SumFitsFewer(db.totals, next.totals);
    assert next.totals.Keys == db.totals.Keys - KeySet(run);
    EmptyWalk(db);
  }

  /** Quiet rounds empty the ledger exactly when there are as many of them as the walk needs. */
  lemma {:induction false} QuietCycle(dbs: seq<Db>, steps: seq<Step>)
    requires QuietRounds(dbs, steps) && LedgerInv(dbs[0]) && SumFits(dbs[0].totals)
    ensures |steps| <= Needed(Ahead(dbs[0]))
    ensures dbs[|steps|].totals == map[] <==> |steps| == Needed(Ahead(dbs[0]))
    decreases |steps|
  {
    EmptyWalk(dbs[0]);
    if steps != [] {
      QuietTail(dbs, steps);
      QuietStep(dbs[0], dbs[1], steps[0]);
      QuietCycle(dbs[1..], steps[1..]);
    }
  }

  lemma QuietTail(dbs: seq<Db>, steps: seq<Step>)
    requires QuietRounds(dbs, steps) && steps != []
    ensures Quiet(dbs[0], dbs[1], steps[0]) && QuietRounds(dbs[1..], steps[1..])
    ensures dbs[1..][0] == dbs[1] && dbs[1..][|steps[1..]|] == dbs[|steps|]
  {
  }

  // ---------------------------------------------------------------- is the plan enough

  /** The sending loop ends when nothing is owed or the planned number of reports has been sent. In a quiet cycle
      whose sums fit it then has reported everything exactly when the stretches of the walk take no more reports
      than were planned. */
  lemma PlanIsEnough(dbs: seq<Db>, steps: seq<Step>)
    requires QuietRounds(dbs, steps) && LedgerInv(dbs[0]) && SumFits(dbs[0].totals)
    requires |steps| <= BatchesFor(|dbs[0].totals.Keys|)
    requires dbs[|steps|].totals == map[] || |steps| == BatchesFor(|dbs[0].totals.Keys|)
    ensures dbs[|steps|].totals == map[] <==> Planned(Ahead(dbs[0])) <= BatchesFor(|dbs[0].totals.Keys|)
  {
    QuietCycle(dbs, steps);
    WalkIsCircular(dbs[0].totals.Keys, dbs[0].cursor);
    var p :| Circular(Ahead(dbs[0]), p);
    NeededIsPlanned(Ahead(dbs[0]), p);
  }

  /** With one identity a user the walk is one stretch, and takes exactly the planned number. */
  lemma OneIdentityIsEnough(totals: Totals, cursor: Option<Key>)
    requires OneIdentityPerUser(totals) && totals != map[]
    ensures Planned(Walk(totals.Keys, cursor)) == BatchesFor(|totals.Keys|)
  {
    var walk := Walk(totals.Keys, cursor);
    WalkIs(totals.Keys, cursor);
    WalkIsDistinct(totals.Keys, cursor);
    forall i, j | 0 <= i < j < |walk| ensures walk[i].uid != walk[j].uid {
      assert walk[i] in walk && walk[j] in walk;
    }
    OneStretch(walk);
  }

  /** Each account has one amount, so leaving accounts out leaves amounts out. */
  lemma RunTotalWithout(totals: Totals, run: seq<Key>, i: nat)
    requires i < |run|
    ensures RunTotal(totals, run) ==
            RunTotal(totals, run[..i] + run[i + 1..]) + At(totals, run[i]).up + At(totals, run[i]).down
  {
    var all, head, tail := Usages(totals, run), Usages(totals, run[..i]), Usages(totals, run[i + 1..]);
    var mine := [UsageAt(totals, run[i])];
    assert all == head + mine + tail;
    assert Usages(totals, run[..i] + run[i + 1..]) == head + tail;
    TotalConcat(head + mine, tail);
    TotalConcat(head, mine);
    TotalConcat(head, tail);
    assert mine[..0] == [];
  }

  lemma {:induction false} RunTotalWithin(totals: Totals, part: seq<Key>, run: seq<Key>)
    requires TotalsOk(totals) && (forall k :: k in run ==> k in totals) && (forall k :: k in part ==> k in run)
    requires forall i, j :: 0 <= i < j < |part| ==> part[i] != part[j]
    ensures 0 <= RunTotal(totals, part) <= RunTotal(totals, run)
    decreases |run|
  {
    if part == [] {
      assert forall u :: u in Usages(totals, run) ==> u.up >= 0 && u.down >= 0 by {
        forall u | u in Usages(totals, run) ensures u.up >= 0 && u.down >= 0 {
          var i :| 0 <= i < |run| && u == UsageAt(totals, run[i]);
          assert GoodTotal(run[i], totals[run[i]]);
        }
      }
      TotalGrows(Usages(totals, run), 0);
      assert Usages(totals, run)[..0] == [];
    } else {
      var n := |part| - 1;
      var k, init := part[n], part[..n];
      assert k in part;
      var i :| 0 <= i < |run| && run[i] == k;
      forall x | x in init ensures x in run[..i] + run[i + 1..] {
        assert x in part;
        var j :| 0 <= j < |run| && run[j] == x;
        assert if j < i then run[..i][j] == x else run[i + 1..][j - i - 1] == x;
      }
      RunTotalWithin(totals, init, run[..i] + run[i + 1..]);
      RunTotalWithout(totals, run, i);
      RunTotalSnoc(totals, init, k);
      assert part == init + [k];
      assert GoodTotal(k, totals[k]);
    }
  }

  /** One report holds everything. */
  ghost predicate NamesAll(db: Db, id: string) {
    && PendingDb(db, id).Ok? && PendingDb(db, id).value.1.Some?
    && forall k :: k in db.totals ==> UsageAt(db.totals, k) in PendingDb(db, id).value.1.value.data
  }

  /** Up to a thousand accounts one report is planned. It names them all if and only if no user has two
      identities and all amounts together are an int64. */
  lemma OneReportIsEnough(db: Db, id: string)
    requires LedgerInv(db) && db.pending == None && IsReportId(id) && id != ConfirmedId(db)
    requires 0 < |db.totals.Keys| <= MAX_REPORT_USERS
    ensures BatchesFor(|db.totals.Keys|) == 1
    ensures NamesAll(db, id) <==> OneIdentityPerUser(db.totals) && SumFits(db.totals)
  {
    assert db.totals != map[];
    if NamesAll(db, id) {
      NamedByOne(db, id);
    } else if OneIdentityPerUser(db.totals) && SumFits(db.totals) {
      OneNamesAll(db, id);
      assert false;
    }
  }

  lemma NamedByOne(db: Db, id: string)
    requires LedgerInv(db) && db.pending == None && IsReportId(id) && NamesAll(db, id)
    ensures OneIdentityPerUser(db.totals) && SumFits(db.totals)
  {
    FreezeIs(db, id);
    var run := NextRun(db);
    forall k | k in db.totals ensures k in run {
      NamedInRun(db.totals, run, PendingDb(db, id).value.1.value.data, k);
    }
    AllInOneRun(db.totals, run);
  }

  lemma NamedInRun(totals: Totals, run: seq<Key>, data: seq<Usage>, k: Key)
    requires multiset(data) == multiset(Usages(totals, run)) && UsageAt(totals, k) in data
    ensures k in run
  {
    NamedAccounts(totals, run, data);
    var r :| r in run && UsageAt(totals, k) == UsageAt(totals, r);
  }

  /** A run with all accounts in it is the sum of all. */
  lemma AllInOneRun(totals: Totals, run: seq<Key>)
    requires TotalsOk(totals) && DistinctRun(run) && RunTotal(totals, run) <= MAX_INT64
    requires forall k :: k in run <==> k in totals
    ensures OneIdentityPerUser(totals) && SumFits(totals)
  {
    forall part: seq<Key> | DistinctRun(part) && (forall k :: k in part ==> k in totals)
      ensures RunTotal(totals, part) <= MAX_INT64
    {
      RunTotalWithin(totals, part, run);
    }
  }

  lemma OneNamesAll(db: Db, id: string)
    requires LedgerInv(db) && db.pending == None && IsReportId(id) && id != ConfirmedId(db) && db.totals != map[]
    requires |db.totals.Keys| <= MAX_REPORT_USERS && OneIdentityPerUser(db.totals) && SumFits(db.totals)
    ensures NamesAll(db, id)
  {
    forall k | k in db.totals ensures db.totals[k].up + db.totals[k].down <= MAX_INT64 {
      SumFitsRun(db.totals, [k]);
      RunTotalSnoc(db.totals, [], k);
      assert [] + [k] == [k] && RunTotal(db.totals, []) == 0;
    }
    PendingKeeps(db, id);
    FreezeIs(db, id);
    var run := NextRun(db);
    NamedAccounts(db.totals, run, PendingDb(db, id).value.1.value.data);
    forall k | k in db.totals ensures k in run {
      FullUnlessReached(db.totals, db.cursor, run, k);
      if k !in run { FullRun(db.totals, run, k); }
    }
  }

  lemma FullRun(totals: Totals, run: seq<Key>, k: Key)
    requires DistinctRun(run) && (forall r :: r in run ==> r in totals) && k in totals
    requires |run| >= |totals.Keys|
    ensures k in run
  {
    DistinctCount(run);
    SubsetSize(KeySet(run), totals.Keys);
    SubsetFull(KeySet(run), totals.Keys);
    assert k in KeySet(run);
  }
}
