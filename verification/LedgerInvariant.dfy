/** What every transaction of the traffic ledger keeps, and what each one does to the amounts. */
module LedgerInvariant {
  import opened Wrappers
  import opened TotalsKeys
  import opened TrafficReports
  import opened DeferredReceipts
  import opened DeferredBook
  import opened TrafficStore

  ghost predicate GoodTotal(k: Key, a: Amount) {
    && k.uid > 0 && |k.identity| <= 40
    && 0 <= a.up <= MAX_INT64 && 0 <= a.down <= MAX_INT64
    && (a.up != 0 || a.down != 0)
  }

  ghost predicate TotalsOk(totals: Totals) {
    forall k :: k in totals ==> GoodTotal(k, totals[k])
  }

  /** The totals hold at least what each row of a report takes. */
  ghost predicate Covered(data: seq<Usage>, totals: Totals) {
    forall u :: u in data ==> AtMost(Amount(u.up, u.down), At(totals, KeyOf(u)))
  }

  /** Totals are positive int64 counters; a frozen report is valid, follows the confirmed one and is
      covered by the totals. */
  ghost predicate LedgerInv(db: Db) {
    && TotalsOk(db.totals)
    && (ConfirmedId(db) == "" || IsReportId(ConfirmedId(db)))
    && (db.pending.Some? ==>
          && ValidReport(db.pending.value)
          && db.pending.value.previous == ConfirmedId(db)
          && Covered(db.pending.value.data, db.totals))
  }

  /** What a report says about one account. */
  ghost function AmountIn(data: seq<Usage>, k: Key): Amount {
    if data == [] then Amount(0, 0)
    else
      var last := data[|data| - 1];
      var rest := AmountIn(data[..|data| - 1], k);
      if KeyOf(last) == k then Plus(rest, Amount(last.up, last.down)) else rest
  }

  // ---------------------------------------------------------------- recording

  lemma RecordOneKeeps(db: Db, q: Request)
    requires LedgerInv(db)
    requires GoodRequest(q)
    ensures LedgerInv(db.(totals := RecordOne(db.totals, q).0))
  {
    var more := RecordOne(db.totals, q).0;
    assert forall k :: AtMost(At(db.totals, k), At(more, k));
  }

  // ---------------------------------------------------------------- subtraction

  lemma {:induction false} AmountInAbsent(data: seq<Usage>, k: Key)
    requires forall u :: u in data ==> KeyOf(u) != k
    ensures AmountIn(data, k) == Amount(0, 0)
  {
    if data != [] {
      AmountInAbsent(data[..|data| - 1], k);
    }
  }

  /** Subtracting a report succeeds exactly when the totals cover it; each account then loses exactly
      what the report says, and accounts at zero are gone. */
  lemma {:induction false} SubtractExact(totals: Totals, data: seq<Usage>)
    requires TotalsOk(totals) && ValidRows(data)
    ensures Subtract(totals, data).Some? <==> Covered(data, totals)
    ensures Subtract(totals, data).Some? ==>
              var rest := Subtract(totals, data).value;
              && TotalsOk(rest) && rest.Keys <= totals.Keys
              && forall k :: At(rest, k) == Minus(At(totals, k), AmountIn(data, k))
  {
    if data != [] {
      var n := |data| - 1;
      var init, u := data[..n], data[n];
      assert data == init + [u];
      ValidRowsPrefix(data, n);
      SubtractExact(totals, init);
      forall v | v in init ensures KeyOf(v) != KeyOf(u) {
      }
      AmountInAbsent(init, KeyOf(u));
      assert u in data;
      if Subtract(totals, init).Some? {
        SubtractOneExact(Subtract(totals, init).value, u);
      }
    }
  }

  lemma SubtractOneExact(totals: Totals, u: Usage)
    requires TotalsOk(totals) && ValidUsage(u)
    ensures SubtractOne(totals, u).Some? <==> AtMost(Amount(u.up, u.down), At(totals, KeyOf(u)))
    ensures SubtractOne(totals, u).Some? ==>
              var rest := SubtractOne(totals, u).value;
              && TotalsOk(rest) && rest.Keys <= totals.Keys
              && forall k ::
                   At(rest, k) == if k == KeyOf(u) then Minus(At(totals, k), Amount(u.up, u.down)) else At(totals, k)
  {
  }

  // ---------------------------------------------------------------- sorting

  lemma {:induction false} InsertIs(u: Usage, sorted: seq<Usage>)
    requires Increasing(sorted) && forall v :: v in sorted ==> v.uid != u.uid
    ensures Increasing(InsertByUid(u, sorted))
    ensures multiset(InsertByUid(u, sorted)) == multiset(sorted) + multiset{u}
  {
    if sorted != [] && u.uid >= sorted[0].uid {
      var tail := sorted[1..];
      assert sorted == [sorted[0]] + tail;
      InsertIs(u, tail);
      IncreasingCons(sorted[0], InsertByUid(u, tail), tail, u);
    } else {
      IncreasingFront(u, sorted);
    }
  }

  lemma IncreasingFront(u: Usage, sorted: seq<Usage>)
    requires Increasing(sorted) && (sorted == [] || u.uid < sorted[0].uid)
    ensures Increasing([u] + sorted)
  {
  }

  lemma IncreasingCons(head: Usage, rest: seq<Usage>, tail: seq<Usage>, u: Usage)
    requires Increasing(rest) && multiset(rest) == multiset(tail) + multiset{u}
    requires head.uid < u.uid && forall v :: v in tail ==> head.uid < v.uid
    ensures Increasing([head] + rest)
  {
    forall v | v in rest ensures head.uid < v.uid {
      assert v in multiset(rest);
    }
  }

  ghost predicate DistinctUids(data: seq<Usage>) {
    forall i, j :: 0 <= i < j < |data| ==> data[i].uid != data[j].uid
  }

  lemma {:induction false} SortIs(data: seq<Usage>)
    requires DistinctUids(data)
    ensures Increasing(SortByUid(data))
    ensures multiset(SortByUid(data)) == multiset(data)
  {
    if data != [] {
      var n := |data| - 1;
      var init := data[..n];
      SortIs(init);
      Unsnoc(data);
      forall v | v in SortByUid(init) ensures v.uid != data[n].uid {
        assert v in multiset(init);
      }
      InsertIs(data[n], SortByUid(init));
    }
  }

  lemma {:induction false} TotalConcat(a: seq<Usage>, b: seq<Usage>)
    ensures Total(a + b) == Total(a) + Total(b)
  {
    if b == [] {
      assert a + b == a;
    } else {
      TotalConcat(a, b[..|b| - 1]);
      InitConcat(a, b);
    }
  }

  lemma {:induction false} TotalPermutation(a: seq<Usage>, b: seq<Usage>)
    requires multiset(a) == multiset(b)
    ensures Total(a) == Total(b) && |a| == |b|
    decreases |a|
  {
    assert |multiset(a)| == |a| && |multiset(b)| == |b|;
    if a != [] {
      var n := |a| - 1;
      assert a[n] in multiset(b);
      var i :| 0 <= i < |b| && b[i] == a[n];
      var b' := b[..i] + b[i + 1..];
      assert b == b[..i] + [b[i]] + b[i + 1..];
      Unsnoc(a);
      assert multiset(a) == multiset(a[..n]) + multiset{a[n]};
      assert multiset(b) == multiset(b') + multiset{b[i]};
      assert multiset(a[..n]) == multiset(a) - multiset{a[n]};
      assert multiset(b') == multiset(b) - multiset{b[i]};
      TotalPermutation(a[..n], b');
      TotalConcat(b[..i], b[i + 1..]);
      TotalConcat(b[..i] + [b[i]], b[i + 1..]);
      TotalConcat(b[..i], [b[i]]);
    }
  }

  // ---------------------------------------------------------------- the scan

  ghost predicate DistinctRun(run: seq<Key>) {
    forall i, j :: 0 <= i < j < |run| ==> run[i].uid != run[j].uid
  }

  /** The key the scan looks at after `run`. */
  ghost function RunNext(totals: Totals, first: Key, run: seq<Key>): Key
    requires totals != map[]
  {
    if run == [] then first else Successor(totals.Keys, Some(run[|run| - 1]))
  }

  /** Consecutive keys of the circle from `first`, no user twice, that fit one report. */
  ghost predicate IsRun(totals: Totals, first: Key, run: seq<Key>)
    requires totals != map[]
  {
    && (forall i :: 0 <= i < |run| ==>
          run[i] in totals && !Bad(totals, run[i]) && run[i] == RunNext(totals, first, run[..i]))
    && DistinctRun(run)
    && RunTotal(totals, run) <= MAX_INT64
    && |run| <= MAX_REPORT_USERS
  }

  /** Nothing more fits. */
  ghost predicate Stopped(totals: Totals, first: Key, run: seq<Key>)
    requires totals != map[]
  {
    var next := RunNext(totals, first, run);
    && run != []
    && (|| |run| == MAX_REPORT_USERS
        || SeenUid(run, next.uid)
        || RunTotal(totals, run) + At(totals, next).up + At(totals, next).down > MAX_INT64)
  }

  lemma RunTotalSnoc(totals: Totals, run: seq<Key>, k: Key)
    ensures RunTotal(totals, run + [k]) == RunTotal(totals, run) + At(totals, k).up + At(totals, k).down
  {
    assert Usages(totals, run + [k]) == Usages(totals, run) + [UsageAt(totals, k)];
    assert (Usages(totals, run) + [UsageAt(totals, k)])[..|run|] == Usages(totals, run);
  }

  lemma RunSnoc(totals: Totals, first: Key, run: seq<Key>, key: Key)
    requires totals != map[] && IsRun(totals, first, run) && |run| < MAX_REPORT_USERS
    requires key in totals && key == RunNext(totals, first, run) && !Bad(totals, key) && !SeenUid(run, key.uid)
    requires RunTotal(totals, run) + At(totals, key).up + At(totals, key).down <= MAX_INT64
    ensures IsRun(totals, first, run + [key])
  {
    var more := run + [key];
    RunTotalSnoc(totals, run, key);
    forall i | 0 <= i < |more| ensures more[i] == RunNext(totals, first, more[..i]) {
      assert more[..i] == run[..i];
      TakeAll(run);
    }
  }

  /** The next row does not go into the report. */
  ghost predicate Ends(totals: Totals, key: Key, run: seq<Key>) {
    SeenUid(run, key.uid) || RunTotal(totals, run) > MAX_INT64 - At(totals, key).up - At(totals, key).down
  }

  /** A scan that does not take its next row has a complete run. */
  lemma ScanStops(totals: Totals, first: Key, key: Key, run: seq<Key>)
    requires key in totals && key == RunNext(totals, first, run) && !Bad(totals, key) && Ends(totals, key, run)
    ensures Scan(totals, first, key, run) == Ok(run) && Stopped(totals, first, run)
  {
    assert run == [] ==> RunTotal(totals, run) == 0;
  }

  lemma FewerLeft(keys: set<Key>, run: seq<Key>, key: Key)
    requires key in keys && key !in run
    ensures keys - (set k | k in run + [key]) < keys - (set k | k in run)
  {
    assert key in run + [key];
    assert key in keys - (set k | k in run) && key !in keys - (set k | k in run + [key]);
  }

  /** What a scan does that takes its next row. */
  lemma ScanStep(totals: Totals, first: Key, key: Key, run: seq<Key>)
    requires key in totals && !Bad(totals, key) && !Ends(totals, key, run)
    ensures var next, more := Successor(totals.Keys, Some(key)), run + [key];
            && next in totals
            && Scan(totals, first, key, run) ==
               if |more| == MAX_REPORT_USERS || next == first then Ok(more) else Scan(totals, first, next, more)
  {
  }

  /** It goes on from there with a longer run. */
  lemma ScanTakes(totals: Totals, first: Key, key: Key, run: seq<Key>)
    requires first in totals && IsRun(totals, first, run) && |run| < MAX_REPORT_USERS
    requires key in totals && key == RunNext(totals, first, run) && !Bad(totals, key) && !Ends(totals, key, run)
    ensures var next, more := Successor(totals.Keys, Some(key)), run + [key];
            && IsRun(totals, first, more) && next == RunNext(totals, first, more)
            && totals.Keys - (set k | k in more) < totals.Keys - (set k | k in run)
  {
    assert key !in run;
    RunSnoc(totals, first, run, key);
    FewerLeft(totals.Keys, run, key);
  }

  /** A scan that succeeds takes a maximal run; it fails only on a row it refuses to read. */
  lemma {:induction false} ScanTakesMaximalRun(totals: Totals, first: Key, key: Key, run: seq<Key>)
    requires first in totals && IsRun(totals, first, run) && |run| < MAX_REPORT_USERS
    requires key == RunNext(totals, first, run) && key in totals
    requires run == [] || run[0] == first
    ensures var r := Scan(totals, first, key, run);
            && (r.Err? ==> exists k :: k in totals && Bad(totals, k))
            && (r.Ok? ==> IsRun(totals, first, r.value) && Stopped(totals, first, r.value))
    decreases totals.Keys - (set k | k in run)
  {
    if !Bad(totals, key) {
      if Ends(totals, key, run) {
        ScanStops(totals, first, key, run);
      } else {
        var next, more := Successor(totals.Keys, Some(key)), run + [key];
        ScanStep(totals, first, key, run);
        ScanTakes(totals, first, key, run);
        assert more[0] == first;
        if |more| == MAX_REPORT_USERS || next == first {
          assert next == first ==> first in more && SeenUid(more, next.uid);
        } else {
          ScanTakesMaximalRun(totals, first, next, more);
        }
      }
    }
  }

  lemma {:induction false} UsagesIn(totals: Totals, first: Key, run: seq<Key>)
    requires TotalsOk(totals) && totals != map[] && IsRun(totals, first, run)
    ensures forall u :: u in Usages(totals, run) ==> ValidUsage(u) && AtMost(Amount(u.up, u.down), At(totals, KeyOf(u)))
    ensures DistinctUids(Usages(totals, run))
  {
    forall u | u in Usages(totals, run) ensures ValidUsage(u) && Amount(u.up, u.down) == At(totals, KeyOf(u)) {
      var i :| 0 <= i < |run| && u == UsageAt(totals, run[i]);
      assert GoodTotal(run[i], totals[run[i]]);
    }
  }

  /** A report frozen from a maximal run is valid, covered, and lists exactly the run's accounts. */
  lemma NewReportIs(db: Db, first: Key, run: seq<Key>, id: string)
    requires LedgerInv(db) && db.totals != map[] && IsRun(db.totals, first, run) && run != []
    requires IsReportId(id) && id != ConfirmedId(db)
    ensures ValidReport(NewReport(db, run, id))
    ensures Covered(NewReport(db, run, id).data, db.totals)
    ensures multiset(NewReport(db, run, id).data) == multiset(Usages(db.totals, run))
    ensures forall u :: u in NewReport(db, run, id).data ==> Carries(u, db.totals)
  {
    var data := Usages(db.totals, run);
    UsagesIn(db.totals, first, run);
    SortIs(data);
    TotalPermutation(SortByUid(data), data);
    forall u | u in SortByUid(data) ensures u in data {
      assert u in multiset(data);
    }
    forall u | u in data ensures Carries(u, db.totals) {
      var i :| 0 <= i < |data| && data[i] == u;
      assert run[i] in db.totals;
    }
  }

  /** A row of a report carries both counters of its account as the totals hold them. */
  predicate Carries(u: Usage, totals: Totals) {
    var k := Key(u.uid, u.identity);
    k in totals && u.up == totals[k].up && u.down == totals[k].down
  }

  /** With readable totals and a new random id, freezing a report always succeeds and keeps the invariant. */
  lemma PendingKeeps(db: Db, id: string)
    requires LedgerInv(db) && IsReportId(id) && id != ConfirmedId(db)
    requires forall k :: k in db.totals ==> db.totals[k].up + db.totals[k].down <= MAX_INT64
    ensures PendingDb(db, id).Ok?
    ensures var (next, report) := PendingDb(db, id).value;
            && LedgerInv(next) && next.pending == report
            && (report == None <==> db.pending == None && db.totals == map[])
  {
    PendingOutcome(db, id);
    if db.pending == None && db.totals != map[] {
      var first := Successor(db.totals.Keys, db.cursor);
      ScanTakesMaximalRun(db.totals, first, first, []);
      assert forall k :: k in db.totals ==> GoodTotal(k, db.totals[k]);
    }
  }

  /** Whatever the totals hold, a freeze that succeeds keeps the invariant. */
  lemma PendingOutcome(db: Db, id: string)
    requires LedgerInv(db) && IsReportId(id)
    ensures PendingDb(db, id).Ok? ==>
              && LedgerInv(PendingDb(db, id).value.0)
              && PendingDb(db, id).value.0.pending == PendingDb(db, id).value.1
              && PendingDb(db, id).value.0.(pending := db.pending, cursor := db.cursor) == db
    ensures PendingDb(db, id).Err? ==>
              db.pending == None && (id == ConfirmedId(db) || exists k :: k in db.totals && Bad(db.totals, k))
  {
    if db.pending == None && db.totals != map[] {
      var first := Successor(db.totals.Keys, db.cursor);
      ScanTakesMaximalRun(db.totals, first, first, []);
      var r := Scan(db.totals, first, first, []);
      if r.Ok? && id != ConfirmedId(db) {
        NewReportIs(db, first, r.value, id);
      }
    }
  }

  // ---------------------------------------------------------------- when a freeze fails

  /** The scan reaches a row it refuses to read after the run `ext`. */
  ghost predicate Blocks(totals: Totals, first: Key, ext: seq<Key>)
    requires totals != map[]
  {
    && IsRun(totals, first, ext) && |ext| < MAX_REPORT_USERS
    && Bad(totals, RunNext(totals, first, ext))
    && (ext == [] || RunNext(totals, first, ext) != first)
  }

  lemma {:induction false} FailedScanIsBlocked(totals: Totals, first: Key, key: Key, run: seq<Key>)
    requires first in totals && IsRun(totals, first, run) && |run| < MAX_REPORT_USERS
    requires key == RunNext(totals, first, run) && (run == [] || key != first)
    requires key in totals && Scan(totals, first, key, run).Err?
    ensures exists ext :: Blocks(totals, first, ext)
    decreases totals.Keys - (set k | k in run)
  {
    if Bad(totals, key) {
      assert Blocks(totals, first, run);
    } else {
      if Ends(totals, key, run) { ScanStops(totals, first, key, run); }
      ScanStep(totals, first, key, run);
      ScanTakes(totals, first, key, run);
      FailedScanIsBlocked(totals, first, Successor(totals.Keys, Some(key)), run + [key]);
    }
  }

  lemma RunTotalPrefix(totals: Totals, first: Key, run: seq<Key>, n: nat)
    requires totals != map[] && IsRun(totals, first, run) && n <= |run|
    ensures RunTotal(totals, run[..n]) <= RunTotal(totals, run)
  {
    assert Usages(totals, run)[..n] == Usages(totals, run[..n]);
    TotalGrows(Usages(totals, run), n);
  }

  /** The walk of a scan up to the row that blocks it does not come round. */
  lemma BlockedStep(totals: Totals, first: Key, ext: seq<Key>, n: nat)
    requires first in totals && Blocks(totals, first, ext) && n < |ext|
    ensures RunNext(totals, first, ext[..n + 1]) != first
  {
    if n + 1 < |ext| {
      assert ext[0] == RunNext(totals, first, ext[..0]) && ext[0].uid != ext[n + 1].uid;
    } else {
      assert ext[..n + 1] == ext;
    }
  }

  lemma NotSeenBefore(run: seq<Key>, n: nat)
    requires DistinctRun(run) && n < |run|
    ensures !SeenUid(run[..n], run[n].uid)
  {
  }

  /** And it takes every row on the way. */
  lemma BlockedFits(totals: Totals, first: Key, ext: seq<Key>, n: nat)
    requires first in totals && Blocks(totals, first, ext) && n < |ext|
    ensures ext[n] in totals && ext[n] == RunNext(totals, first, ext[..n]) && !Bad(totals, ext[n])
    ensures !Ends(totals, ext[n], ext[..n])
  {
    TakeSnoc(ext, n);
    RunTotalSnoc(totals, ext[..n], ext[n]);
    RunTotalPrefix(totals, first, ext, n + 1);
    NotSeenBefore(ext, n);
  }

  lemma BlockedScanStep(totals: Totals, first: Key, run: seq<Key>, key: Key, more: seq<Key>)
    requires totals != map[] && more == run + [key]
    requires |more| != MAX_REPORT_USERS && RunNext(totals, first, more) != first
    requires key in totals && !Bad(totals, key) && !Ends(totals, key, run)
    requires RunNext(totals, first, more) in totals && Scan(totals, first, RunNext(totals, first, more), more).Err?
    ensures Scan(totals, first, key, run).Err?
  {
    ScanStep(totals, first, key, run);
  }

  lemma {:induction false} BlockedScanFails(totals: Totals, first: Key, ext: seq<Key>, n: nat)
    requires first in totals && Blocks(totals, first, ext) && n <= |ext|
    ensures RunNext(totals, first, ext[..n]) in totals
    ensures Scan(totals, first, RunNext(totals, first, ext[..n]), ext[..n]).Err?
    decreases |ext| - n
  {
    if n < |ext| {
      TakeSnoc(ext, n);
      BlockedFits(totals, first, ext, n);
      BlockedStep(totals, first, ext, n);
      BlockedScanFails(totals, first, ext, n + 1);
      BlockedScanStep(totals, first, ext[..n], ext[n], ext[..n + 1]);
    } else {
      TakeAll(ext);
    }
  }

  /** What stops a scan: a row of no user or with a long identity, and counters below zero or without an int64 sum. Of
      these, a sound ledger holds only the last. */
  lemma BadMeans(totals: Totals, k: Key)
    ensures Bad(totals, k) <==>
              !(&& k.uid >= 1 && |k.identity| <= 40 && At(totals, k).up >= 0 && At(totals, k).down >= 0
                && At(totals, k).up + At(totals, k).down <= 0x7fff_ffff_ffff_ffff)
    ensures TotalsOk(totals) && k in totals ==>
              (Bad(totals, k) <==> totals[k].up + totals[k].down > 0x7fff_ffff_ffff_ffff)
  {
    if TotalsOk(totals) && k in totals { assert GoodTotal(k, totals[k]); }
  }

  /** Freezing a new report fails on the stored amounts exactly when the walk from the cursor reaches a
      row whose two counters have no int64 sum before the report is complete. */
  lemma FreezeFailsExactly(db: Db, id: string)
    requires LedgerInv(db) && IsReportId(id) && id != ConfirmedId(db)
    requires db.pending == None && db.totals != map[]
    ensures PendingDb(db, id).Err? <==> exists ext :: Blocks(db.totals, Successor(db.totals.Keys, db.cursor), ext)
  {
    var first := Successor(db.totals.Keys, db.cursor);
    var r := Scan(db.totals, first, first, []);
    ScanTakesMaximalRun(db.totals, first, first, []);
    if r.Err? {
      FailedScanIsBlocked(db.totals, first, first, []);
    } else {
      if ext :| Blocks(db.totals, first, ext) {
        BlockedScanFails(db.totals, first, ext, 0);
      }
      NewReportIs(db, first, r.value, id);
    }
  }

  /** `Record` bounds each counter by itself, so two accepted records can make the next freeze fail. */
  lemma AcceptedTrafficCanBlockReports(id: string)
    requires IsReportId(id)
    ensures var up, down := Screen(1, MAX_INT64, 0, []), Screen(1, 0, 1, []);
            && up.Queue? && down.Queue?
            && var totals := RecordOne(RecordOne(map[], up.request).0, down.request).0;
               && RecordOne(map[], up.request).1 == None
               && RecordOne(RecordOne(map[], up.request).0, down.request).1 == None
               && PendingDb(EMPTY_DB.(totals := totals), id).Err?
  {
    var k := Key(1, "");
    var totals: Totals := map[k := Amount(MAX_INT64, 1)];
    assert totals == RecordOne(RecordOne(map[], Request(k, Amount(MAX_INT64, 0))).0, Request(k, Amount(0, 1))).0;
    assert totals.Keys == {k};
    assert Successor(totals.Keys, None) == k;
    assert Bad(totals, k);
  }

  // ---------------------------------------------------------------- confirming

  lemma {:induction false} AmountInMember(data: seq<Usage>, u: Usage)
    requires ValidRows(data) && u in data
    ensures AmountIn(data, KeyOf(u)) == Amount(u.up, u.down)
  {
    var n := |data| - 1;
    var init, last := data[..n], data[n];
    assert data == init + [last];
    ValidRowsPrefix(data, n);
    if u == last {
      forall v | v in init ensures KeyOf(v) != KeyOf(u) {
      }
      AmountInAbsent(init, KeyOf(u));
    } else {
      assert u in init;
      AmountInMember(init, u);
      assert last.uid != u.uid;
    }
  }

  /** The coverage check of a confirmation never fails: only a receipt the deferral book refuses can
      stop one, and then nothing changes. Each account loses exactly what was reported. */
  lemma ConfirmKeeps(db: Db, receipt: Receipt, now: int)
    requires LedgerInv(db) && db.pending.Some?
    ensures var report := db.pending.value;
            var r := ConfirmDb(db, report.id, receipt, now);
            && (r.Ok? <==> receipt == NO_RECEIPT || Remember(db.deferred, report, receipt, now).Ok?)
            && (r.Ok? ==>
                  && LedgerInv(r.value)
                  && r.value.pending == None && ConfirmedId(r.value) == report.id
                  && (forall k :: At(r.value.totals, k) == Minus(At(db.totals, k), AmountIn(report.data, k)))
                  && r.value.totals.Keys <= db.totals.Keys && r.value.cursor == db.cursor)
  {
    SubtractExact(db.totals, db.pending.value.data);
  }

  /** Only the pending report is confirmed, if it is valid and follows the confirmed one; it is then the confirmed one,
      and none is pending. */
  lemma ConfirmsPending(db: Db, id: string, receipt: Receipt, now: int)
    requires ConfirmDb(db, id, receipt, now).Ok?
    ensures var next := ConfirmDb(db, id, receipt, now).value;
            && db.pending.Some? && db.pending.value.id == id && ValidReport(db.pending.value)
            && db.pending.value.previous == db.confirmed.GetOr("")
            && next.pending == None && next.confirmed == Some(id)
            && next.cursor == db.cursor && next.initialized == db.initialized
  {
  }

  /** What a confirmation keeps of its receipt: a deferral is in the report's record, as `RememberLeaves` says, and
      any receipt but the empty one is in the history, under the id the report followed. */
  lemma ConfirmRemembers(db: Db, receipt: Receipt, now: int)
    requires LedgerInv(db) && BookInv(db.deferred) && db.pending.Some? && SameReport(db.deferred, db.pending.value)
    requires ConfirmDb(db, db.pending.value.id, receipt, now).Ok?
    ensures var report := db.pending.value;
            var next := ConfirmDb(db, report.id, receipt, now).value;
            && (receipt.Text? ==> next.deferred == db.deferred)
            && (receipt.Deferred? && report.id in next.deferred ==>
                  Holds(db.deferred, report, receipt, now, next.deferred[report.id]))
            && next.history == if receipt == Text("") then db.history
                               else db.history[report.previous := report.(receipt := receipt)]
  {
    var report := db.pending.value;
    ConfirmParts(db, receipt, now);
    if receipt.Deferred? {
      RememberExactly(db.deferred, report, receipt, now);
      RememberLeaves(db.deferred, report, receipt, now);
    }
  }

  lemma ConfirmParts(db: Db, receipt: Receipt, now: int)
    requires db.pending.Some? && ConfirmDb(db, db.pending.value.id, receipt, now).Ok?
    ensures var report := db.pending.value;
            var next := ConfirmDb(db, report.id, receipt, now).value;
            && (if receipt == NO_RECEIPT then next.deferred == db.deferred && next.history == db.history
                else Remember(db.deferred, report, receipt, now) == Ok(next.deferred) &&
                       next.history == db.history[report.previous := report.(receipt := receipt)])
  {
  }

  /** A new report carries the whole total of every account it names, and nothing else. */
  lemma FrozenAmounts(db: Db, id: string, k: Key)
    requires LedgerInv(db) && IsReportId(id) && db.pending == None
    requires PendingDb(db, id).Ok? && PendingDb(db, id).value.1.Some?
    ensures var data := PendingDb(db, id).value.1.value.data;
            AmountIn(data, k) == if exists u :: u in data && KeyOf(u) == k then At(db.totals, k) else Amount(0, 0)
  {
    var first := Successor(db.totals.Keys, db.cursor);
    ScanTakesMaximalRun(db.totals, first, first, []);
    var run := Scan(db.totals, first, first, []).value;
    var data := PendingDb(db, id).value.1.value.data;
    PendingOutcome(db, id);
    NewReportIs(db, first, run, id);
    assert data == SortByUid(Usages(db.totals, run));
    AmountsOfRun(db.totals, run, data, k);
  }

  lemma AmountsOfRun(totals: Totals, run: seq<Key>, data: seq<Usage>, k: Key)
    requires multiset(data) == multiset(Usages(totals, run)) && ValidRows(data)
    ensures AmountIn(data, k) == if exists u :: u in data && KeyOf(u) == k then At(totals, k) else Amount(0, 0)
  {
    if u :| u in data && KeyOf(u) == k {
      assert u in multiset(data) && u in multiset(Usages(totals, run));
      AmountInMember(data, u);
    } else {
      AmountInAbsent(data, k);
    }
  }

  /** Traffic recorded while a report is out survives its confirmation untouched. */
  lemma LateTrafficSurvives(db: Db, id: string, batch: seq<Request>, receipt: Receipt, now: int, k: Key)
    requires LedgerInv(db) && IsReportId(id) && db.pending == None
    requires PendingDb(db, id).Ok? && PendingDb(db, id).value.1.Some?
    requires forall q :: q in batch ==> GoodRequest(q)
    requires var frozen := PendingDb(db, id).value.0;
             ConfirmDb(frozen.(totals := RecordSingly(frozen.totals, batch).0), id, receipt, now).Ok?
    ensures var frozen := PendingDb(db, id).value.0;
            var later := RecordSingly(frozen.totals, batch).0;
            var rest := ConfirmDb(frozen.(totals := later), id, receipt, now).value.totals;
            var named := exists u :: u in frozen.pending.value.data && KeyOf(u) == k;
            At(rest, k) == if named then Minus(At(later, k), At(db.totals, k)) else At(later, k)
  {
    var frozen := PendingDb(db, id).value.0;
    PendingOutcome(db, id);
    FrozenAmounts(db, id, k);
    RecordSinglyKeeps(frozen, batch);
    ConfirmKeeps(frozen.(totals := RecordSingly(frozen.totals, batch).0), receipt, now);
  }

  ghost predicate GoodRequest(q: Request) {
    && q.key.uid > 0 && |q.key.identity| <= 40
    && q.add.up >= 0 && q.add.down >= 0 && (q.add.up != 0 || q.add.down != 0)
  }

  lemma {:induction false} RecordSinglyKeeps(db: Db, batch: seq<Request>)
    requires LedgerInv(db) && forall q :: q in batch ==> GoodRequest(q)
    ensures LedgerInv(db.(totals := RecordSingly(db.totals, batch).0))
  {
    if batch != [] {
      var n := |batch| - 1;
      RecordSinglyKeeps(db, batch[..n]);
      RecordOneKeeps(db.(totals := RecordSingly(db.totals, batch[..n]).0), batch[n]);
    }
  }

  /** Whatever `Record` queues is a request the ledger can keep. */
  lemma ScreenedRequestsAreGood(uid: int, upload: int, download: int, identity: seq<string>)
    requires Screen(uid, upload, download, identity).Queue?
    ensures GoodRequest(Screen(uid, upload, download, identity).request)
  {
  }

  /** Whatever leaves totals, confirmed id and pending report alone keeps the invariant. */
  lemma SameLedger(db: Db, next: Db)
    requires LedgerInv(db) && next.totals == db.totals && next.confirmed == db.confirmed && next.pending == db.pending
    ensures LedgerInv(next)
  {
  }

  lemma OthersKeep(db: Db, id: string, report: Report, receipt: Receipt, now: int)
    requires LedgerInv(db)
    ensures InitializeDb(db, id).Ok? ==> LedgerInv(InitializeDb(db, id).value)
    ensures RememberDb(db, report, receipt, now).Ok? ==> LedgerInv(RememberDb(db, report, receipt, now).value)
    ensures RememberProgressDb(db, id, receipt, now).Ok? ==> LedgerInv(RememberProgressDb(db, id, receipt, now).value)
  {
    InitializeKeeps(db, id);
    RememberFrame(db, report, receipt, now);
    ProgressFrame(db, id, receipt, now);
    if RememberDb(db, report, receipt, now).Ok? { SameLedger(db, RememberDb(db, report, receipt, now).value); }
    if RememberProgressDb(db, id, receipt, now).Ok? { SameLedger(db, RememberProgressDb(db, id, receipt, now).value); }
  }

  /** Remembering changes nothing but deferred records. */
  lemma RememberFrame(db: Db, report: Report, receipt: Receipt, now: int)
    ensures var r := RememberDb(db, report, receipt, now); r.Ok? ==> r.value == db.(deferred := r.value.deferred)
  {
  }

  /** A deferral that comes with the panel's progress is refused if it is malformed or about another id, and has no
      effect if the history does not have its report. Else it gets into the report's record, unless it does not fit. */
  lemma ProgressLeaves(db: Db, id: string, receipt: Receipt, now: int)
    requires BookInv(db.deferred) && receipt.Deferred?
    requires var before := receipt.ack.previous;
             before in db.history ==> ValidReport(db.history[before]) && SameReport(db.deferred, db.history[before])
    ensures var before, r := receipt.ack.previous, RememberProgressDb(db, id, receipt, now);
            && (r.Ok? <==>
                  && 1 <= |receipt.ack.entries| <= 1000 && receipt.ack.id == id
                  && (before in db.history ==> Fitting(receipt, db.history[before])))
            && (r.Ok? && before !in db.history ==> r.value == db)
            && (r.Ok? && before in db.history && id in r.value.deferred ==>
                  Holds(db.deferred, db.history[before], receipt, now, r.value.deferred[id]))
  {
    var before := receipt.ack.previous;
    if 1 <= |receipt.ack.entries| <= 1000 && receipt.ack.id == id && before in db.history {
      RememberExactly(db.deferred, db.history[before], receipt, now);
      if Fitting(receipt, db.history[before]) {
        RememberLeaves(db.deferred, db.history[before], receipt, now);
      }
    }
  }

  lemma ProgressFrame(db: Db, id: string, receipt: Receipt, now: int)
    ensures var r := RememberProgressDb(db, id, receipt, now); r.Ok? ==> r.value == db.(deferred := r.value.deferred)
  {
  }

  lemma InitializeKeeps(db: Db, id: string)
    requires LedgerInv(db)
    ensures InitializeDb(db, id).Ok? ==> LedgerInv(InitializeDb(db, id).value)
  {
  }
}
