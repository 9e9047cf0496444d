/** What the loops of a reporting cycle rely on, as facts about protocol states. */
module ReportSteps {
  import opened Wrappers
  import opened TotalsKeys
  import opened TrafficReports
  import opened DeferredReceipts
  import B = DeferredBook
  import opened TrafficStore
  import opened LedgerInvariant
  import opened Billing
  import opened ReportStates
  import opened Walks
  import F = FairScan
  import P = FairPlan

  lemma ReplaysSnoc(sent: seq<Report>, log: seq<Report>, j: nat, at: nat, r: Report)
    requires Replays(sent, log, j) && at == j + |sent| < |log| && SameBytes(r, log[at])
    ensures Replays(sent + [r], log, j)
  {
  }

  lemma UntouchedClear(before: Records, after: Records, log: seq<Report>, j: nat)
    requires Clear(before, log, j) && Untouched(before, after, log, j)
    ensures Clear(after, log, j)
  {
  }

  lemma UntouchedStuck(before: Records, after: Records, log: seq<Report>, j: nat, i: nat)
    requires Untouched(before, after, log, j) && j <= i && Stuck(after, log, i)
    ensures Stuck(before, log, i)
  {
    assert Later(log, j, log[i].id);
  }

  lemma UntouchedOn(a: Records, b: Records, c: Records, log: seq<Report>, j: nat)
    requires Untouched(a, b, log, j) && Untouched(b, c, log, j + 1)
    ensures Untouched(a, c, log, j + 1)
    ensures Stuck(b, log, j) ==> Stuck(a, log, j)
  {
    forall id | Later(log, j + 1, id) && id in c ensures id in a && c[id].proofs == a[id].proofs {
      assert Later(log, j, id);
    }
    if Stuck(b, log, j) { UntouchedStuck(a, b, log, j, j); }
  }

  // ---------------------------------------------------------------- sound states

  lemma IsSound(s: State, n: nat)
    requires Inv(s) && B.BookInv(s.db.deferred) && StandsAt(s.panel, s.origin, Chain(s), n)
    ensures Sound(s, n)
  {
  }

  lemma LedgerIsSound(s: State, n: nat)
    requires Sound(s, n)
    ensures LedgerInv(s.db)
  {
    assert LookInto(s);
  }

  lemma NoFurther(s: State, n: nat)
    requires Sound(s, n)
    ensures n <= |Chain(s)|
  {
    assert LookInto(s);
  }

  lemma StartsSound(s: State)
    requires Init(s)
    ensures Sound(s, 0)
  {
    InitInv(s);
    assert StandsAt(s.panel, s.origin, Chain(s), 0);
  }

  /** What a sound state says for account `k`: nothing accepted is lost. */
  lemma SoundBooks(s: State, n: nat, k: Key)
    requires Sound(s, n)
    ensures n <= |Chain(s)| && Stands(s.panel, s.origin, Chain(s))
    ensures At(s.accepted, k) == Plus(At(s.panel.billed, k), Owed(s, k))
  {
    assert LookInto(s);
    NothingLost(s, k);
  }

  // ---------------------------------------------------------------- where the panel stands

  /** Whatever of a request arrives, the invariant holds; the report at the panel's own position advances it by one. */
  lemma PostKeeps(s: State, panel: Panel, report: Report, j: nat, i: nat)
    requires Inv(s) && StandsAt(s.panel, s.origin, Chain(s), j)
    requires i < |Chain(s)| && SameBytes(report, Chain(s)[i])
    requires panel == s.panel || panel == Handle(s.panel, report).0
    ensures Inv(s.(panel := panel))
    ensures StandsAt(panel, s.origin, Chain(s), if panel == s.panel || i != j then j else j + 1)
  {
    assert Chain(s.(panel := panel)) == Chain(s);
    HandleAt(s.panel, s.origin, Chain(s), j, report, i);
  }

  lemma PostTaken(panel: Panel, origin: string, chain: seq<Report>, j: nat, report: Report, i: nat)
    requires Linked(origin, chain) && StandsAt(panel, origin, chain, j) && i < |chain| && SameBytes(report, chain[i])
    ensures Handle(panel, report).1 <==> i <= j <= i + 1
    ensures Handle(panel, report).0 == panel <==> j != i
  {
    HandleAt(panel, origin, chain, j, report, i);
    if j == i {
      IdsDiffer(origin, chain, i, i + 1);
      assert report.id == IdAt(origin, chain, i + 1);
    }
  }

  /** The panel after a post of report `i` of the chain. */
  lemma SoundPost(s: State, n: nat, panel: Panel, report: Report, i: nat) returns (m: nat)
    requires Sound(s, n) && i < |Chain(s)| && SameBytes(report, Chain(s)[i])
    requires panel == s.panel || panel == Handle(s.panel, report).0
    ensures Sound(s.(panel := panel), m) && n <= m
    ensures m == if panel == s.panel || i != n then n else n + 1
    ensures Handle(s.panel, report).1 <==> i <= n <= i + 1
    ensures Handle(s.panel, report).0 == s.panel <==> n != i
  {
    assert LookInto(s);
    m := if panel == s.panel || i != n then n else n + 1;
    PostKeeps(s, panel, report, n, i);
    PostTaken(s.panel, s.origin, Chain(s), n, report, i);
    assert Chain(s.(panel := panel)) == Chain(s);
    IsSound(s.(panel := panel), m);
  }

  // ---------------------------------------------------------------- records along the log

  lemma LogLinked(s: State)
    requires Linked(s.origin, Chain(s))
    ensures Linked(s.origin, s.log)
  {
    LinkedPrefix(s.origin, Chain(s), |s.log|);
    assert Chain(s)[..|s.log|] == s.log;
  }

  lemma LogReportIs(records: Records, origin: string, log: seq<Report>, report: Report, i: nat)
    requires Linked(origin, log) && i < |log| && SameBytes(report, log[i]) && OfLog(records, log)
    ensures B.SameReport(records, report)
  {
    if report.id in records {
      var c :| c in log && SameBytes(records[report.id].report, c);
      var k :| 0 <= k < |log| && log[k] == c;
      if k != i { IdsDiffer(origin, log, k + 1, i + 1); }
    }
  }

  /** The ids of a log are different. */
  lemma LogIdsDiffer(origin: string, log: seq<Report>, i: nat, k: nat)
    requires Linked(origin, log) && i < |log| && k < |log| && i != k
    ensures log[i].id != log[k].id
  {
    IdsDiffer(origin, log, i + 1, k + 1);
  }

  /** Remembering a receipt of one report leaves the proofs about all others. */
  lemma RememberTouchesOne(records: Records, origin: string, log: seq<Report>, report: Report, receipt: Receipt,
                           now: int, at: nat, j: nat)
    requires Linked(origin, log) && at < |log| && at < j && report.id == log[at].id
    requires B.Remember(records, report, receipt, now).Ok?
    ensures Untouched(records, B.Remember(records, report, receipt, now).value, log, j)
  {
    var next := B.Remember(records, report, receipt, now).value;
    forall id | Later(log, j, id) && id in next
      ensures id in records && next[id].proofs == records[id].proofs
    {
      var i :| j <= i < |log| && log[i].id == id;
      LogIdsDiffer(origin, log, i, at);
      B.RememberOthers(records, report, receipt, now, id);
    }
  }

  /** Other deferred records of the log leave a state sound. */
  lemma SoundRecords(s: State, n: nat, records: Records)
    requires Sound(s, n) && OfLog(records, s.log) && B.BookInv(records)
    ensures Sound(s.(db := s.db.(deferred := records)), n)
  {
    assert LookInto(s);
    var t := s.(db := s.db.(deferred := records));
    DeferredOnly(s, t);
    assert Chain(t) == Chain(s);
    IsSound(t, n);
  }

  // ---------------------------------------------------------------- reading the progress

  /** Remembering what the panel says with its progress succeeds if it fits, and touches nothing the panel has lost. */
  lemma ProgressHolds(s: State, n: nat, receipt: Receipt, now: int)
    requires Sound(s, n)
    ensures ProgressFits(receipt, s.panel.progress, s.db.history) ==>
              RememberProgressDb(s.db, s.panel.progress, receipt, now).Ok?
    ensures RememberProgressDb(s.db, s.panel.progress, receipt, now).Ok? ==>
              var db := RememberProgressDb(s.db, s.panel.progress, receipt, now).value;
              && db == s.db.(deferred := db.deferred) && Sound(s.(db := db), n)
              && Untouched(s.db.deferred, db.deferred, s.log, n)
  {
    if HasAck(receipt) && receipt.ack.previous in s.db.history && receipt.ack.id == s.panel.progress {
      var i := RecalledReport(s, n, receipt.ack.previous);
      B.RememberExactly(s.db.deferred, s.log[i], receipt, now);
      if RememberDb(s.db, s.log[i], receipt, now).Ok? {
        ProgressRemembers(s, n, receipt, now, i);
      }
    }
  }

  lemma RecalledReport(s: State, n: nat, id: string) returns (i: nat)
    requires Sound(s, n) && id in s.db.history
    ensures i < |s.log| && s.db.history[id] == s.log[i] && ValidReport(s.log[i])
    ensures B.BookInv(s.db.deferred) && B.SameReport(s.db.deferred, s.log[i])
  {
    assert LookInto(s);
    i :| Recalls(s.db.history, s.origin, s.log, id, i);
    assert s.log[i] in s.log;
    LogLinked(s);
    LogReportIs(s.db.deferred, s.origin, s.log, s.log[i], i);
  }

  lemma ProgressRemembers(s: State, n: nat, receipt: Receipt, now: int, i: nat)
    requires Sound(s, n) && i < |s.log| && HasAck(receipt)
    requires receipt.ack.id == s.panel.progress && ValidReport(s.log[i])
    requires B.BookInv(s.db.deferred) && B.SameReport(s.db.deferred, s.log[i])
    requires B.Remember(s.db.deferred, s.log[i], receipt, now).Ok?
    ensures var next := B.Remember(s.db.deferred, s.log[i], receipt, now).value;
            Sound(s.(db := s.db.(deferred := next)), n) && Untouched(s.db.deferred, next, s.log, n)
  {
    LogReportRemembered(s, n, s.log[i], receipt, now, i);
    assert LookInto(s);
    assert IdAt(s.origin, Chain(s), i + 1) == s.panel.progress by { IdsOfLog(s, i + 1); }
    PositionIs(s.panel, s.origin, Chain(s), n, i + 1);
    LogLinked(s);
    RememberTouchesOne(s.db.deferred, s.origin, s.log, s.log[i], receipt, now, i, n);
  }

  /** Remembering a receipt of a report of the log leaves a sound state. */
  lemma LogReportRemembered(s: State, n: nat, report: Report, receipt: Receipt, now: int, i: nat)
    requires Sound(s, n) && i < |s.log| && SameBytes(report, s.log[i]) && B.BookInv(s.db.deferred)
    requires B.SameReport(s.db.deferred, report)
    requires B.Remember(s.db.deferred, report, receipt, now).Ok?
    ensures Sound(s.(db := s.db.(deferred := B.Remember(s.db.deferred, report, receipt, now).value)), n)
  {
    B.RememberKeepsBook(s.db.deferred, report, receipt, now);
    assert OfChain(report, s.log) by { assert s.log[i] in s.log; }
    assert OfLog(s.db.deferred, s.log) by { assert LookInto(s); }
    RememberKeepsOfLog(s.db.deferred, s.log, report, receipt, now);
    SoundRecords(s, n, B.Remember(s.db.deferred, report, receipt, now).value);
  }

  // ---------------------------------------------------------------- merging

  /** Where the report of a deferred record stands in the log. */
  lemma RecordedAt(s: State, n: nat, id: string) returns (i: nat)
    requires Sound(s, n) && id in s.db.deferred
    ensures i < |s.log| && SameBytes(s.db.deferred[id].report, s.log[i]) && s.log[i].id == id
    ensures i < |Chain(s)| && Chain(s)[i] == s.log[i]
    ensures B.BookInv(s.db.deferred) && B.SameReport(s.db.deferred, B.MergeReport(s.db.deferred[id]))
  {
    assert LookInto(s);
    i := PlaceInChain(s.db.deferred[id].report, s.log);
  }

  /** A merge request reaches the panel as a report it may have lost; it moves the panel only if it has. */
  lemma MergePosts(s: State, n: nat, id: string, panel: Panel) returns (m: nat)
    requires Sound(s, n) && id in s.db.deferred && s.db.deferred[id].proofs != []
    requires panel == s.panel || panel == Handle(s.panel, MergeRequest(s.db.deferred[id])).0
    ensures Sound(s.(panel := panel), m) && n <= m && (Clear(s.db.deferred, s.log, n) ==> m == n)
  {
    var i := RecordedAt(s, n, id);
    m := SoundPost(s, n, panel, MergeRequest(s.db.deferred[id]), i);
    if i == n { assert Later(s.log, n, id); }
  }

  /** The answer to a merge settles a proof of its own record and touches no other. */
  lemma MergeRemembers(s: State, n: nat, id: string, receipt: Receipt, now: int)
    requires Sound(s, n) && id in s.db.deferred && B.Merges(receipt, s.db.deferred[id])
    ensures RememberDb(s.db, B.MergeReport(s.db.deferred[id]), receipt, now).Ok?
    ensures var db := RememberDb(s.db, B.MergeReport(s.db.deferred[id]), receipt, now).value;
            && Sound(s.(db := db), n) && db == s.db.(deferred := db.deferred)
            && B.Outstanding(db.deferred) < B.Outstanding(s.db.deferred)
            && forall j: nat :: Clear(s.db.deferred, s.log, j) ==> Clear(db.deferred, s.log, j)
  {
    var records, report := s.db.deferred, B.MergeReport(s.db.deferred[id]);
    var i := RecordedAt(s, n, id);
    B.MergeStep(records, id, receipt, now);
    LogReportRemembered(s, n, report, receipt, now, i);
    forall j: nat | Clear(records, s.log, j)
      ensures Clear(B.Remember(records, report, receipt, now).value, s.log, j)
    {
      MergeKeepsClear(records, s.log, id, receipt, now, j);
    }
  }

  lemma MergeKeepsClear(records: Records, log: seq<Report>, id: string, receipt: Receipt, now: int, j: nat)
    requires id in records && records[id].proofs != [] && records[id].report.id == id && Clear(records, log, j)
    requires B.Remember(records, B.MergeReport(records[id]), receipt, now).Ok?
    ensures Clear(B.Remember(records, B.MergeReport(records[id]), receipt, now).value, log, j)
  {
    var next := B.Remember(records, B.MergeReport(records[id]), receipt, now).value;
    forall other | Later(log, j, other) && other in next ensures next[other].proofs == [] {
      B.RememberOthers(records, B.MergeReport(records[id]), receipt, now, other);
    }
  }

  // ---------------------------------------------------------------- replaying

  /** A report can be replayed exactly when it is not stuck. */
  lemma RecoveryIs(s: State, n: nat, at: nat)
    requires Sound(s, n) && at < |s.log|
    ensures RecoverDb(s.db, IdAt(s.origin, s.log, at)).Ok? <==> !Stuck(s.db.deferred, s.log, at)
    ensures RecoverDb(s.db, IdAt(s.origin, s.log, at)).Ok? ==>
              var recovery := RecoverDb(s.db, IdAt(s.origin, s.log, at)).value;
              SameBytes(recovery, s.log[at]) && ValidReport(recovery)
  {
    assert LookInto(s);
    RecoveryReplaysTheChain(s, at);
    assert s.log[at] in s.log;
  }

  /** Posting the replay of report `at` to a panel at or beyond it: the panel takes it, and then stands right
      behind it, unless it stands further already. */
  lemma RecoverPosts(s: State, n: nat, recovery: Report, panel: Panel, at: nat) returns (m: nat)
    requires Sound(s, n) && at < |s.log| && at <= n && SameBytes(recovery, s.log[at])
    requires panel == s.panel || panel == Handle(s.panel, recovery).0
    ensures Sound(s.(panel := panel), m) && n <= m
    ensures Handle(s.panel, recovery).1 <==> n <= at + 1
    ensures Handle(s.panel, recovery).1 && panel == Handle(s.panel, recovery).0 ==> m == at + 1
  {
    assert Chain(s)[at] == s.log[at];
    m := SoundPost(s, n, panel, recovery, at);
  }

  /** The receipt of a replay is remembered exactly if it fits; it touches no report behind it. */
  lemma RecoverRemembers(s: State, n: nat, recovery: Report, receipt: Receipt, now: int, at: nat)
    requires Sound(s, n) && at < |s.log| && SameBytes(recovery, s.log[at]) && ValidReport(recovery)
    ensures RememberDb(s.db, recovery, receipt, now).Ok? <==> B.Fitting(receipt, recovery)
    ensures RememberDb(s.db, recovery, receipt, now).Ok? ==>
              var db := RememberDb(s.db, recovery, receipt, now).value;
              && Sound(s.(db := db), n) && db == s.db.(deferred := db.deferred)
              && Untouched(s.db.deferred, db.deferred, s.log, at + 1)
  {
    SoundReport(s, n, recovery, at);
    B.RememberExactly(s.db.deferred, recovery, receipt, now);
    if RememberDb(s.db, recovery, receipt, now).Ok? {
      LogReportRemembered(s, n, recovery, receipt, now, at);
      RememberTouchesOne(s.db.deferred, s.origin, s.log, recovery, receipt, now, at, at + 1);
    }
  }

  lemma SoundReport(s: State, n: nat, report: Report, i: nat)
    requires Sound(s, n) && i < |s.log| && SameBytes(report, s.log[i])
    ensures B.BookInv(s.db.deferred) && B.SameReport(s.db.deferred, report) && Linked(s.origin, s.log)
  {
    assert LookInto(s);
    LogLinked(s);
    LogReportIs(s.db.deferred, s.origin, s.log, report, i);
  }

  /** What a panel shows that has taken `at` reports. */
  lemma ShowsAt(s: State, n: nat, at: nat)
    requires Sound(s, n) && at <= |Chain(s)|
    ensures Shows(s.origin, s.log, s.db, at, IdAt(s.origin, Chain(s), at))
  {
    ChainEnds(s, n);
    ShowsInChain(s.origin, s.log, s.db, at, Chain(s));
  }

  lemma ChainEnds(s: State, n: nat)
    requires Sound(s, n)
    ensures Linked(s.origin, Chain(s)) && ConfirmedId(s.db) == IdAt(s.origin, s.log, |s.log|)
  {
    assert LookInto(s);
  }

  lemma ShowsInChain(origin: string, log: seq<Report>, db: Db, at: nat, chain: seq<Report>)
    requires chain == (if db.pending.Some? then log + [db.pending.value] else log) && at <= |chain|
    requires Linked(origin, chain) && ConfirmedId(db) == IdAt(origin, log, |log|)
    ensures Shows(origin, log, db, at, IdAt(origin, chain, at))
  {
    var last := |log|;
    assert forall i :: 0 <= i <= last ==> IdAt(origin, chain, i) == IdAt(origin, log, i);
    if at < last {
      IdsDiffer(origin, chain, at, last);
      if db.pending.Some? { IdsDiffer(origin, chain, at, last + 1); }
    }
  }

  lemma ShowsNow(s: State, n: nat)
    requires Sound(s, n)
    ensures Shows(s.origin, s.log, s.db, n, s.panel.progress)
  {
    assert LookInto(s);
    ShowsAt(s, n, n);
  }

  lemma ShowsNext(s: State, n: nat, at: nat, r: Report)
    requires Sound(s, n) && at < |s.log| && SameBytes(r, s.log[at])
    ensures Shows(s.origin, s.log, s.db, at + 1, r.id)
  {
    assert Chain(s)[at] == s.log[at];
    ShowsAt(s, n, at + 1);
  }

  lemma RecoveryStarts(log: seq<Report>, records: Records, start: nat, j: nat)
    requires j <= start
    ensures Recovering(log, records, records, start, start, j, [])
  {
  }

  /** With nothing outstanding and the panel where it was, only a missing receipt stops recovery. */
  lemma StuckIsUnreceipted(records: Records, log: seq<Report>, start: nat, j: nat, n: nat)
    requires Halts(log, records, start, j, n) && B.Outstanding(records) == {}
    ensures start > j + 1 || Unreceipted(log, j + n)
  {
    if start <= j + 1 {
      var id := log[j + n].id;
      assert id in records && records[id].proofs != [] ==> (id, 0) in B.Outstanding(records);
    }
  }

  /** Nothing outstanding at all, so nothing about a lost report. */
  lemma NothingAwaits(records: Records, log: seq<Report>, j: nat)
    requires B.Outstanding(records) == {}
    ensures Clear(records, log, j)
  {
    forall id {:trigger Later(log, j, id)} | Later(log, j, id) && id in records ensures records[id].proofs == [] {
      assert records[id].proofs != [] ==> (id, 0) in B.Outstanding(records);
    }
  }

  /** A ledger that only had its deferred records changed since the cycle began. */
  lemma BegunOn(start: Db, id: string, report: Option<Report>, db: Db, next: Db)
    requires Begun(start, id, report, db) && next == db.(deferred := next.deferred)
    ensures Begun(start, id, report, next)
  {
  }

  lemma StillNotBlocked(db: Db, next: Db)
    requires !Blocked(db) && next == db.(deferred := next.deferred)
    ensures !Blocked(next)
  {
  }

  lemma BegunFrom(before: Db, id: string, db: Db)
    requires IsReportId(id) && LedgerInv(before) && PendingDb(before, id) == Ok((db, db.pending))
    requires db.pending == None ==> db == before && db.totals == map[]
    ensures db.totals == before.totals && db.deferred == before.deferred && !Blocked(db)
    ensures before.pending.Some? ==> db == before
    ensures before.pending == None ==> Begun(before, id, db.pending, db)
  {
  }

  /** The recovery loop has stopped the second half of a cycle. */
  lemma RecoveryFinishes(log: seq<Report>, db: Db, start: nat, j: nat, db2: Db, pos: nat, replayed: seq<Report>,
                         batches: int, r: Outcome, faultless: bool)
    requires Recovered(log, db.deferred, db2.deferred, start, pos, j, replayed, r) && r != Done
    requires db2 == db.(deferred := db2.deferred)
    requires r.Failed? && faultless ==> Halts(log, db.deferred, start, j, |replayed|)
    ensures Finishes(log, db, start, j, log, db2, pos, replayed, batches, r, faultless)
  {
  }

  /** The sending loop has ended it. */
  lemma SendingFinishes(log: seq<Report>, db: Db, start: nat, j: nat, replayed: seq<Report>, log2: seq<Report>, db2: Db,
                        pos: nat, batches: int, r: Outcome, faultless: bool)
    requires Replays(replayed, log, j) && |replayed| <= 100 && j + |replayed| >= |log|
    requires log <= log2 && |log2| <= |log| + AtLeastOne(batches) && pos >= |log2| && r != Incomplete
    requires r == Done ==> db2.pending == None && pos == |log2|
    requires r == Done ==> db2.totals == map[] || |log2| == |log| + AtLeastOne(batches)
    requires r.Failed? && faultless ==> |log2| > |log| && Blocked(db2)
    ensures Finishes(log, db, start, j, log2, db2, pos, replayed, batches, r, faultless)
  {
  }

  /** What the end of the second half means for the cycle: whatever awaited merging has been merged before. */
  lemma FinishEndsCycle(log: seq<Report>, db0: Db, at: nat, settled: bool, db: Db, start: nat, log2: seq<Report>,
                        db2: Db, pos: nat, replayed: seq<Report>, batches: int, r: Outcome, faultless: bool)
    requires !Blocked(db0) && !Blocked(db) && B.Outstanding(db.deferred) == {} && (settled ==> start == at)
    requires Finishes(log, db, start, at, log2, db2, pos, replayed, batches, r, faultless)
    ensures CycleEnds(log, db0, at, settled, log2, db2, pos, Clear(db2.deferred, log2, pos), replayed, r, faultless)
  {
    assert LookAtEnd(r);
    if r == Incomplete {
      StillNotBlocked(db, db2);
      StaysClear(db.deferred, db2.deferred, log, pos, pos);
    } else if r.Failed? && faultless && !(|log2| > |log| && Blocked(db2)) {
      StuckIsUnreceipted(db.deferred, log, start, at, |replayed|);
      StillNotBlocked(db, db2);
      if start > at + 1 { StaysClear(db.deferred, db2.deferred, log, at + 1, pos); }
    }
  }

  lemma StaysClear(before: Records, after: Records, log: seq<Report>, j: nat, n: nat)
    requires B.Outstanding(before) == {} && Untouched(before, after, log, j) && j <= n
    ensures Clear(after, log, n)
  {
    NothingAwaits(before, log, j);
    UntouchedClear(before, after, log, j);
    ClearOn(after, log, j, n);
  }

  lemma ClearOn(records: Records, log: seq<Report>, j: nat, n: nat)
    requires Clear(records, log, j) && j <= n
    ensures Clear(records, log, n)
  {
    forall id {:trigger Later(log, n, id)} | Later(log, n, id) && id in records ensures records[id].proofs == [] {
      assert Later(log, j, id);
    }
  }

  lemma InsideTheLog(log: seq<Report>, before: Records, now: Records, start: nat, pos: nat, j: nat, sent: seq<Report>)
    requires Recovering(log, before, now, start, pos, j, sent)
    ensures j + |sent| <= pos && |sent| <= 100
  {
  }

  lemma RecoveryEnds(log: seq<Report>, before: Records, now: Records, start: nat, pos: nat, j: nat, sent: seq<Report>)
    requires Recovering(log, before, now, start, pos, j, sent)
    ensures j + |sent| >= |log| ==> Recovered(log, before, now, start, pos, j, sent, Done)
    ensures j + |sent| < |log| && |sent| == 100 ==> Recovered(log, before, now, start, pos, j, sent, Incomplete)
  {
  }

  lemma RecoveryStopped(log: seq<Report>, before: Records, now: Records, next: Records, start: nat, pos: nat, pos2: nat,
                        j: nat, sent: seq<Report>, e: string)
    requires Recovering(log, before, now, start, pos, j, sent) && j + |sent| < |log| && pos <= pos2
    requires Untouched(now, next, log, j + |sent| + 1)
    ensures Recovered(log, before, next, start, pos2, j, sent, Failed(e))
  {
    UntouchedOn(before, now, next, log, j + |sent|);
  }

  lemma RecoveryGoesOn(log: seq<Report>, before: Records, now: Records, next: Records, start: nat, pos: nat, j: nat,
                       sent: seq<Report>,
                       r: Report)
    requires Recovering(log, before, now, start, pos, j, sent) && |sent| < 100
    requires j + |sent| < |log| && SameBytes(r, log[j + |sent|]) && Untouched(now, next, log, j + |sent| + 1)
    requires pos <= j + |sent| + 1
    ensures Recovering(log, before, next, start, j + |sent| + 1, j, sent + [r])
  {
    ReplaysSnoc(sent, log, j, j + |sent|, r);
    UntouchedOn(before, now, next, log, j + |sent|);
  }

  /** A replay that fails without a fault fails for a report that was stuck from the start, or for a panel that a
      merge had moved on before. */
  lemma RecoveryFails(log: seq<Report>, before: Records, now: Records, start: nat, pos: nat, j: nat, sent: seq<Report>)
    requires Recovering(log, before, now, start, pos, j, sent) && j + |sent| < |log|
    requires pos > j + |sent| + 1 || Stuck(now, log, j + |sent|)
    ensures Halts(log, before, start, j, |sent|)
  {
    if pos <= j + |sent| + 1 { UntouchedStuck(before, now, log, j + |sent|, j + |sent|); }
  }

  // ---------------------------------------------------------------- sending

  /** Posting the frozen report from the end of the log; once it arrived the panel is at the end of the chain. */
  lemma SendPosts(s: State, n: nat, panel: Panel) returns (m: nat)
    requires Sound(s, n) && s.db.pending.Some? && n >= |s.log|
    requires panel == s.panel || panel == Handle(s.panel, s.db.pending.value).0
    ensures Sound(s.(panel := panel), m) && m >= |s.log| && Handle(s.panel, s.db.pending.value).1
    ensures panel == Handle(s.panel, s.db.pending.value).0 ==> m == |s.log| + 1
  {
    assert n <= |Chain(s)| by { assert LookInto(s); }
    m := SoundPost(s, n, panel, s.db.pending.value, |s.log|);
  }

  /** Confirming the frozen report of a panel that has taken it fails only for a receipt that does not fit. */
  lemma SendConfirms(s: State, n: nat, receipt: Receipt, now: int)
    requires Sound(s, n) && s.db.pending.Some? && n == |s.log| + 1
    ensures B.Fitting(receipt, s.db.pending.value) ==> ConfirmDb(s.db, s.db.pending.value.id, receipt, now).Ok?
    ensures ConfirmDb(s.db, s.db.pending.value.id, receipt, now).Ok? ==>
              var db := ConfirmDb(s.db, s.db.pending.value.id, receipt, now).value;
              && Sound(s.(db := db, log := s.log + [s.db.pending.value.(receipt := receipt)]), n)
              && db.pending == None
  {
    var report := s.db.pending.value;
    ConfirmIsExact(s, n, receipt, now);
    if ConfirmDb(s.db, report.id, receipt, now).Ok? {
      SendConfirmed(s, n, receipt, now, ConfirmDb(s.db, report.id, receipt, now).value);
    }
  }

  lemma ConfirmIsExact(s: State, n: nat, receipt: Receipt, now: int)
    requires Sound(s, n) && s.db.pending.Some?
    ensures B.Fitting(receipt, s.db.pending.value) ==> ConfirmDb(s.db, s.db.pending.value.id, receipt, now).Ok?
    ensures s.db.pending.value.id !in s.db.deferred && B.BookInv(s.db.deferred)
  {
    NotYetRecorded(s, n);
    assert LookInto(s);
    ConfirmKeeps(s.db, receipt, now);
    B.RememberExactly(s.db.deferred, s.db.pending.value, receipt, now);
  }

  lemma SendConfirmed(s: State, n: nat, receipt: Receipt, now: int, db: Db)
    requires Sound(s, n) && s.db.pending.Some? && n == |s.log| + 1
    requires B.BookInv(s.db.deferred) && s.db.pending.value.id !in s.db.deferred
    requires ConfirmDb(s.db, s.db.pending.value.id, receipt, now) == Ok(db)
    ensures Sound(s.(db := db, log := s.log + [s.db.pending.value.(receipt := receipt)]), n) && db.pending == None
  {
    var report := s.db.pending.value;
    var t := s.(db := db, log := s.log + [report.(receipt := receipt)]);
    assert LookInto(s);
    ConfirmedState(s, receipt, now, t);
    SameChain(s, t, report.(receipt := receipt));
    ConfirmedPosition(s, t, n);
    ConfirmKeepsBook(s.db, receipt, now);
    IsSound(t, n);
  }

  lemma ConfirmKeepsBook(db: Db, receipt: Receipt, now: int)
    requires db.pending.Some? && B.BookInv(db.deferred) && db.pending.value.id !in db.deferred
    requires ConfirmDb(db, db.pending.value.id, receipt, now).Ok?
    ensures B.BookInv(ConfirmDb(db, db.pending.value.id, receipt, now).value.deferred)
  {
    ConfirmedRecords(db, receipt, now);
    if receipt != NO_RECEIPT { B.RememberKeepsBook(db.deferred, db.pending.value, receipt, now); }
  }

  lemma ConfirmedRecords(db: Db, receipt: Receipt, now: int)
    requires db.pending.Some? && ConfirmDb(db, db.pending.value.id, receipt, now).Ok?
    ensures var next := ConfirmDb(db, db.pending.value.id, receipt, now).value;
            if receipt == NO_RECEIPT then next.deferred == db.deferred
            else B.Remember(db.deferred, db.pending.value, receipt, now) == Ok(next.deferred)
  {
  }

  lemma SameChain(s: State, t: State, confirmed: Report)
    requires s.db.pending.Some? && t.db.pending == None && t.log == s.log + [confirmed]
    requires SameBytes(s.db.pending.value, confirmed)
    ensures |Chain(t)| == |Chain(s)| && forall i :: 0 <= i < |Chain(t)| ==> SameBytes(Chain(s)[i], Chain(t)[i])
  {
  }

  lemma NotYetRecorded(s: State, n: nat)
    requires Sound(s, n) && s.db.pending.Some?
    ensures s.db.pending.value.id !in s.db.deferred
  {
    var id := s.db.pending.value.id;
    if id in s.db.deferred {
      var k := RecordedAt(s, n, id);
      assert LookInto(s);
      LogIdsDiffer(s.origin, Chain(s), k, |s.log|);
    }
  }

  lemma ConfirmedPosition(s: State, t: State, n: nat)
    requires StandsAt(s.panel, s.origin, Chain(s), n) && t.panel == s.panel && t.origin == s.origin
    requires |Chain(t)| == |Chain(s)| && forall i :: 0 <= i < |Chain(t)| ==> SameBytes(Chain(s)[i], Chain(t)[i])
    ensures StandsAt(t.panel, t.origin, Chain(t), n)
  {
    forall k ensures Sum(Chain(t)[..n], k) == Sum(Chain(s)[..n], k) {
      SumSameBytes(Chain(s)[..n], Chain(t)[..n], k);
    }
  }

  // ---------------------------------------------------------------- freezing

  /** A freeze fails exactly when it is blocked, and finds nothing to report exactly when nothing is owed. */
  lemma FreezeExactly(s: State, n: nat, id: string)
    requires Sound(s, n) && IsReportId(id) && NewId(s, id)
    ensures PendingDb(s.db, id).Err? <==> Blocked(s.db)
    ensures PendingDb(s.db, id).Ok? && PendingDb(s.db, id).value.1 == None ==>
              s.db.pending == None && s.db.totals == map[] && PendingDb(s.db, id).value.0 == s.db
  {
    assert LookInto(s);
    NewIsNotConfirmed(s, id);
    if s.db.pending == None && s.db.totals != map[] {
      FreezeFailsExactly(s.db, id);
      FreezeFinds(s.db, id);
    }
  }

  lemma FreezeFinds(db: Db, id: string)
    requires TotalsOk(db.totals) && db.pending == None && db.totals != map[]
    ensures PendingDb(db, id).Ok? ==> PendingDb(db, id).value.1.Some?
  {
    var first := Successor(db.totals.Keys, db.cursor);
    ScanTakesMaximalRun(db.totals, first, first, []);
  }

  lemma NewIsNotConfirmed(s: State, id: string)
    requires Inv(s) && NewId(s, id)
    ensures id != ConfirmedId(s.db)
  {
    IdsOfLog(s, |s.log|);
    if s.log != [] { assert Chain(s)[|s.log| - 1] in Chain(s); }
  }

  lemma FreezeHolds(s: State, n: nat, id: string, db: Db)
    requires Sound(s, n) && IsReportId(id) && NewId(s, id) && PendingDb(s.db, id).Ok? &&
             db == PendingDb(s.db, id).value.0
    ensures Sound(s.(db := db), n) && db.deferred == s.db.deferred && PendingDb(s.db, id).value.1 == db.pending
    ensures db == s.db || (s.db.pending == None && db.pending.Some? && db.pending.value.id == id)
    ensures LedgerInv(s.db)
  {
    assert LookInto(s);
    var t := s.(db := db);
    FreezeKeeps(s, id, t);
    FreezeFrame(s.db, id);
    PendingOutcome(s.db, id);
    StandsLonger(s.panel, s.origin, Chain(s), Chain(t), n);
    IsSound(t, n);
  }

  lemma StandsLonger(panel: Panel, origin: string, chain: seq<Report>, more: seq<Report>, n: nat)
    requires StandsAt(panel, origin, chain, n) && chain <= more
    ensures StandsAt(panel, origin, more, n)
  {
    assert more[..n] == chain[..n];
  }

  lemma ConfirmedIdsStayUsed(s: State, t: State, ids: nat -> string, n: nat)
    requires UnusedIds(s, ids, n) && s.db.pending.Some? && t.origin == s.origin && t.db.pending == None
    requires |t.log| == |s.log| + 1 && t.log[..|s.log|] == s.log && SameBytes(t.log[|s.log|], s.db.pending.value)
    ensures UnusedIds(t, ids, n)
  {
    assert LookAtIds(s);
    forall i: nat | i >= n ensures NewId(t, ids(i)) {
      forall r | r in Chain(t) ensures r.id != ids(i) {
        if r !in s.log { assert s.db.pending.value in Chain(s); }
      }
    }
  }

  lemma NextIdIsNew(s: State, ids: nat -> string, n: nat)
    requires UnusedIds(s, ids, n)
    ensures IsReportId(ids(n)) && NewId(s, ids(n))
  {
    assert LookAtIds(s);
  }

  lemma FrozenIdIsUsed(s: State, t: State, ids: nat -> string, n: nat)
    requires UnusedIds(s, ids, n) && t.origin == s.origin && t.log == s.log
    requires t.db == s.db || (s.db.pending == None && (t.db.pending.Some? ==> t.db.pending.value.id == ids(n)))
    ensures UnusedIds(t, ids, n + 1)
  {
    assert LookAtIds(s);
    forall i: nat | i >= n + 1 ensures NewId(t, ids(i)) {
      assert ids(i) != ids(n);
    }
  }

  // ---------------------------------------------------------------- rounds of the sending loop

  /** Confirming that report completes a round without traffic. */
  lemma RoundDone(db: Db, o: Origin, receipt: Receipt, now: int, next: Db)
    requires FrozenFrom(db, o) && LedgerInv(o.db) && ConfirmDb(db, db.pending.value.id, receipt, now) == Ok(next)
    ensures P.Quiet(o.db, next, F.Step(o.id, receipt, now, [], db.deferred, []))
  {
    F.FreezeIs(o.db, o.id);
    var s := F.Step(o.id, receipt, now, [], db.deferred, []);
    assert F.Busy(PendingDb(o.db, o.id).value.0, s) == db;
  }

  lemma RoundsGrow(dbs: seq<Db>, steps: seq<F.Step>, next: Db, s: F.Step)
    requires P.QuietRounds(dbs, steps) && P.Quiet(dbs[|steps|], next, s)
    ensures P.QuietRounds(dbs + [next], steps + [s])
  {
  }

  lemma ChronicleGrows(o: Option<Origin>, at: Option<Origin>, dbs: seq<Db>, steps: seq<F.Step>, last: Db, sent: int,
                       db: Db, receipt: Receipt, now: int, next: Db) returns (dbs2: seq<Db>, steps2: seq<F.Step>)
    requires Chronicle(o, dbs, steps, last, sent) && FrozenAt(o, at, db, last) && db.pending.Some?
    requires ConfirmDb(db, db.pending.value.id, receipt, now) == Ok(next)
    ensures Chronicle(o, dbs2, steps2, next, sent + 1)
  {
    dbs2, steps2 := dbs, steps;
    if o.Some? {
      var s := F.Step(at.value.id, receipt, now, [], db.deferred, []);
      RoundDone(db, at.value, receipt, now, next);
      RoundsGrow(dbs, steps, next, s);
      dbs2, steps2 := dbs + [next], steps + [s];
    }
  }

  lemma CycleCompletes(start: Db, report: Option<Report>, o: Option<Origin>, before: nat, db: Db, after: nat,
                       dbs: seq<Db>,
                       steps: seq<F.Step>)
    requires db.pending == None && before <= after <= before + AtLeastOne(BatchesFor(|start.totals.Keys|))
    requires db.totals == map[] || after == before + AtLeastOne(BatchesFor(|start.totals.Keys|))
    requires start.pending == None && report.Some? ==>
               o.Some? && o.value.db == start && Chronicle(o, dbs, steps, db, after - before)
    requires start.pending == None && report == None ==>
               dbs == [start] && steps == [] && after == before && start.totals == map[] && db.totals == map[]
    ensures Completed(start, before, db, after, dbs, steps)
  {
  }

  /** A quiet cycle that began with nothing frozen and whose sums fit has reported everything owed at its start, and
      left nothing, exactly when the stretches of the walk take no more reports than were planned. */
  lemma CycleReportsAll(start: Db, before: nat, db: Db, after: nat, dbs: seq<Db>, steps: seq<F.Step>)
    requires Completed(start, before, db, after, dbs, steps) && start.pending == None
    requires LedgerInv(start) && F.SumFits(start.totals)
    ensures db.totals == map[] <==> Planned(P.Ahead(start)) <= BatchesFor(|start.totals.Keys|)
  {
    P.EmptyWalk(start);
    P.QuietCycle(dbs, steps);
    if start.totals == map[] { assert |start.totals.Keys| == 0; }
    P.PlanIsEnough(dbs, steps);
  }

  /** A cycle that stops at its limit leaves one cycle fewer to go; one that does not is the last. */
  lemma NextCycles(lost: int, first: bool, cycles: nat, left: int, clear: bool)
    requires Nearer(lost, first, cycles, left, clear)
    ensures left > 100 ==> Nearer(lost, first, cycles + 1, left - 100, true)
    ensures left <= 100 ==>
              && cycles + 1 <= Cycles(lost) + (if first then 0 else 1)
              && (first ==> cycles + 1 == Cycles(lost))
  {
  }

  /** A cycle of a node all of whose lost reports came with a receipt. */
  lemma CycleGains(log: seq<Report>, db: Db, at: nat, settled: bool, log2: seq<Report>, db2: Db, at2: nat,
                   settled2: bool, replayed: seq<Report>, r: Outcome)
    requires CycleEnds(log, db, at, settled, log2, db2, at2, settled2, replayed, r, true)
    requires Replayable(log, at) && !Blocked(db)
    ensures log <= log2 && Gains(log, at, settled, log2, db2, at2, settled2, r)
  {
    assert LookAtEnd(r);
  }

  /** A cycle never loses what is confirmed, and does nothing where the freeze is blocked. */
  lemma CycleFrame(log: seq<Report>, db: Db, at: nat, settled: bool, log2: seq<Report>, db2: Db, at2: nat,
                   settled2: bool, replayed: seq<Report>, r: Outcome, faultless: bool)
    requires CycleEnds(log, db, at, settled, log2, db2, at2, settled2, replayed, r, faultless)
    ensures log <= log2
    ensures Blocked(db) ==> r.Failed? && log2 == log && at2 == at && db2 == db
  {
    assert LookAtEnd(r);
  }

  /** So ends a cycle that could not even begin, or whose first half has failed for a fault. */
  lemma CycleFails(log: seq<Report>, db: Db, at: nat, settled: bool, db2: Db, at2: nat, settled2: bool, r: Outcome,
                   faultless: bool)
    requires r.Failed? && (faultless ==> Blocked(db)) && (Blocked(db) ==> at2 == at && db2 == db)
    ensures CycleEnds(log, db, at, settled, log, db2, at2, settled2, [], r, faultless)
  {
  }

  lemma FinishIs(log: seq<Report>, db: Db, start: nat, j: nat, log2: seq<Report>, db2: Db, pos: nat,
                 replayed: seq<Report>, batches: int, r: Outcome, faultless: bool)
    requires Finishes(log, db, start, j, log2, db2, pos, replayed, batches, r, faultless)
    ensures log <= log2
    ensures r == Done ==>
              && db2.pending == None && pos == |log2| <= |log| + AtLeastOne(batches)
              && (db2.totals == map[] || |log2| == |log| + AtLeastOne(batches))
  {
    assert LookAtEnd(r);
  }

  /** A cycle more of the reporting task. */
  lemma CatchUpOn(before: seq<Report>, lost: int, first: bool, cycles: nat, log: seq<Report>, db: Db, at: nat,
                  clear: bool, r: Outcome, log2: seq<Report>, db2: Db, at2: nat, clear2: bool, r2: Outcome)
    requires CatchesUp(before, lost, first, cycles, log, db, at, clear, r) && r != Done
    requires Replayable(log, at) && !Blocked(db) ==> Gains(log, at, clear, log2, db2, at2, clear2, r2)
    requires Blocked(db) ==> r2.Failed? && log2 == log && at2 == at && db2 == db
    ensures CatchesUp(before, lost, first, cycles + 1, log2, db2, at2, clear2, r2)
  {
    if !Blocked(db) {
      var left := |log| - at;
      NextCycles(lost, first, cycles, left, clear);
      if !clear && |log| - at2 <= left { MovedOn(lost, first, cycles, left, |log| - at2); }
    }
  }

  /** A cycle whose merges have moved the panel on is not counted twice. */
  lemma MovedOn(lost: int, first: bool, cycles: nat, left: int, less: int)
    requires Nearer(lost, first, cycles, left, false) && less <= left
    ensures Nearer(lost, first, cycles + 1, less, true)
  {
    CyclesGrow(less, left);
  }

  lemma CyclesGrow(a: int, b: int)
    requires a <= b
    ensures Cycles(a) <= Cycles(b)
  {
  }

  lemma FrozenNext(o: Option<Origin>, before: Db, id: string, db: Db)
    requires before.pending == None && IsReportId(id) && LedgerInv(before)
    requires PendingDb(before, id) == Ok((db, db.pending)) && db.pending.Some? && db.deferred == before.deferred
    ensures FrozenFrom(db, Origin(before, id)) && FrozenAt(o, Some(Origin(before, id)), db, before)
  {
  }

  lemma FewerIds(s: State, ids: nat -> string, n: nat, m: nat)
    requires UnusedIds(s, ids, n) && n <= m
    ensures UnusedIds(s, ids, m)
  {
    assert LookAtIds(s);
  }

  lemma SameIds(s: State, t: State, ids: nat -> string, n: nat)
    requires UnusedIds(s, ids, n) && t.origin == s.origin && t.log == s.log && t.db.pending == s.db.pending
    ensures UnusedIds(t, ids, n)
  {
    assert LookAtIds(s);
  }
}
