/** The store object: one method per operation, each a transaction on the database file. */
module NodeStore {
  import opened Wrappers
  import opened TotalsKeys
  import opened TrafficReports
  import opened DeferredReceipts
  import B = DeferredBook
  import opened TrafficStore

  class Store {
    var db: Db
    var queue: seq<Request>
    var writing: bool

    constructor ()
      ensures db == EMPTY_DB && queue == [] && !writing
    {
      db, queue, writing := EMPTY_DB, [], false;
    }

    method NeedsInitialization() returns (needed: bool)
      ensures needed <==> !InUse(db)
      ensures forall id :: id == "" || IsReportId(id) ==> (needed <==> InitializeDb(db, id).Ok?)
    {
      needed := !db.initialized && db.confirmed == None && db.pending == None && First(db.totals.Keys) == None;
    }

    method Initialize(id: string) returns (r: Result<(), string>)
      modifies this`db
      ensures r.Ok? <==> InitializeDb(old(db), id).Ok?
      ensures db == if r.Ok? then InitializeDb(old(db), id).value else old(db)
      ensures r.Ok? <==>
                && (id == "" || IsReportId(id)) && !old(db).initialized && old(db).confirmed == None
                && old(db).pending == None && old(db).totals == map[]
      ensures r.Ok? ==> db == old(db).(confirmed := Some(id), initialized := true)
    {
      if id != "" && !IsReportId(id) {
        return Err("invalid initial traffic confirmation");
      }
      if db.initialized || db.confirmed.Some? || db.pending.Some? || First(db.totals.Keys).Some? {
        return Err("traffic state is already in use");
      }
      db := db.(confirmed := Some(id), initialized := true);
      r := Ok(());
    }

    method Confirmed() returns (id: string)
      ensures id == ConfirmedId(db)
    {
      id := db.confirmed.GetOr("");
    }

    /** Answered is a report of the history that is valid, follows the id and has a receipt, if nothing about it awaits
        merging; with the confirmation in force, if its record is still there. */
    method RecoverAfter(id: string) returns (r: Result<Report, string>)
      ensures r == RecoverDb(db, id)
      ensures r.Ok? <==>
                && id in db.history && ValidReport(db.history[id])
                && db.history[id].previous == id && db.history[id].receipt != Text("")
                && (db.history[id].id in db.deferred ==> db.deferred[db.history[id].id].proofs == [])
      ensures r.Ok? ==>
                var report := db.history[id];
                && r.value == report.(receipt := r.value.receipt)
                && r.value.receipt ==
                     if report.id in db.deferred then db.deferred[report.id].confirmation else report.receipt
    {
      if id !in db.history {
        return Err("required confirmed report is unavailable locally");
      }
      var report := db.history[id];
      var valid := ValidateReport(report);
      if !valid {
        return Err("invalid pending traffic report");
      }
      if report.previous != id || report.receipt == NO_RECEIPT {
        return Err("invalid confirmed traffic history");
      }
      if report.id in db.deferred {
        var held := db.deferred[report.id];
        if held.proofs != [] {
          return Err("deferred traffic receipts require reconciliation");
        }
        report := report.(receipt := held.confirmation);
      }
      r := Ok(report);
    }

    /** The part of `Record` before the wait: screen the arguments, queue, and start a writer if none runs. Nothing is
        done for an empty record; refused are a user or a number below its range, a sum outside int64, more than one
        identity and a long one. */
    method Submit(uid: int, upload: int, download: int, identity: seq<string>) returns (screened: Screened, spawn: bool)
      modifies this`queue, this`writing
      ensures screened == Screen(uid, upload, download, identity)
      ensures screened == Nothing <==> uid > 0 && upload == 0 && download == 0
      ensures screened.Queue? <==>
                && uid > 0 && upload >= 0 && download >= 0 && 0 < upload + download <= MAX_INT64
                && (identity == [] || (|identity| == 1 && |identity[0]| <= 40))
      ensures screened.Queue? ==>
                && screened.request.key.uid == uid
                && screened.request.key.identity == (if identity == [] then "" else identity[0])
                && screened.request.add.up == upload && screened.request.add.down == download
      ensures queue == if screened.Queue? then old(queue) + [screened.request] else old(queue)
      ensures writing == (old(writing) || screened.Queue?)
      ensures spawn == (screened.Queue? && !old(writing))
    {
      screened, spawn := Nothing, false;
      if uid <= 0 || upload < 0 || download < 0 || upload > MAX_INT64 - download {
        return Refused("invalid traffic record"), false;
      }
      if upload == 0 && download == 0 {
        return;
      }
      if |identity| > 1 || (|identity| == 1 && |identity[0]| > 40) {
        return Refused("invalid traffic identity"), false;
      }
      var request := Request(Key(uid, if |identity| == 1 then identity[0] else ""), Amount(upload, download));
      queue := queue + [request];
      if !writing {
        writing, spawn := true, true;
      }
      screened := Queue(request);
    }

    /** One round of `writeRecords`: stop on an empty queue, else put the whole queue into one commit.
        `commits` is whether the database accepts the commit. */
    method WriteRound(commits: bool) returns (batch: seq<Request>, outcomes: seq<Option<string>>)
      modifies this
      ensures batch == old(queue) && queue == []
      ensures writing == (old(writing) && batch != [])
      ensures commits ==> (db.totals, outcomes) == RecordSingly(old(db).totals, batch)
      ensures !commits ==>
                db == old(db) && |outcomes| == |batch| && forall o :: o in outcomes ==> o == Some("commit failed")
      ensures db == old(db).(totals := db.totals)
      ensures commits ==> |outcomes| == |batch| && Books(old(db).totals, batch, outcomes, db.totals)
      ensures commits ==> forall i: nat :: i < |batch| ==>
                            (outcomes[i] == None <==> HasRoom(old(db).totals, batch, outcomes, i))
    {
      batch, outcomes := queue, [];
      if |queue| == 0 {
        writing := false;
        return;
      }
      queue := [];
      var totals := db.totals;
      for i := 0 to |batch|
        invariant (totals, outcomes) == RecordSingly(db.totals, batch[..i])
      {
        var q := batch[i];
        assert batch[..i + 1][..i] == batch[..i];
        var have := At(totals, q.key);
        if q.add.up > MAX_INT64 - have.up || q.add.down > MAX_INT64 - have.down {
          outcomes := outcomes + [Some("traffic counter overflow")];
        } else {
          totals := totals[q.key := Amount(have.up + q.add.up, have.down + q.add.down)];
          outcomes := outcomes + [None];
        }
      }
      TakeAll(batch);
      if commits {
        BatchBooks(db.totals, batch);
        forall i: nat | i < |batch| ensures outcomes[i] == None <==> HasRoom(db.totals, batch, outcomes, i) {
          BatchRefuses(db.totals, batch, i);
        }
        db := db.(totals := totals);
      } else {
        outcomes := seq(|batch|, _ => Some("commit failed"));
      }
    }

    /** `Pending`, with the random report id as a parameter. */
    method Pending(id: string) returns (r: Result<Option<Report>, string>)
      modifies this`db
      ensures var spec := PendingDb(old(db), id);
              if spec.Err? then r.Err? && db == old(db)
              else r == Ok(spec.value.1) && db == spec.value.0
    {
      if db.pending.Some? {
        var valid := ValidateReport(db.pending.value);
        if !valid {
          return Err("invalid pending traffic report");
        }
        if db.pending.value.previous != ConfirmedId(db) {
          return Err("pending traffic report does not follow confirmation");
        }
        return Ok(db.pending);
      }
      var totals := db.totals;
      var start: Option<Key> := None;
      if db.cursor.Some? {
        start := Next(totals.Keys, db.cursor.value);
      } else {
        start := First(totals.Keys);
      }
      if start == None {
        start := First(totals.Keys);
      }
      if start == None {
        return Ok(None);
      }
      var scanned := ScanTotals(totals, start.value);
      if scanned.Err? {
        return Err(scanned.error);
      }
      var (usage, lastKey) := scanned.value;
      if usage == [] {
        return Ok(None);
      }
      var report := Report(id, ConfirmedId(db), SortByUid(usage), NO_RECEIPT, NO_RECEIPT);
      var sound := ValidateReport(report);
      if !sound {
        return Err("invalid pending traffic report");
      }
      db := db.(cursor := Some(lastKey), pending := Some(report));
      r := Ok(Some(report));
    }

    method PendingBatches() returns (n: int)
      ensures n == BatchesFor(|db.totals.Keys|)
      ensures 1000 * (n - 1) < |db.totals.Keys| <= 1000 * n
    {
      n := (|db.totals.Keys| + MAX_REPORT_USERS - 1) / MAX_REPORT_USERS;
    }

    method Confirm(id: string, receipt: Receipt, now: int) returns (r: Result<(), string>)
      modifies this`db
      ensures var spec := ConfirmDb(old(db), id, receipt, now);
              (r.Ok? <==> spec.Ok?) && db == if spec.Ok? then spec.value else old(db)
    {
      if db.pending == None || db.pending.value.id != id {
        return Err("traffic confirmation does not match pending report");
      }
      var report := db.pending.value;
      var valid := ValidateReport(report);
      if !valid {
        return Err("invalid pending traffic report");
      }
      if report.previous != ConfirmedId(db) {
        return Err("pending traffic report does not follow confirmation");
      }
      var history, deferred := db.history, db.deferred;
      if receipt != NO_RECEIPT {
        var held := B.RememberDeferred(db.deferred, report, receipt, now);
        if held.Err? {
          return Err(held.error);
        }
        deferred := held.value;
        history := history[report.previous := report.(receipt := receipt)];
      }
      var rest := SubtractRows(db.totals, report.data);
      if rest == None {
        return Err("traffic totals do not cover pending report");
      }
      db := db.(totals := rest.value, pending := None, confirmed := Some(id), deferred := deferred, history := history);
      r := Ok(());
    }

    method RememberDeferred(report: Report, receipt: Receipt, now: int) returns (r: Result<(), string>)
      modifies this`db
      ensures var spec := RememberDb(old(db), report, receipt, now);
              (r.Ok? <==> spec.Ok?) && db == if spec.Ok? then spec.value else old(db)
    {
      var held := B.RememberDeferred(db.deferred, report, receipt, now);
      if held.Err? {
        return Err(held.error);
      }
      db := db.(deferred := held.value);
      r := Ok(());
    }

    method RememberDeferredConfirmation(id: string, receipt: Receipt, now: int) returns (r: Result<(), string>)
      modifies this`db
      ensures var spec := RememberProgressDb(old(db), id, receipt, now);
              (r.Ok? <==> spec.Ok?) && db == if spec.Ok? then spec.value else old(db)
    {
      var ack := ReadAck(receipt);
      if ack.Err? {
        return Err(ack.error);
      }
      if ack.value == None {
        return Ok(());
      }
      if ack.value.value.id != id {
        return Err("traffic progress does not match deferred confirmation");
      }
      if ack.value.value.previous !in db.history {
        return Ok(());
      }
      r := RememberDeferred(db.history[ack.value.value.previous], receipt, now);
    }

    /** What the merging loop submits next: the record's report with the confirmation in force and the
        first outstanding one. */
    method DeferredMerge() returns (report: Option<Report>, id: string)
      ensures report == None ==> forall k :: k in db.deferred ==> db.deferred[k].proofs == []
      ensures report.Some? ==>
                && id in db.deferred && db.deferred[id].proofs != []
                && report.value == B.MergeReport(db.deferred[id]).(reconcile := db.deferred[id].proofs[0])
                && report.value.receipt == db.deferred[id].confirmation
                && report.value.id == db.deferred[id].report.id
                && report.value.previous == db.deferred[id].report.previous
                && report.value.data == db.deferred[id].report.data
                && forall k :: k in db.deferred && LexLess(k, id) ==> db.deferred[k].proofs == []
    {
      var first := B.DeferredMerge(db.deferred);
      if first == None {
        return None, "";
      }
      var held := db.deferred[first.value];
      return Some(held.report.(receipt := held.confirmation, reconcile := held.proofs[0])), first.value;
    }
  }

  /** The write loop of `Confirm`. */
  method SubtractRows(totals: Totals, data: seq<Usage>) returns (rest: Option<Totals>)
    ensures rest == Subtract(totals, data)
  {
    var left := totals;
    for i := 0 to |data|
      invariant Subtract(totals, data[..i]) == Some(left)
    {
      var u := data[i];
      TakeTake(data, i + 1, i);
      var have := At(left, KeyOf(u));
      if have.up < u.up || have.down < u.down {
        SubtractStuck(totals, data, i + 1);
        return None;
      }
      if have.up == u.up && have.down == u.down {
        left := left - {KeyOf(u)};
      } else {
        left := left[KeyOf(u) := Amount(have.up - u.up, have.down - u.down)];
      }
    }
    TakeAll(data);
    rest := Some(left);
  }

  /** What the scan loop knows of the rows taken so far. */
  ghost predicate Scanned(totals: Totals, run: seq<Key>, usage: seq<Usage>, total: int, seen: set<int>) {
    && usage == Usages(totals, run) && total == RunTotal(totals, run)
    && forall uid :: uid in seen <==> SeenUid(run, uid)
  }

  lemma ScannedMore(totals: Totals, run: seq<Key>, usage: seq<Usage>, total: int, seen: set<int>, key: Key)
    requires Scanned(totals, run, usage, total, seen)
    ensures Scanned(totals, run + [key], usage + [UsageAt(totals, key)],
                    total + (At(totals, key).up + At(totals, key).down), seen + {key.uid})
  {
    var more := usage + [UsageAt(totals, key)];
    assert Usages(totals, run + [key]) == more;
    assert more[..|more| - 1] == usage;
    assert SeenUid(run + [key], key.uid) by { assert key in run + [key]; }
    forall uid | SeenUid(run, uid) ensures SeenUid(run + [key], uid) {
      var k :| k in run && k.uid == uid;
      assert k in run + [key];
    }
  }

  /** The scan loop of `Pending`: rows taken, and the key the cursor will stand on. */
  method ScanTotals(totals: Totals, first: Key) returns (r: Result<(seq<Usage>, Key), string>)
    requires first in totals
    ensures match Scan(totals, first, first, [])
            case Err(e) => r == Err(e)
            case Ok(run) => r.Ok? && r.value.0 == Usages(totals, run) && (run != [] ==> r.value.1 == run[|run| - 1])
  {
    var usage: seq<Usage>, total, seen: set<int> := [], 0, {};
    var key, lastKey, more := first, first, true;
    ghost var run: seq<Key> := [];
    while more
      invariant key in totals && Scanned(totals, run, usage, total, seen)
      invariant run != [] ==> lastKey == run[|run| - 1]
      invariant Scan(totals, first, first, []) == if more then Scan(totals, first, key, run) else Ok(run)
      decreases more, totals.Keys - (set k | k in run)
    {
      var amount := At(totals, key);
      if key.uid <= 0 || |key.identity| > 40 || amount.up < 0 || amount.down < 0 ||
        amount.up > MAX_INT64 - amount.down {
        return Err("traffic counter overflow");
      }
      if key.uid in seen || total > MAX_INT64 - amount.up - amount.down {
        more := false;
      } else {
        ScannedMore(totals, run, usage, total, seen, key);
        assert key !in run && key in totals.Keys - (set k | k in run);
        total := total + (amount.up + amount.down);
        usage := usage + [Usage(key.uid, amount.up, amount.down, key.identity)];
        seen, lastKey := seen + {key.uid}, key;
        run := run + [key];
        if |usage| == MAX_REPORT_USERS {
          more := false;
        } else {
          var next := Next(totals.Keys, key);
          if next == None {
            next := First(totals.Keys);
          }
          key := next.value;
          if key == first {
            more := false;
          }
        }
      }
    }
    r := Ok((usage, lastKey));
  }

  /** A row that cannot be subtracted stops the whole confirmation. */
  lemma {:induction false} SubtractStuck(totals: Totals, data: seq<Usage>, n: nat)
    requires n <= |data| && Subtract(totals, data[..n]) == None
    ensures Subtract(totals, data) == None
    decreases |data| - n
  {
    if n < |data| {
      TakeTake(data, n + 1, n);
      SubtractStuck(totals, data, n + 1);
    } else {
      assert data[..n] == data;
    }
  }
}
