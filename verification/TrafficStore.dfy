/** The node's traffic ledger: totals per account, one frozen report at a time, and the history of
    confirmed reports. `Db` is the content of the database file; every method is one transaction. */
module TrafficStore {
  import opened Wrappers
  import opened TotalsKeys
  import opened TrafficReports
  import opened DeferredReceipts
  import opened DeferredBook

  type Totals = map<Key, Amount>

  /** `history` holds under each report id the confirmed report that followed it ("after:" keys). */
  datatype Db = Db(totals: Totals, pending: Option<Report>, cursor: Option<Key>, confirmed: Option<string>,
                   initialized: bool, history: map<string, Report>, deferred: Records)

  const EMPTY_DB: Db := Db(map[], None, None, None, false, map[], map[])

  function ConfirmedId(db: Db): string { db.confirmed.GetOr("") }

  function KeyOf(u: Usage): Key { Key(u.uid, u.identity) }

  function At(totals: Totals, k: Key): Amount {
    if k in totals then totals[k] else Amount(0, 0)
  }

  function Plus(a: Amount, b: Amount): Amount { Amount(a.up + b.up, a.down + b.down) }

  function Minus(a: Amount, b: Amount): Amount { Amount(a.up - b.up, a.down - b.down) }

  predicate AtMost(a: Amount, b: Amount) { a.up <= b.up && a.down <= b.down }

  // ---------------------------------------------------------------- recording

  datatype Request = Request(key: Key, add: Amount)

  /** What `Record` does before it queues anything. */
  datatype Screened = Refused(error: string) | Nothing | Queue(request: Request)

  function Screen(uid: int, upload: int, download: int, identity: seq<string>): Screened {
    if uid <= 0 || upload < 0 || download < 0 || upload > MAX_INT64 - download then Refused("invalid traffic record")
    else if upload == 0 && download == 0 then Nothing
    else if |identity| > 1 || (|identity| == 1 && |identity[0]| > 40) then Refused("invalid traffic identity")
    else Queue(Request(Key(uid, if |identity| == 1 then identity[0] else ""), Amount(upload, download)))
  }

  predicate Overflows(totals: Totals, q: Request) {
    q.add.up > MAX_INT64 - At(totals, q.key).up || q.add.down > MAX_INT64 - At(totals, q.key).down
  }

  /** One request applied on its own: refused without effect when a counter would overflow. */
  function RecordOne(totals: Totals, q: Request): (Totals, Option<string>) {
    if Overflows(totals, q) then (totals, Some("traffic counter overflow"))
    else (totals[q.key := Plus(At(totals, q.key), q.add)], None)
  }

  /** Requests applied one after the other, each in a transaction of its own. */
  function RecordSingly(totals: Totals, batch: seq<Request>): (Totals, seq<Option<string>>)
    ensures |RecordSingly(totals, batch).1| == |batch|
  {
    if batch == [] then (totals, [])
    else
      var (before, outcomes) := RecordSingly(totals, batch[..|batch| - 1]);
      var (after, outcome) := RecordOne(before, batch[|batch| - 1]);
      (after, outcomes + [outcome])
  }

  /** A request is refused exactly when a counter of its account would leave int64; else just its two numbers are
      added, each to its own counter. */
  lemma RecordOneIs(totals: Totals, q: Request)
    ensures var (more, outcome) := RecordOne(totals, q);
            var have := At(totals, q.key);
            && (outcome == None <==> have.up + q.add.up <= MAX_INT64 && have.down + q.add.down <= MAX_INT64)
            && (outcome == None ==>
                  && q.key in more
                  && more[q.key].up == have.up + q.add.up && more[q.key].down == have.down + q.add.down)
            && more - {q.key} == totals - {q.key} && (outcome.Some? ==> more == totals)
  {
  }

  /** What a batch adds to one counter of an account: the numbers of the requests that were not refused. */
  function Booked(batch: seq<Request>, outcomes: seq<Option<string>>, k: Key, up: bool): int
    requires |outcomes| == |batch|
  {
    if batch == [] then 0
    else
      var n := |batch| - 1;
      Booked(batch[..n], outcomes[..n], k, up) +
      if outcomes[n] != None || batch[n].key != k then 0 else if up then batch[n].add.up else batch[n].add.down
  }

  /** Every account holds what it held and what the batch adds. */
  ghost predicate Books(before: Totals, batch: seq<Request>, outcomes: seq<Option<string>>, after: Totals)
    requires |outcomes| == |batch|
  {
    forall k ::
      && At(after, k).up == At(before, k).up + Booked(batch, outcomes, k, true)
      && At(after, k).down == At(before, k).down + Booked(batch, outcomes, k, false)
  }

  /** Request `i` fits in both counters of its account, on top of what the requests before it add. */
  predicate HasRoom(before: Totals, batch: seq<Request>, outcomes: seq<Option<string>>, i: nat)
    requires i < |batch| == |outcomes|
  {
    var q := batch[i];
    && At(before, q.key).up + Booked(batch[..i], outcomes[..i], q.key, true) + q.add.up <= MAX_INT64
    && At(before, q.key).down + Booked(batch[..i], outcomes[..i], q.key, false) + q.add.down <= MAX_INT64
  }

  lemma RecordOneAt(totals: Totals, q: Request, k: Key)
    ensures var (more, outcome) := RecordOne(totals, q);
            && At(more, k).up == At(totals, k).up + (if outcome == None && k == q.key then q.add.up else 0)
            && At(more, k).down == At(totals, k).down + (if outcome == None && k == q.key then q.add.down else 0)
  {
    RecordOneIs(totals, q);
  }

  lemma {:induction false} BatchBooks(totals: Totals, batch: seq<Request>)
    ensures var (more, outcomes) := RecordSingly(totals, batch); Books(totals, batch, outcomes, more)
  {
    if batch != [] {
      var n := |batch| - 1;
      var (before, outcomes) := RecordSingly(totals, batch[..n]);
      BatchBooks(totals, batch[..n]);
      InitSnoc(outcomes, RecordOne(before, batch[n]).1);
      forall k
        ensures At(RecordSingly(totals, batch).0, k).up ==
                  At(totals, k).up + Booked(batch, RecordSingly(totals, batch).1, k, true)
        ensures At(RecordSingly(totals, batch).0, k).down ==
                  At(totals, k).down + Booked(batch, RecordSingly(totals, batch).1, k, false)
      {
        RecordOneAt(before, batch[n], k);
      }
    }
  }

  /** A request in a batch is refused exactly when it does not fit on top of those before it. */
  lemma {:induction false} BatchRefuses(totals: Totals, batch: seq<Request>, i: nat)
    requires i < |batch|
    ensures var outcomes := RecordSingly(totals, batch).1; outcomes[i] == None <==> HasRoom(totals, batch, outcomes, i)
  {
    var n := |batch| - 1;
    var (before, outcomes) := RecordSingly(totals, batch[..n]);
    var outcome := RecordOne(before, batch[n]).1;
    InitSnoc(outcomes, outcome);
    if i == n {
      BatchBooks(totals, batch[..n]);
      RecordOneIs(before, batch[n]);
    } else {
      BatchRefuses(totals, batch[..n], i);
      TakeTake(batch, n, i);
      TakeTake(outcomes + [outcome], n, i);
    }
  }

  // ---------------------------------------------------------------- freezing a report

  function UsageAt(totals: Totals, k: Key): Usage {
    Usage(k.uid, At(totals, k).up, At(totals, k).down, k.identity)
  }

  function Usages(totals: Totals, run: seq<Key>): seq<Usage> {
    seq(|run|, i requires 0 <= i < |run| => UsageAt(totals, run[i]))
  }

  /** A stored row the scan refuses to read: a malformed key, or counters whose sum is no int64. */
  predicate Bad(totals: Totals, k: Key) {
    || k.uid <= 0 || |k.identity| > 40
    || At(totals, k).up < 0 || At(totals, k).down < 0
    || At(totals, k).up > MAX_INT64 - At(totals, k).down
  }

  predicate SeenUid(run: seq<Key>, uid: int) { exists k :: k in run && k.uid == uid }

  function RunTotal(totals: Totals, run: seq<Key>): int { Total(Usages(totals, run)) }

  /** The scan loop of `Pending`: take keys round the circle until a user repeats, the sum would
      overflow, the report is full or the walk is back where it began. */
  function Scan(totals: Totals, first: Key, key: Key, run: seq<Key>): Result<seq<Key>, string>
    requires key in totals
    decreases totals.Keys - (set k | k in run)
  {
    if Bad(totals, key) then Err("traffic counter overflow")
    else if SeenUid(run, key.uid) || RunTotal(totals, run) > MAX_INT64 - At(totals, key).up - At(totals, key).down then
      Ok(run)
    else
      var more := run + [key];
      var next := Successor(totals.Keys, Some(key));
      if |more| == MAX_REPORT_USERS || next == first then Ok(more)
      else
        assert key !in run;
        assert key in totals.Keys - (set k | k in run) && key !in totals.Keys - (set k | k in more);
        Scan(totals, first, next, more)
  }

  function InsertByUid(u: Usage, sorted: seq<Usage>): seq<Usage> {
    if sorted == [] || u.uid < sorted[0].uid then [u] + sorted
    else [sorted[0]] + InsertByUid(u, sorted[1..])
  }

  /** `sort.Slice` on the user id. */
  function SortByUid(data: seq<Usage>): seq<Usage> {
    if data == [] then [] else InsertByUid(data[|data| - 1], SortByUid(data[..|data| - 1]))
  }

  function NewReport(db: Db, run: seq<Key>, id: string): Report {
    Report(id, ConfirmedId(db), SortByUid(Usages(db.totals, run)), NO_RECEIPT, NO_RECEIPT)
  }

  /** `Pending`: the frozen report if there is one, else a new one under the random id `id`. */
  function PendingDb(db: Db, id: string): Result<(Db, Option<Report>), string> {
    match db.pending
    case Some(report) =>
      if !ValidReport(report) then Err("invalid pending traffic report")
      else if report.previous != ConfirmedId(db) then Err("pending traffic report does not follow confirmation")
      else Ok((db, Some(report)))
    case None =>
      if db.totals == map[] then Ok((db, None))
      else
        var first := Successor(db.totals.Keys, db.cursor);
        match Scan(db.totals, first, first, [])
        case Err(e) => Err(e)
        case Ok(run) =>
          if run == [] then Ok((db, None))
          else
            var report := NewReport(db, run, id);
            if !ValidReport(report) then Err("invalid pending traffic report")
            else Ok((db.(cursor := Some(run[|run| - 1]), pending := Some(report)), Some(report)))
  }

  // ---------------------------------------------------------------- confirming

  /** One row of a confirmed report leaves the totals; an account that reaches zero is deleted. */
  function SubtractOne(totals: Totals, u: Usage): Option<Totals> {
    var k, have := KeyOf(u), At(totals, KeyOf(u));
    if have.up < u.up || have.down < u.down then None
    else if have.up == u.up && have.down == u.down then Some(totals - {k})
    else Some(totals[k := Amount(have.up - u.up, have.down - u.down)])
  }

  function Subtract(totals: Totals, data: seq<Usage>): Option<Totals> {
    if data == [] then Some(totals)
    else
      match Subtract(totals, data[..|data| - 1])
      case None => None
      case Some(t) => SubtractOne(t, data[|data| - 1])
  }

  function ConfirmDb(db: Db, id: string, receipt: Receipt, now: int): Result<Db, string> {
    if db.pending == None || db.pending.value.id != id then Err("traffic confirmation does not match pending report")
    else
      var report := db.pending.value;
      if !ValidReport(report) then Err("invalid pending traffic report")
      else if report.previous != ConfirmedId(db) then Err("pending traffic report does not follow confirmation")
      else
        var held := if receipt == NO_RECEIPT then Ok(db.deferred) else Remember(db.deferred, report, receipt, now);
        if held.Err? then Err(held.error)
        else
          match Subtract(db.totals, report.data)
          case None => Err("traffic totals do not cover pending report")
          case Some(rest) =>
            Ok(db.(totals := rest, pending := None, confirmed := Some(id), deferred := held.value,
                   history := if receipt == NO_RECEIPT then db.history
                              else db.history[report.previous := report.(receipt := receipt)]))
  }

  /** `RecoverAfter`: the confirmed report that followed `id`, with the disposition now in force. */
  function RecoverDb(db: Db, id: string): Result<Report, string> {
    if id !in db.history then Err("required confirmed report is unavailable locally")
    else
      var report := db.history[id];
      if !ValidReport(report) then Err("invalid pending traffic report")
      else if report.previous != id || report.receipt == NO_RECEIPT then Err("invalid confirmed traffic history")
      else if report.id !in db.deferred then Ok(report)
      else if db.deferred[report.id].proofs != [] then Err("deferred traffic receipts require reconciliation")
      else Ok(report.(receipt := db.deferred[report.id].confirmation))
  }

  predicate InUse(db: Db) {
    db.initialized || db.confirmed.Some? || db.pending.Some? || db.totals != map[]
  }

  function InitializeDb(db: Db, id: string): Result<Db, string> {
    if id != "" && !IsReportId(id) then Err("invalid initial traffic confirmation")
    else if InUse(db) then Err("traffic state is already in use")
    else Ok(db.(confirmed := Some(id), initialized := true))
  }

  function RememberDb(db: Db, report: Report, receipt: Receipt, now: int): Result<Db, string> {
    match Remember(db.deferred, report, receipt, now)
    case Err(e) => Err(e)
    case Ok(records) => Ok(db.(deferred := records))
  }

  /** `RememberDeferredConfirmation`: rebuild a lost record from the panel's last signature. */
  function RememberProgressDb(db: Db, id: string, receipt: Receipt, now: int): Result<Db, string> {
    match ReadAck(receipt)
    case Err(e) => Err(e)
    case Ok(None) => Ok(db)
    case Ok(Some(ack)) =>
      if ack.id != id then Err("traffic progress does not match deferred confirmation")
      else if ack.previous !in db.history then Ok(db)
      else RememberDb(db, db.history[ack.previous], receipt, now)
  }
}
