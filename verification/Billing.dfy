/** The reporting protocol over a lossy network: node, panel and every message either of them may still
    receive. In every run each accepted byte is billed exactly once or still owed. */
module Billing {
  import opened Wrappers
  import opened TotalsKeys
  import opened TrafficReports
  import opened DeferredReceipts
  import opened DeferredBook
  import opened TrafficStore
  import opened LedgerInvariant

  // ---------------------------------------------------------------- the panel

  /** What the panel keeps for a node: the last report it took, and what it billed. */
  datatype Panel = Panel(progress: string, billed: Totals)

  function BillRow(billed: Totals, u: Usage): Totals {
    billed[KeyOf(u) := Plus(At(billed, KeyOf(u)), Amount(u.up, u.down))]
  }

  function Bill(billed: Totals, data: seq<Usage>): Totals {
    if data == [] then billed else BillRow(Bill(billed, data[..|data| - 1]), data[|data| - 1])
  }

  /** The panel bills a report that follows its progress, acknowledges the last one again without
      billing it, and refuses every other. */
  function Handle(panel: Panel, report: Report): (Panel, bool) {
    if report.previous == panel.progress then (Panel(report.id, Bill(panel.billed, report.data)), true)
    else (panel, report.id == panel.progress)
  }

  lemma {:induction false} BillAdds(billed: Totals, data: seq<Usage>, k: Key)
    ensures At(Bill(billed, data), k) == Plus(At(billed, k), AmountIn(data, k))
  {
    if data != [] {
      var n := |data| - 1;
      BillAdds(billed, data[..n], k);
      BillRowAdds(Bill(billed, data[..n]), data[n], k);
    }
  }

  lemma BillRowAdds(billed: Totals, u: Usage, k: Key)
    ensures At(BillRow(billed, u), k) ==
              if KeyOf(u) == k then Plus(At(billed, k), Amount(u.up, u.down)) else At(billed, k)
  {
  }

  // ---------------------------------------------------------------- states

  /** `requests` are the reports the panel may still receive, any number of times and in any order;
      `replies` the acknowledgements the node may still receive; `past` the panel states a backup may
      bring back. `accepted` and `log` are history: all traffic recorded and all reports confirmed. */
  datatype State = State(db: Db, panel: Panel, past: set<Panel>, requests: set<Report>, replies: set<string>,
                         accepted: Totals, log: seq<Report>, origin: string, rolledBack: bool)

  ghost function Chain(s: State): seq<Report> {
    if s.db.pending.Some? then s.log + [s.db.pending.value] else s.log
  }

  /** The panel's progress after the first `i` reports of the chain. */
  ghost function IdAt(origin: string, chain: seq<Report>, i: nat): string
    requires i <= |chain|
  {
    if i == 0 then origin else chain[i - 1].id
  }

  ghost function Add(amounts: seq<Amount>): Amount {
    if amounts == [] then Amount(0, 0) else Plus(Add(amounts[..|amounts| - 1]), amounts[|amounts| - 1])
  }

  ghost function Each(chain: seq<Report>, k: Key): seq<Amount> {
    seq(|chain|, i requires 0 <= i < |chain| => AmountIn(chain[i].data, k))
  }

  /** What the reports of a chain say together about one account. */
  ghost function Sum(chain: seq<Report>, k: Key): Amount { Add(Each(chain, k)) }

  lemma {:induction false} AddConcat(a: seq<Amount>, b: seq<Amount>)
    ensures Add(a + b) == Plus(Add(a), Add(b))
  {
    if b == [] {
      assert a + b == a;
    } else {
      var init, last := b[..|b| - 1], b[|b| - 1];
      AddConcat(a, init);
      InitConcat(a, b);
      PlusPlus(Add(a), Add(init), last);
    }
  }

  lemma PlusPlus(a: Amount, b: Amount, c: Amount)
    ensures Plus(Plus(a, b), c) == Plus(a, Plus(b, c))
  {
  }

  lemma SumSplit(chain: seq<Report>, j: nat, k: Key)
    requires j <= |chain|
    ensures Sum(chain, k) == Plus(Sum(chain[..j], k), Sum(chain[j..], k))
  {
    assert Each(chain, k) == Each(chain[..j], k) + Each(chain[j..], k);
    AddConcat(Each(chain[..j], k), Each(chain[j..], k));
  }

  lemma SumSnoc(chain: seq<Report>, r: Report, k: Key)
    ensures Sum(chain + [r], k) == Plus(Sum(chain, k), AmountIn(r.data, k))
  {
    assert Each(chain + [r], k) == Each(chain, k) + [AmountIn(r.data, k)];
    AddConcat(Each(chain, k), [AmountIn(r.data, k)]);
    assert [AmountIn(r.data, k)][..0] == [];
  }

  predicate SameBytes(a: Report, b: Report) {
    a.id == b.id && a.previous == b.previous && a.data == b.data
  }

  ghost predicate Init(s: State) {
    && InitializeDb(EMPTY_DB, s.origin) == Ok(s.db)
    && s.panel == Panel(s.origin, map[]) && s.past == {}
    && s.requests == {} && s.replies == {} && s.accepted == map[] && s.log == [] && !s.rolledBack
  }

  // ---------------------------------------------------------------- steps

  datatype Step =
    | Record(q: Request)
    | Freeze(id: string)
    | SendPending
    | SendRecovery(after: string)
    | SendMerge(id: string)
    | Deliver(report: Report)
    | Confirm(receipt: Receipt, now: int)
    | Defer(report: Report, receipt: Receipt, now: int)
    | DeferProgress(id: string, receipt: Receipt, now: int)
    | Rollback(panel: Panel)

  /** A crash loses only what is on the way, and nothing here ever has to arrive: it needs no step. */
  ghost predicate Next(s: State, step: Step, t: State) {
    match step
    case Record(q) =>
      && GoodRequest(q)
      && t == s.(db := s.db.(totals := RecordOne(s.db.totals, q).0),
                 accepted := if RecordOne(s.db.totals, q).1 == None then RecordAccepted(s.accepted, q) else s.accepted)
    case Freeze(id) =>
      && IsReportId(id) && NewId(s, id)
      && PendingDb(s.db, id).Ok?
      && t == s.(db := PendingDb(s.db, id).value.0)
    case SendPending =>
      s.db.pending.Some? && t == s.(requests := s.requests + {s.db.pending.value})
    case SendRecovery(after) =>
      RecoverDb(s.db, after).Ok? && t == s.(requests := s.requests + {RecoverDb(s.db, after).value})
    case SendMerge(id) =>
      && id in s.db.deferred && s.db.deferred[id].proofs != []
      && t == s.(requests := s.requests + {MergeRequest(s.db.deferred[id])})
    case Deliver(report) =>
      && report in s.requests
      && var (panel, taken) := Handle(s.panel, report);
         t == s.(panel := panel, past := s.past + {s.panel},
                 replies := if taken then s.replies + {report.id} else s.replies)
    case Confirm(receipt, now) =>
      && s.db.pending.Some? && s.db.pending.value.id in s.replies
      && ConfirmDb(s.db, s.db.pending.value.id, receipt, now).Ok?
      && t == s.(db := ConfirmDb(s.db, s.db.pending.value.id, receipt, now).value,
                 log := s.log + [s.db.pending.value.(receipt := receipt)])
    case Defer(report, receipt, now) =>
      && OfChain(report, s.log)
      && RememberDb(s.db, report, receipt, now).Ok? && t == s.(db := RememberDb(s.db, report, receipt, now).value)
    case DeferProgress(id, receipt, now) =>
      RememberProgressDb(s.db, id, receipt, now).Ok? && t == s.(db := RememberProgressDb(s.db, id, receipt, now).value)
    case Rollback(panel) =>
      panel in s.past && t == s.(panel := panel, rolledBack := true)
  }

  function RecordAccepted(accepted: Totals, q: Request): Totals {
    accepted[q.key := Plus(At(accepted, q.key), q.add)]
  }

  /** What the node submits to have a record merged: a report it confirmed, with two receipts. */
  function MergeRequest(held: Held): Report
    requires held.proofs != []
  {
    MergeReport(held).(reconcile := held.proofs[0])
  }

  /** Random ids do not repeat. */
  ghost predicate NewId(s: State, id: string) {
    id != s.origin && forall r :: r in Chain(s) ==> r.id != id
  }

  // ---------------------------------------------------------------- the invariant

  ghost predicate Apart(origin: string, chain: seq<Report>, i: nat, j: nat) {
    i < j <= |chain| ==> IdAt(origin, chain, i) != IdAt(origin, chain, j)
  }

  /** Reports follow one another from `origin` and no id occurs twice. */
  ghost predicate Linked(origin: string, chain: seq<Report>) {
    && (forall i :: 0 <= i < |chain| ==> chain[i].previous == IdAt(origin, chain, i))
    && (forall i: nat, j: nat :: Apart(origin, chain, i, j))
  }

  /** The panel stands after the first `j` reports and has billed exactly those. */
  ghost predicate StandsAt(panel: Panel, origin: string, chain: seq<Report>, j: nat) {
    && j <= |chain|
    && panel.progress == IdAt(origin, chain, j)
    && forall k :: At(panel.billed, k) == Sum(chain[..j], k)
  }

  ghost predicate Stands(panel: Panel, origin: string, chain: seq<Report>) {
    exists j: nat :: StandsAt(panel, origin, chain, j)
  }

  ghost predicate OfChain(r: Report, chain: seq<Report>) {
    exists c :: c in chain && SameBytes(r, c)
  }

  ghost predicate CameWithReceipt(log: seq<Report>, i: nat) {
    i < |log| && log[i].receipt != NO_RECEIPT
  }

  /** `id` is what the confirmed report `i` followed, and the history has that report under it. */
  ghost predicate Recalls(history: map<string, Report>, origin: string, log: seq<Report>, id: string, i: nat) {
    CameWithReceipt(log, i) && id == IdAt(origin, log, i) && id in history && history[id] == log[i]
  }

  /** The history holds exactly the confirmed reports that came with a receipt, each under the id it followed. */
  ghost predicate HistoryInv(history: map<string, Report>, origin: string, log: seq<Report>) {
    && (forall id :: id in history ==> exists i: nat :: Recalls(history, origin, log, id, i))
    && (forall i: nat :: CameWithReceipt(log, i) ==> Recalls(history, origin, log, IdAt(origin, log, i), i))
  }

  ghost predicate BooksInv(s: State) {
    forall k :: At(s.accepted, k) == Plus(Sum(s.log, k), At(s.db.totals, k))
  }

  /** Where node, panel and messages stand on the one chain of reports. */
  ghost predicate ProtocolInv(s: State) {
    && ConfirmedId(s.db) == IdAt(s.origin, s.log, |s.log|)
    && Linked(s.origin, Chain(s))
    && Stands(s.panel, s.origin, Chain(s))
    && (forall p :: p in s.past ==> Stands(p, s.origin, Chain(s)))
    && (forall r :: r in s.requests ==> OfChain(r, Chain(s)))
    && HistoryInv(s.db.history, s.origin, s.log)
    && (forall r :: r in s.log ==> ValidReport(r))
  }

  /** Deferred records belong to confirmed reports. */
  ghost predicate OfLog(records: Records, log: seq<Report>) {
    forall id :: id in records ==> records[id].report.id == id && OfChain(records[id].report, log)
  }

  ghost predicate Inv(s: State) {
    LedgerInv(s.db) && ProtocolInv(s) && BooksInv(s) && OfLog(s.db.deferred, s.log)
  }

  // ---------------------------------------------------------------- the chain

  lemma LinkedPrefix(origin: string, chain: seq<Report>, n: nat)
    requires Linked(origin, chain) && n <= |chain|
    ensures Linked(origin, chain[..n])
    ensures forall i :: 0 <= i <= n ==> IdAt(origin, chain[..n], i) == IdAt(origin, chain, i)
  {
    var init := chain[..n];
    forall i | 0 <= i <= n ensures IdAt(origin, init, i) == IdAt(origin, chain, i) {
    }
    forall i: nat, j: nat ensures Apart(origin, init, i, j) {
      assert Apart(origin, chain, i, j);
    }
  }

  /** Extending the chain moves no panel state. */
  lemma StandsGrows(panel: Panel, origin: string, chain: seq<Report>, r: Report)
    requires Stands(panel, origin, chain)
    ensures Stands(panel, origin, chain + [r])
  {
    var j: nat :| StandsAt(panel, origin, chain, j);
    assert (chain + [r])[..j] == chain[..j];
    assert StandsAt(panel, origin, chain + [r], j);
  }

  /** Only bytes and ids of the chain matter to where a panel stands. */
  lemma SumSameBytes(a: seq<Report>, b: seq<Report>, k: Key)
    requires |a| == |b| && forall i :: 0 <= i < |a| ==> SameBytes(a[i], b[i])
    ensures Sum(a, k) == Sum(b, k)
  {
    assert Each(a, k) == Each(b, k);
  }

  lemma StandsSameBytes(panel: Panel, origin: string, a: seq<Report>, b: seq<Report>)
    requires |a| == |b| && forall i :: 0 <= i < |a| ==> SameBytes(a[i], b[i])
    requires Stands(panel, origin, a)
    ensures Stands(panel, origin, b)
  {
    var j: nat :| StandsAt(panel, origin, a, j);
    forall k ensures Sum(a[..j], k) == Sum(b[..j], k) {
      SumSameBytes(a[..j], b[..j], k);
    }
    assert StandsAt(panel, origin, b, j);
  }

  /** What one delivery does to a panel at position `j`: the next report advances it, the last one is
      acknowledged again, and every other is refused. */
  lemma HandleAt(panel: Panel, origin: string, chain: seq<Report>, j: nat, report: Report, i: nat)
    requires Linked(origin, chain) && StandsAt(panel, origin, chain, j)
    requires i < |chain| && SameBytes(report, chain[i])
    ensures var (next, taken) := Handle(panel, report);
            && (taken <==> i == j || i + 1 == j)
            && StandsAt(next, origin, chain, if i == j then j + 1 else j)
            && (i != j ==> next == panel)
  {
    assert report.previous == IdAt(origin, chain, i) && report.id == IdAt(origin, chain, i + 1);
    if i == j {
      StandsNext(panel, origin, chain, j, report);
    } else {
      IdsDiffer(origin, chain, i, j);
      if i + 1 != j { IdsDiffer(origin, chain, i + 1, j); }
    }
  }

  lemma IdsDiffer(origin: string, chain: seq<Report>, i: nat, j: nat)
    requires Linked(origin, chain) && i <= |chain| && j <= |chain| && i != j
    ensures IdAt(origin, chain, i) != IdAt(origin, chain, j)
  {
    var low, high := if i < j then i else j, if i < j then j else i;
    assert Apart(origin, chain, low, high);
  }

  lemma StandsNext(panel: Panel, origin: string, chain: seq<Report>, j: nat, report: Report)
    requires StandsAt(panel, origin, chain, j) && j < |chain| && SameBytes(report, chain[j])
    ensures StandsAt(Panel(report.id, Bill(panel.billed, report.data)), origin, chain, j + 1)
  {
    forall k ensures At(Bill(panel.billed, report.data), k) == Sum(chain[..j + 1], k) {
      BillAdds(panel.billed, report.data, k);
      SumNext(chain, j, k);
    }
    assert IdAt(origin, chain, j + 1) == report.id;
  }

  lemma SumNext(chain: seq<Report>, j: nat, k: Key)
    requires j < |chain|
    ensures Sum(chain[..j + 1], k) == Plus(Sum(chain[..j], k), AmountIn(chain[j].data, k))
  {
    TakeSnoc(chain, j);
    SumSnoc(chain[..j], chain[j], k);
  }

  // ---------------------------------------------------------------- every step keeps the invariant

  lemma RecordBooks(accepted: Totals, totals: Totals, q: Request, k: Key)
    requires RecordOne(totals, q).1 == None
    ensures At(RecordAccepted(accepted, q), k) == if k == q.key then Plus(At(accepted, k), q.add) else At(accepted, k)
    ensures At(RecordOne(totals, q).0, k) == if k == q.key then Plus(At(totals, k), q.add) else At(totals, k)
  {
  }

  /** The protocol does not look at the amounts still in the totals. */
  lemma TotalsDoNotMatter(s: State, t: State)
    requires ProtocolInv(s)
    requires t == s.(db := s.db.(totals := t.db.totals), accepted := t.accepted)
    ensures ProtocolInv(t)
  {
    assert Chain(t) == Chain(s);
  }

  lemma RecordKeepsBooks(s: State, q: Request, t: State)
    requires BooksInv(s) && Next(s, Record(q), t)
    ensures BooksInv(t)
  {
    forall k ensures At(t.accepted, k) == Plus(Sum(t.log, k), At(t.db.totals, k)) {
      assert At(s.accepted, k) == Plus(Sum(s.log, k), At(s.db.totals, k));
      if RecordOne(s.db.totals, q).1 == None { RecordBooks(s.accepted, s.db.totals, q, k); }
    }
  }

  lemma RecordKeeps(s: State, q: Request, t: State)
    requires Inv(s) && Next(s, Record(q), t)
    ensures Inv(t)
  {
    RecordOneKeeps(s.db, q);
    TotalsDoNotMatter(s, t);
    RecordKeepsBooks(s, q, t);
  }

  lemma LinkedGrows(origin: string, chain: seq<Report>, report: Report)
    requires Linked(origin, chain) && report.previous == IdAt(origin, chain, |chain|)
    requires report.id != origin && forall r :: r in chain ==> r.id != report.id
    ensures Linked(origin, chain + [report])
  {
    var more := chain + [report];
    forall i | 0 <= i < |more| ensures more[i].previous == IdAt(origin, more, i) {
      IdsGrow(origin, chain, report, i);
    }
    forall i: nat, j: nat ensures Apart(origin, more, i, j) {
      assert Apart(origin, chain, i, j);
      if i < j <= |more| {
        IdsGrow(origin, chain, report, i);
        if j <= |chain| { IdsGrow(origin, chain, report, j); }
      }
    }
  }

  /** The ids before a new report stay what they were, and are not the new one. */
  lemma IdsGrow(origin: string, chain: seq<Report>, report: Report, i: nat)
    requires i <= |chain| && report.id != origin && forall r :: r in chain ==> r.id != report.id
    ensures IdAt(origin, chain + [report], i) == IdAt(origin, chain, i) != report.id
  {
  }

  /** A chain one report longer keeps every message and every panel state in place. */
  lemma ChainGrows(s: State, report: Report)
    requires Stands(s.panel, s.origin, s.log)
    requires forall p :: p in s.past ==> Stands(p, s.origin, s.log)
    requires forall r :: r in s.requests ==> OfChain(r, s.log)
    ensures Stands(s.panel, s.origin, s.log + [report])
    ensures forall p :: p in s.past ==> Stands(p, s.origin, s.log + [report])
    ensures forall r :: r in s.requests ==> OfChain(r, s.log + [report])
  {
    StandsGrows(s.panel, s.origin, s.log, report);
    forall p | p in s.past ensures Stands(p, s.origin, s.log + [report]) {
      StandsGrows(p, s.origin, s.log, report);
    }
    forall r | r in s.requests ensures OfChain(r, s.log + [report]) {
      var c :| c in s.log && SameBytes(r, c);
      assert c in s.log + [report];
    }
  }

  lemma FreezeKeeps(s: State, id: string, t: State)
    requires Inv(s) && Next(s, Freeze(id), t)
    ensures Inv(t)
  {
    PendingOutcome(s.db, id);
    if s.db.pending == None && t.db.pending.Some? {
      var report := t.db.pending.value;
      assert report.previous == ConfirmedId(s.db) && report.id == id;
      LinkedGrows(s.origin, s.log, report);
      ChainGrows(s, report);
      assert Chain(t) == s.log + [report];
    } else {
      assert t == s;
    }
  }

  lemma SendKeeps(s: State, report: Report, t: State)
    requires Inv(s) && OfChain(report, Chain(s)) && t == s.(requests := s.requests + {report})
    ensures Inv(t)
  {
    assert Chain(t) == Chain(s);
  }

  lemma RecoveryIsOfChain(s: State, after: string)
    requires Inv(s) && RecoverDb(s.db, after).Ok?
    ensures OfChain(RecoverDb(s.db, after).value, Chain(s))
  {
    var i: nat :| Recalls(s.db.history, s.origin, s.log, after, i);
    assert s.log[i] in Chain(s) && SameBytes(RecoverDb(s.db, after).value, s.log[i]);
  }

  lemma MergeIsOfChain(s: State, id: string)
    requires Inv(s) && id in s.db.deferred && s.db.deferred[id].proofs != []
    ensures OfChain(MergeRequest(s.db.deferred[id]), Chain(s))
  {
    var c :| c in s.log && SameBytes(s.db.deferred[id].report, c);
    assert c in Chain(s);
  }

  // ---------------------------------------------------------------- deferred records

  /** Remembering a receipt touches the record of its report and leaves every record with its report. */
  lemma RememberedReports(records: Records, report: Report, receipt: Receipt, now: int)
    requires Remember(records, report, receipt, now).Ok?
    ensures var next := Remember(records, report, receipt, now).value;
            forall id :: id in next ==>
              || (id in records && SameBytes(next[id].report, records[id].report))
              || (id == report.id && id !in records && SameBytes(next[id].report, report))
  {
    if HasAck(receipt) && report.id in records {
      FoldReport(Stamped(records[report.id], now), report, receipt);
    }
  }

  lemma OfLogGrows(records: Records, log: seq<Report>, r: Report)
    requires OfLog(records, log)
    ensures OfLog(records, log + [r])
  {
    forall id | id in records ensures OfChain(records[id].report, log + [r]) {
      var c :| c in log && SameBytes(records[id].report, c);
      assert c in log + [r];
    }
  }

  lemma RememberKeepsOfLog(records: Records, log: seq<Report>, report: Report, receipt: Receipt, now: int)
    requires OfLog(records, log) && OfChain(report, log) && Remember(records, report, receipt, now).Ok?
    ensures OfLog(Remember(records, report, receipt, now).value, log)
  {
    var next := Remember(records, report, receipt, now).value;
    RememberedReports(records, report, receipt, now);
    forall id | id in next ensures next[id].report.id == id && OfChain(next[id].report, log) {
      var of := if id in records then records[id].report else report;
      var c :| c in log && SameBytes(of, c);
      assert SameBytes(next[id].report, c);
    }
  }

  lemma HistoryReportIs(history: map<string, Report>, origin: string, log: seq<Report>, id: string)
    requires HistoryInv(history, origin, log) && id in history
    ensures OfChain(history[id], log)
  {
    var i: nat :| Recalls(history, origin, log, id, i);
    assert log[i] in log;
  }

  lemma ProgressKeepsOfLog(s: State, id: string, receipt: Receipt, now: int)
    requires Inv(s) && RememberProgressDb(s.db, id, receipt, now).Ok?
    ensures OfLog(RememberProgressDb(s.db, id, receipt, now).value.deferred, s.log)
  {
    if HasAck(receipt) && receipt.ack.previous in s.db.history {
      HistoryReportIs(s.db.history, s.origin, s.log, receipt.ack.previous);
      RememberKeepsOfLog(s.db.deferred, s.log, s.db.history[receipt.ack.previous], receipt, now);
    }
  }

  lemma ConfirmKeepsOfLog(db: Db, log: seq<Report>, receipt: Receipt, now: int)
    requires db.pending.Some? && OfLog(db.deferred, log) && ConfirmDb(db, db.pending.value.id, receipt, now).Ok?
    ensures OfLog(ConfirmDb(db, db.pending.value.id, receipt, now).value.deferred, log +
                  [db.pending.value.(receipt := receipt)])
  {
    var confirmed := db.pending.value.(receipt := receipt);
    OfLogGrows(db.deferred, log, confirmed);
    if receipt != NO_RECEIPT {
      assert OfChain(db.pending.value, log + [confirmed]) by {
        assert confirmed in log + [confirmed] && SameBytes(db.pending.value, confirmed);
      }
      RememberKeepsOfLog(db.deferred, log + [confirmed], db.pending.value, receipt, now);
    }
  }

  // ---------------------------------------------------------------- delivery and confirmation

  lemma PlaceInChain(report: Report, chain: seq<Report>) returns (i: nat)
    requires OfChain(report, chain)
    ensures i < |chain| && SameBytes(report, chain[i])
  {
    var c :| c in chain && SameBytes(report, c);
    i :| 0 <= i < |chain| && chain[i] == c;
  }

  lemma DeliverKeeps(s: State, report: Report, t: State)
    requires Inv(s) && Next(s, Deliver(report), t)
    ensures Inv(t)
  {
    var chain := Chain(s);
    assert Chain(t) == chain;
    assert OfChain(report, chain);
    DeliverStands(s.panel, t.panel, s.origin, chain, report);
  }

  lemma DeliverStands(panel: Panel, next: Panel, origin: string, chain: seq<Report>, report: Report)
    requires Linked(origin, chain) && Stands(panel, origin, chain) && OfChain(report, chain)
    requires next == Handle(panel, report).0
    ensures Stands(next, origin, chain)
  {
    var i := PlaceInChain(report, chain);
    var j: nat :| StandsAt(panel, origin, chain, j);
    HandleAt(panel, origin, chain, j, report, i);
  }

  lemma LinkedSameBytes(origin: string, before: seq<Report>, after: seq<Report>)
    requires |before| == |after| && forall i :: 0 <= i < |after| ==> SameBytes(before[i], after[i])
    requires Linked(origin, before)
    ensures Linked(origin, after)
  {
    forall i | 0 <= i <= |after| ensures IdAt(origin, after, i) == IdAt(origin, before, i) {
    }
    forall i: nat, j: nat ensures Apart(origin, after, i, j) {
      assert Apart(origin, before, i, j);
    }
  }

  /** After a confirmation the same chain is all confirmed. */
  lemma ConfirmChain(s: State, before: seq<Report>, after: seq<Report>)
    requires |before| == |after| && forall i :: 0 <= i < |after| ==> SameBytes(before[i], after[i])
    requires Stands(s.panel, s.origin, before)
    requires forall p :: p in s.past ==> Stands(p, s.origin, before)
    requires forall r :: r in s.requests ==> OfChain(r, before)
    ensures Stands(s.panel, s.origin, after)
    ensures forall p :: p in s.past ==> Stands(p, s.origin, after)
    ensures forall r :: r in s.requests ==> OfChain(r, after)
  {
    StandsSameBytes(s.panel, s.origin, before, after);
    forall p | p in s.past ensures Stands(p, s.origin, after) {
      StandsSameBytes(p, s.origin, before, after);
    }
    forall r | r in s.requests ensures OfChain(r, after) {
      var c :| c in before && SameBytes(r, c);
      var i :| 0 <= i < |before| && before[i] == c;
      assert after[i] in after && SameBytes(r, after[i]);
    }
  }

  lemma HistoryGrows(history: map<string, Report>, origin: string, log: seq<Report>, confirmed: Report,
                     more: map<string, Report>)
    requires HistoryInv(history, origin, log)
    requires Linked(origin, log + [confirmed])
    requires more == if confirmed.receipt == NO_RECEIPT then history else history[confirmed.previous := confirmed]
    ensures HistoryInv(more, origin, log + [confirmed])
  {
    var longer, n := log + [confirmed], |log|;
    assert longer[n] == confirmed;
    forall i: nat | i < n ensures IdAt(origin, log, i) == IdAt(origin, longer, i) != confirmed.previous {
      IdsDiffer(origin, longer, i, n);
    }
    forall i: nat | CameWithReceipt(longer, i)
      ensures Recalls(more, origin, longer, IdAt(origin, longer, i), i)
    {
      if i < n {
        assert CameWithReceipt(log, i);
        assert Recalls(history, origin, log, IdAt(origin, log, i), i);
      }
    }
    forall id | id in more ensures exists i: nat :: Recalls(more, origin, longer, id, i) {
      if id == confirmed.previous && confirmed.receipt != NO_RECEIPT {
        assert Recalls(more, origin, longer, id, n);
      } else {
        var i: nat :| Recalls(history, origin, log, id, i);
        assert Recalls(more, origin, longer, id, i);
      }
    }
  }

  lemma ConfirmBooks(accepted: Totals, log: seq<Report>, before: Totals, confirmed: Report, after: Totals)
    requires forall k :: At(accepted, k) == Plus(Sum(log, k), At(before, k))
    requires forall k :: At(after, k) == Minus(At(before, k), AmountIn(confirmed.data, k))
    ensures forall k :: At(accepted, k) == Plus(Sum(log + [confirmed], k), At(after, k))
  {
    forall k ensures At(accepted, k) == Plus(Sum(log + [confirmed], k), At(after, k)) {
      SumSnoc(log, confirmed, k);
      Carry(At(accepted, k), Sum(log, k), At(before, k), AmountIn(confirmed.data, k), At(after, k));
    }
  }

  lemma Carry(accepted: Amount, sum: Amount, before: Amount, taken: Amount, after: Amount)
    requires accepted == Plus(sum, before) && after == Minus(before, taken)
    ensures accepted == Plus(Plus(sum, taken), after)
  {
  }

  /** What a confirmation does to the database, without the totals. */
  lemma ConfirmFrame(db: Db, receipt: Receipt, now: int)
    requires LedgerInv(db) && db.pending.Some? && ConfirmDb(db, db.pending.value.id, receipt, now).Ok?
    ensures var next := ConfirmDb(db, db.pending.value.id, receipt, now).value;
            && LedgerInv(next) && next.pending == None && ConfirmedId(next) == db.pending.value.id
            && (forall k :: At(next.totals, k) == Minus(At(db.totals, k), AmountIn(db.pending.value.data, k)))
            && next.history == if receipt == NO_RECEIPT then db.history
                               else db.history[db.pending.value.previous := db.pending.value.(receipt := receipt)]
  {
    ConfirmKeeps(db, receipt, now);
  }

  lemma ConfirmProtocol(s: State, confirmed: Report, t: State)
    requires ProtocolInv(s) && s.db.pending.Some? && ValidReport(s.db.pending.value)
    requires confirmed == s.db.pending.value.(receipt := confirmed.receipt)
    requires t.log == s.log + [confirmed] && t.db.pending == None && ConfirmedId(t.db) == confirmed.id
    requires t.db.history == if confirmed.receipt == NO_RECEIPT then s.db.history
                             else s.db.history[confirmed.previous := confirmed]
    requires t.origin == s.origin && t.panel == s.panel && t.past == s.past && t.requests == s.requests
    ensures ProtocolInv(t)
  {
    assert Chain(t) == t.log;
    LinkedSameBytes(s.origin, Chain(s), t.log);
    ConfirmChain(s, Chain(s), t.log);
    HistoryGrows(s.db.history, s.origin, s.log, confirmed, t.db.history);
  }

  /** Confirming the frozen report, whatever the panel stands at. */
  lemma ConfirmedState(s: State, receipt: Receipt, now: int, t: State)
    requires Inv(s) && s.db.pending.Some?
    requires ConfirmDb(s.db, s.db.pending.value.id, receipt, now) == Ok(t.db)
    requires t == s.(db := t.db, log := s.log + [s.db.pending.value.(receipt := receipt)])
    ensures Inv(t) && t.db.pending == None
  {
    var confirmed := s.db.pending.value.(receipt := receipt);
    ConfirmFrame(s.db, receipt, now);
    ConfirmBooks(s.accepted, s.log, s.db.totals, confirmed, t.db.totals);
    ConfirmProtocol(s, confirmed, t);
    ConfirmKeepsOfLog(s.db, s.log, receipt, now);
  }

  lemma StepKeeps(s: State, step: Step, t: State)
    requires Inv(s) && Next(s, step, t)
    ensures Inv(t)
  {
    match step
    case Record(q) => RecordKeeps(s, q, t);
    case Freeze(id) => FreezeKeeps(s, id, t);
    case Deliver(report) => DeliverKeeps(s, report, t);
    case Confirm(receipt, now) => ConfirmedState(s, receipt, now, t);
    case Defer(_, _, _) => DeferKeeps(s, step, t);
    case DeferProgress(_, _, _) => DeferKeeps(s, step, t);
    case Rollback(panel) => RollbackKeeps(s, panel, t);
    case _ => RequestKeeps(s, step, t);
  }

  lemma RequestKeeps(s: State, step: Step, t: State)
    requires Inv(s) && Next(s, step, t) && (step.SendPending? || step.SendRecovery? || step.SendMerge?)
    ensures Inv(t)
  {
    match step
    case SendPending =>
      assert s.db.pending.value in Chain(s) && SameBytes(s.db.pending.value, s.db.pending.value);
      SendKeeps(s, s.db.pending.value, t);
    case SendRecovery(after) =>
      RecoveryIsOfChain(s, after);
      SendKeeps(s, RecoverDb(s.db, after).value, t);
    case SendMerge(id) =>
      MergeIsOfChain(s, id);
      SendKeeps(s, MergeRequest(s.db.deferred[id]), t);
  }

  lemma DeferKeeps(s: State, step: Step, t: State)
    requires Inv(s) && Next(s, step, t) && (step.Defer? || step.DeferProgress?)
    ensures Inv(t)
  {
    match step
    case Defer(report, receipt, now) =>
      RememberFrame(s.db, report, receipt, now);
      RememberKeepsOfLog(s.db.deferred, s.log, report, receipt, now);
      DeferredOnly(s, t);
    case DeferProgress(id, receipt, now) =>
      ProgressFrame(s.db, id, receipt, now);
      ProgressKeepsOfLog(s, id, receipt, now);
      DeferredOnly(s, t);
  }

  lemma RollbackKeeps(s: State, panel: Panel, t: State)
    requires Inv(s) && Next(s, Rollback(panel), t)
    ensures Inv(t)
  {
    assert Chain(t) == Chain(s);
  }

  lemma DeferredOnly(s: State, t: State)
    requires Inv(s) && t == s.(db := s.db.(deferred := t.db.deferred)) && OfLog(t.db.deferred, s.log)
    ensures Inv(t)
  {
    assert Chain(t) == Chain(s);
  }

  // ---------------------------------------------------------------- whole runs

  ghost predicate Run(states: seq<State>, steps: seq<Step>) {
    && |states| == |steps| + 1 && Init(states[0])
    && forall i :: 0 <= i < |steps| ==> Next(states[i], steps[i], states[i + 1])
  }

  lemma RunInit(states: seq<State>, steps: seq<Step>)
    requires Run(states, steps) && steps != []
    ensures var n := |steps|;
            Run(states[..n], steps[..n - 1]) && Next(states[..n][n - 1], steps[n - 1], states[n])
  {
  }

  lemma InitInv(s: State)
    requires Init(s)
    ensures Inv(s)
  {
    assert StandsAt(s.panel, s.origin, [], 0);
  }

  lemma {:induction false} RunInv(states: seq<State>, steps: seq<Step>)
    requires Run(states, steps)
    ensures Inv(states[|steps|])
  {
    var n := |steps|;
    if n == 0 {
      InitInv(states[0]);
    } else {
      var init := states[..n];
      RunInit(states, steps);
      RunInv(init, steps[..n - 1]);
      StepKeeps(init[n - 1], steps[n - 1], states[n]);
    }
  }

  /** How many reports of the chain the panel has taken. */
  ghost function Position(panel: Panel, origin: string, chain: seq<Report>): (j: nat)
    requires Stands(panel, origin, chain)
    ensures StandsAt(panel, origin, chain, j)
  {
    var j: nat :| StandsAt(panel, origin, chain, j);
    j
  }

  ghost function Frozen(s: State, k: Key): Amount {
    if s.db.pending.Some? then AmountIn(s.db.pending.value.data, k) else Amount(0, 0)
  }

  /** What the panel has not billed: the reports after its progress, and the totals no report names yet. */
  ghost function Owed(s: State, k: Key): Amount
    requires Stands(s.panel, s.origin, Chain(s))
  {
    Plus(Sum(Chain(s)[Position(s.panel, s.origin, Chain(s))..], k), Minus(At(s.db.totals, k), Frozen(s, k)))
  }

  lemma ChainSum(s: State, k: Key)
    ensures Sum(Chain(s), k) == Plus(Sum(s.log, k), Frozen(s, k))
  {
    if s.db.pending.Some? {
      SumSnoc(s.log, s.db.pending.value, k);
    }
  }

  lemma NothingLost(s: State, k: Key)
    requires Stands(s.panel, s.origin, Chain(s)) && BooksInv(s)
    ensures At(s.accepted, k) == Plus(At(s.panel.billed, k), Owed(s, k))
  {
    var chain, j := Chain(s), Position(s.panel, s.origin, Chain(s));
    var billed, rest := Sum(chain[..j], k), Sum(chain[j..], k);
    SumSplit(chain, j, k);
    ChainSum(s, k);
    assert At(s.panel.billed, k) == billed;
    Balance(At(s.accepted, k), billed, rest, Sum(s.log, k), At(s.db.totals, k), Frozen(s, k));
  }

  lemma Balance(accepted: Amount, billed: Amount, rest: Amount, confirmed: Amount, totals: Amount, frozen: Amount)
    requires accepted == Plus(confirmed, totals)
    requires Plus(confirmed, frozen) == Plus(billed, rest)
    ensures accepted == Plus(billed, Plus(rest, Minus(totals, frozen)))
  {
  }

  /** Exactly once: in every run, whatever is lost, repeated, delayed or rolled back, what the panel has
      billed an account and what is still owed to it add up to the traffic accepted for it. */
  lemma ExactlyOnce(states: seq<State>, steps: seq<Step>, k: Key)
    requires Run(states, steps)
    ensures var s := states[|steps|];
            && Stands(s.panel, s.origin, Chain(s))
            && At(s.accepted, k) == Plus(At(s.panel.billed, k), Owed(s, k))
  {
    RunInv(states, steps);
    NothingLost(states[|steps|], k);
  }

  // ---------------------------------------------------------------- without a rollback

  /** The id is the node's confirmed one or its frozen one. */
  predicate Back(db: Db, id: string) {
    id == ConfirmedId(db) || (db.pending.Some? && id == db.pending.value.id)
  }

  /** Until a backup is restored, the panel stands at the confirmed report or at the frozen one, and
      an acknowledgement of the frozen report means the panel has taken it. */
  ghost predicate Straight(s: State) {
    && (forall id :: id in s.replies ==> exists c :: c in Chain(s) && c.id == id)
    && (!s.rolledBack ==> Ahead(s))
  }

  ghost predicate Ahead(s: State) {
    && Back(s.db, s.panel.progress)
    && (s.db.pending.Some? && s.db.pending.value.id in s.replies ==> s.panel.progress == s.db.pending.value.id)
  }

  /** A panel at the last confirmed report or at the frozen one stays at one of them, and what it
      takes is what it then stands at. */
  lemma DeliverAt(panel: Panel, origin: string, chain: seq<Report>, j: nat, report: Report, i: nat)
    requires Linked(origin, chain) && StandsAt(panel, origin, chain, j)
    requires i < |chain| && SameBytes(report, chain[i])
    ensures var (next, taken) := Handle(panel, report);
            && next.progress == IdAt(origin, chain, if i == j then j + 1 else j)
            && (taken ==> next.progress == report.id)
            && (j == |chain| ==> next == panel)
  {
    HandleAt(panel, origin, chain, j, report, i);
    assert report.id == IdAt(origin, chain, i + 1);
  }

  lemma PositionIs(panel: Panel, origin: string, chain: seq<Report>, j: nat, n: nat)
    requires Linked(origin, chain) && StandsAt(panel, origin, chain, j) && n <= |chain|
    requires panel.progress == IdAt(origin, chain, n)
    ensures j == n
  {
    if j != n { IdsDiffer(origin, chain, j, n); }
  }

  /** Before a rollback the panel stands at the end of the log or of the chain. */
  lemma StandsAhead(s: State) returns (j: nat)
    requires Inv(s) && Straight(s) && !s.rolledBack
    ensures StandsAt(s.panel, s.origin, Chain(s), j) && |s.log| <= j
  {
    var chain := Chain(s);
    j := Position(s.panel, s.origin, chain);
    if s.panel.progress == ConfirmedId(s.db) {
      assert ConfirmedId(s.db) == IdAt(s.origin, chain, |s.log|);
      PositionIs(s.panel, s.origin, chain, j, |s.log|);
    } else {
      PositionIs(s.panel, s.origin, chain, j, |chain|);
    }
  }

  lemma DeliverAhead(s: State, report: Report, t: State)
    requires Inv(s) && Straight(s) && !s.rolledBack && Next(s, Deliver(report), t)
    ensures Ahead(t)
  {
    DeliveryIs(s, report, t);
    DeliveredAhead(s, report);
    StillAhead(s, report, t);
  }

  lemma DeliveryIs(s: State, report: Report, t: State)
    requires Inv(s) && Next(s, Deliver(report), t)
    ensures OfChain(report, Chain(s)) && t.db == s.db && t.panel == Handle(s.panel, report).0
    ensures t.replies == if Handle(s.panel, report).1 then s.replies + {report.id} else s.replies
  {
  }

  lemma StillAhead(s: State, report: Report, t: State)
    requires Ahead(s) && Back(s.db, t.panel.progress) && t.db == s.db && t.panel == Handle(s.panel, report).0
    requires t.replies == if Handle(s.panel, report).1 then s.replies + {report.id} else s.replies
    requires s.db.pending.Some? && s.panel.progress == s.db.pending.value.id ==> t.panel == s.panel
    requires Handle(s.panel, report).1 ==> t.panel.progress == report.id
    ensures Ahead(t)
  {
  }

  lemma DeliveredAhead(s: State, report: Report)
    requires Inv(s) && Straight(s) && !s.rolledBack && OfChain(report, Chain(s))
    ensures var (next, taken) := Handle(s.panel, report);
            && Back(s.db, next.progress)
            && (s.db.pending.Some? && s.panel.progress == s.db.pending.value.id ==> next == s.panel)
            && (taken ==> next.progress == report.id)
  {
    var chain := Chain(s);
    var i := PlaceInChain(report, chain);
    var j := StandsAhead(s);
    DeliverProgress(s, chain, j, report, i);
    AtEnds(s, if i == j then j + 1 else j, Handle(s.panel, report).0.progress);
  }

  lemma DeliverStraight(s: State, report: Report, t: State)
    requires Inv(s) && Straight(s) && Next(s, Deliver(report), t)
    ensures Straight(t)
  {
    var c :| c in Chain(s) && SameBytes(report, c);
    RepliesGrow(s, t, c);
    if !s.rolledBack {
      DeliverAhead(s, report, t);
    }
  }

  lemma DeliverProgress(s: State, chain: seq<Report>, j: nat, report: Report, i: nat)
    requires Linked(s.origin, chain) && StandsAt(s.panel, s.origin, chain, j)
    requires i < |chain| && SameBytes(report, chain[i])
    ensures var (next, taken) := Handle(s.panel, report);
            && next.progress == IdAt(s.origin, chain, if i == j then j + 1 else j)
            && (taken ==> next.progress == report.id)
            && (s.panel.progress == IdAt(s.origin, chain, |chain|) ==> next == s.panel)
  {
    DeliverAt(s.panel, s.origin, chain, j, report, i);
    if s.panel.progress == IdAt(s.origin, chain, |chain|) {
      PositionIs(s.panel, s.origin, chain, j, |chain|);
    }
  }

  lemma AtEnds(s: State, j: nat, id: string)
    requires Inv(s) && |s.log| <= j <= |Chain(s)| && id == IdAt(s.origin, Chain(s), j)
    ensures Back(s.db, id)
  {
    if j == |s.log| { IdsOfLog(s, j); }
  }

  lemma RepliesGrow(s: State, t: State, c: Report)
    requires forall id :: id in s.replies ==> exists c :: c in Chain(s) && c.id == id
    requires Chain(t) == Chain(s) && c in Chain(s) && t.replies <= s.replies + {c.id}
    ensures forall id :: id in t.replies ==> exists c :: c in Chain(t) && c.id == id
  {
  }

  lemma ConfirmStraight(s: State, receipt: Receipt, now: int, t: State)
    requires Inv(s) && Straight(s) && Next(s, Confirm(receipt, now), t)
    ensures Straight(t)
  {
    ConfirmFrame(s.db, receipt, now);
    var report := s.db.pending.value;
    assert Chain(t) == s.log + [report.(receipt := receipt)];
    forall id | id in t.replies ensures exists c :: c in Chain(t) && c.id == id {
      var c :| c in Chain(s) && c.id == id;
      if c == report { assert report.(receipt := receipt) in Chain(t); } else { assert c in Chain(t); }
    }
  }

  /** A freeze changes nothing, or adds one report under the new id. */
  lemma FreezeFrame(db: Db, id: string)
    requires PendingDb(db, id).Ok?
    ensures var next := PendingDb(db, id).value.0;
            || next == db
            || (&& db.pending == None && next.pending.Some? && next.pending.value.id == id
                && next == db.(pending := next.pending, cursor := next.cursor))
  {
  }

  lemma NewFrozenIsStraight(s: State, t: State)
    requires Straight(s) && s.db.pending == None && t.db.pending.Some? && NewId(s, t.db.pending.value.id)
    requires t == s.(db := s.db.(pending := t.db.pending, cursor := t.db.cursor))
    ensures Straight(t)
  {
    assert forall c :: c in Chain(s) ==> c in Chain(t);
  }

  lemma FreezeStraight(s: State, id: string, t: State)
    requires Straight(s) && Next(s, Freeze(id), t)
    ensures Straight(t)
  {
    FreezeFrame(s.db, id);
    if t != s {
      NewFrozenIsStraight(s, t);
    }
  }

  lemma StepStraight(s: State, step: Step, t: State)
    requires Inv(s) && Straight(s) && Next(s, step, t)
    ensures Straight(t)
  {
    if step.Deliver? {
      DeliverStraight(s, step.report, t);
    } else if step.Confirm? {
      ConfirmStraight(s, step.receipt, step.now, t);
    } else if step.Freeze? {
      FreezeStraight(s, step.id, t);
    } else {
      OtherSteps(s, step, t);
    }
  }

  lemma OtherSteps(s: State, step: Step, t: State)
    requires Straight(s) && Next(s, step, t) && !step.Deliver? && !step.Confirm? && !step.Freeze?
    ensures Straight(t)
  {
    assert t.log == s.log && t.db.pending == s.db.pending && t.db.confirmed == s.db.confirmed && t.replies == s.replies;
    assert Chain(t) == Chain(s);
    assert t.rolledBack || (t.panel == s.panel && t.rolledBack == s.rolledBack);
  }

  /** Without a rollback the panel's progress is always the node's confirmed report or its frozen one. */
  lemma {:induction false} ProgressIsConfirmedOrFrozen(states: seq<State>, steps: seq<Step>)
    requires Run(states, steps)
    ensures Straight(states[|steps|])
    ensures var s := states[|steps|];
            (forall step :: step in steps ==> !step.Rollback?) ==>
              s.panel.progress == ConfirmedId(s.db) ||
              (s.db.pending.Some? && s.panel.progress == s.db.pending.value.id)
  {
    StraightRun(states, steps);
    if forall step :: step in steps ==> !step.Rollback? {
      NeverRolledBack(states, steps);
    }
  }

  lemma {:induction false} StraightRun(states: seq<State>, steps: seq<Step>)
    requires Run(states, steps)
    ensures Straight(states[|steps|])
  {
    var n := |steps|;
    if n > 0 {
      var init := states[..n];
      RunInit(states, steps);
      StraightRun(init, steps[..n - 1]);
      RunInv(init, steps[..n - 1]);
      StepStraight(init[n - 1], steps[n - 1], states[n]);
    }
  }

  lemma {:induction false} NeverRolledBack(states: seq<State>, steps: seq<Step>)
    requires Run(states, steps) && forall step :: step in steps ==> !step.Rollback?
    ensures !states[|steps|].rolledBack
  {
    var n := |steps|;
    if n > 0 {
      RunInit(states, steps);
      NeverRolledBack(states[..n], steps[..n - 1]);
      assert !steps[n - 1].Rollback?;
    }
  }

  // ---------------------------------------------------------------- after a rollback

  /** From any earlier confirmed id the history yields the report that followed it, exactly when that
      report came with a receipt and nothing about it awaits merging. */
  lemma RecoveryReplaysTheChain(s: State, j: nat)
    requires Inv(s) && j < |s.log|
    ensures var after, next := IdAt(s.origin, s.log, j), s.log[j];
            && (RecoverDb(s.db, after).Ok? <==>
                  && next.receipt != NO_RECEIPT
                  && (next.id in s.db.deferred ==> s.db.deferred[next.id].proofs == []))
            && (RecoverDb(s.db, after).Ok? ==> SameBytes(RecoverDb(s.db, after).value, next))
  {
    var after := IdAt(s.origin, s.log, j);
    IdsOfLog(s, j);
    assert Chain(s)[j] == s.log[j] && s.log[j] in s.log;
    assert CameWithReceipt(s.log, j) ==> Recalls(s.db.history, s.origin, s.log, after, j);
    if after in s.db.history {
      var i: nat :| Recalls(s.db.history, s.origin, s.log, after, i);
      if i != j { IdsDiffer(s.origin, Chain(s), i, j); IdsOfLog(s, i); }
    }
  }

  lemma IdsOfLog(s: State, i: nat)
    requires i <= |s.log|
    ensures IdAt(s.origin, Chain(s), i) == IdAt(s.origin, s.log, i)
  {
  }

  lemma RecoverableIds(s: State, id: string)
    requires Inv(s) && id in s.db.history
    ensures exists i: nat :: i < |s.log| && IdAt(s.origin, s.log, i) == id
  {
    var i: nat :| Recalls(s.db.history, s.origin, s.log, id, i);
    assert IdAt(s.origin, s.log, i) == id;
  }

  /** Below its own origin the node has nothing to replay: such a rollback is reported, not guessed at. */
  lemma NothingBeforeTheOrigin(s: State, id: string)
    requires Inv(s) && forall i :: 0 <= i <= |s.log| ==> IdAt(s.origin, s.log, i) != id
    ensures RecoverDb(s.db, id).Err?
  {
    if id in s.db.history {
      RecoverableIds(s, id);
    }
  }

  /** The disposition known of a report: the confirmation in force while its record is retained, and the receipt
      it was confirmed with once the record is gone. */
  ghost function Carried(records: Records, report: Report): Receipt {
    if report.id in records then records[report.id].confirmation else report.receipt
  }

  /** A replay carries that disposition, and nothing about its report awaits merging. */
  lemma ReplayedReceipt(s: State, j: nat)
    requires Inv(s) && j < |s.log| && RecoverDb(s.db, IdAt(s.origin, s.log, j)).Ok?
    ensures var id := s.log[j].id;
            && RecoverDb(s.db, IdAt(s.origin, s.log, j)).value.receipt == Carried(s.db.deferred, s.log[j])
            && (id in s.db.deferred ==> s.db.deferred[id].proofs == [])
  {
    IdsOfLog(s, j);
    var after := IdAt(s.origin, s.log, j);
    var i: nat :| Recalls(s.db.history, s.origin, s.log, after, i);
    if i != j { IdsDiffer(s.origin, Chain(s), i, j); IdsOfLog(s, i); }
  }

  /** Pruning leaves the protocol where it was. */
  lemma PruneKeeps(s: State, now: int)
    requires Inv(s)
    ensures Inv(s.(db := s.db.(deferred := Prune(s.db.deferred, now))))
  {
    var pruned := s.(db := s.db.(deferred := Prune(s.db.deferred, now)));
    PruneOfLog(s.db.deferred, s.log, now);
    DeferredOnly(s, pruned);
  }

  lemma PruneOfLog(records: Records, log: seq<Report>, now: int)
    requires OfLog(records, log)
    ensures OfLog(Prune(records, now), log)
  {
  }

  /** Pruning a record changes what a replay of its report carries if and only if the record has expired and a
      merge had replaced the receipt the report was confirmed with. */
  lemma PruneForgets(s: State, j: nat, now: int)
    requires Inv(s) && j < |s.log| && RecoverDb(s.db, IdAt(s.origin, s.log, j)).Ok?
    ensures var after, id := IdAt(s.origin, s.log, j), s.log[j].id;
            var pruned := s.(db := s.db.(deferred := Prune(s.db.deferred, now)));
            && Inv(pruned) && RecoverDb(pruned.db, after).Ok?
            && (RecoverDb(pruned.db, after).value.receipt != RecoverDb(s.db, after).value.receipt <==>
                  id in s.db.deferred && Expired(s.db.deferred[id], now) &&
                    s.db.deferred[id].confirmation != s.log[j].receipt)
  {
    PruneKeeps(s, now);
    PrunedReplay(s, j, now);
    ReplayedReceipt(s, j);
    PrunedReceipt(s.db.deferred, s.log[j], now);
  }

  lemma PrunedReplay(s: State, j: nat, now: int)
    requires Inv(s) && j < |s.log| && RecoverDb(s.db, IdAt(s.origin, s.log, j)).Ok?
    ensures var recovery := RecoverDb(s.db.(deferred := Prune(s.db.deferred, now)), IdAt(s.origin, s.log, j));
            recovery.Ok? && recovery.value.receipt == Carried(Prune(s.db.deferred, now), s.log[j])
  {
    var pruned := s.(db := s.db.(deferred := Prune(s.db.deferred, now)));
    PruneKeeps(s, now);
    RecoveryReplaysTheChain(s, j);
    RecoveryReplaysTheChain(pruned, j);
    ReplayedReceipt(pruned, j);
  }

  lemma PrunedReceipt(records: Records, report: Report, now: int)
    requires report.id in records ==> records[report.id].proofs == []
    ensures Carried(Prune(records, now), report) != Carried(records, report) <==>
              report.id in records && Expired(records[report.id], now) &&
              records[report.id].confirmation != report.receipt
  {
  }

  // ---------------------------------------------------------------- a run after which recovery fails

  const FIRST_KEY: Key := Key(1, "")

  /** A ledger that has confirmed one report of one byte without a receipt. */
  function OneConfirmed(id: string): Db {
    EMPTY_DB.(initialized := true, confirmed := Some(id), cursor := Some(FIRST_KEY))
  }

  function OneReport(id: string): Report { Report(id, "", [Usage(1, 1, 0, "")], NO_RECEIPT, NO_RECEIPT) }

  const ONE_BYTE: Totals := map[FIRST_KEY := Amount(1, 0)]

  /** The ledgers of the run below: new, with a byte recorded, and with the byte frozen. */
  const EMPTY_LEDGER: Db := EMPTY_DB.(initialized := true, confirmed := Some(""))
  const ONE_RECORDED: Db := EMPTY_LEDGER.(totals := ONE_BYTE)

  function OneFrozen(id: string): Db {
    ONE_RECORDED.(pending := Some(OneReport(id)), cursor := Some(FIRST_KEY))
  }

  lemma LostFreeze(id: string)
    requires IsReportId(id)
    ensures PendingDb(ONE_RECORDED, id) == Ok((OneFrozen(id), Some(OneReport(id))))
  {
    OneScan();
    assert SortByUid([Usage(1, 1, 0, "")]) == [Usage(1, 1, 0, "")];
    OneRow(id);
  }

  lemma OneScan()
    ensures FIRST_KEY in ONE_BYTE && Successor(ONE_BYTE.Keys, None) == FIRST_KEY
    ensures Scan(ONE_BYTE, FIRST_KEY, FIRST_KEY, []) == Ok([FIRST_KEY])
    ensures Usages(ONE_BYTE, [FIRST_KEY]) == [Usage(1, 1, 0, "")]
  {
    assert ONE_BYTE.Keys == {FIRST_KEY};
    assert Successor(ONE_BYTE.Keys, None) == FIRST_KEY && Successor(ONE_BYTE.Keys, Some(FIRST_KEY)) == FIRST_KEY;
    assert RunTotal(ONE_BYTE, []) == 0;
    assert [] + [FIRST_KEY] == [FIRST_KEY];
  }

  lemma OneRow(id: string)
    requires IsReportId(id)
    ensures ValidReport(OneReport(id))
  {
    var u := Usage(1, 1, 0, "");
    ValidRowsSnoc([], u);
    assert [] + [u] == [u] && Total([]) == 0;
  }

  lemma LostConfirm(id: string)
    requires IsReportId(id)
    ensures ConfirmDb(OneFrozen(id), id, NO_RECEIPT, 0) == Ok(OneConfirmed(id))
  {
    OneRow(id);
    OneSubtracted();
  }

  lemma OneSubtracted()
    ensures Subtract(ONE_BYTE, [Usage(1, 1, 0, "")]) == Some(map[])
  {
    var u := Usage(1, 1, 0, "");
    assert ONE_BYTE - {FIRST_KEY} == map[];
    assert [u][..0] == [] && [u][0] == u && KeyOf(u) == FIRST_KEY;
    assert SubtractOne(ONE_BYTE, u) == Some(map[]);
    assert Subtract(ONE_BYTE, []) == Some(ONE_BYTE);
  }

  lemma RunOn(states: seq<State>, steps: seq<Step>, s: State, step: Step, t: State)
    returns (more: seq<State>, longer: seq<Step>)
    requires Run(states, steps) && states[|steps|] == s && Next(s, step, t)
    ensures Run(more, longer) && |longer| == |steps| + 1 && more[|longer|] == t && longer == steps + [step]
    ensures forall i :: 0 <= i <= |steps| ==> more[i] == states[i]
  {
    more, longer := states + [t], steps + [step];
  }

  /** The run: a byte is recorded, frozen, sent, billed and confirmed without a receipt; then the panel goes back
      to its first state. */
  lemma LostRecord() returns (states: seq<State>, steps: seq<Step>)
    ensures Run(states, steps) && |steps| == 1
    ensures states[1].db == ONE_RECORDED && states[1].panel.progress == "" == states[1].origin && states[1].log == []
  {
    var s := LostStart();
    var q := Request(FIRST_KEY, Amount(1, 0));
    FirstRecorded(s.db.totals, q);
    var t := RecordNext(s, q);
    states, steps := RunStart(s);
    states, steps := RunOn(states, steps, s, Record(q), t);
  }

  lemma FirstRecorded(totals: Totals, q: Request)
    requires totals == map[] && q.add.up <= MAX_INT64 && q.add.down <= MAX_INT64
    ensures RecordOne(totals, q).0 == map[q.key := q.add]
  {
  }

  lemma RunStart(s: State) returns (states: seq<State>, steps: seq<Step>)
    requires Init(s)
    ensures Run(states, steps) && steps == [] && states[0] == s
  {
    states, steps := [s], [];
  }

  lemma LostStart() returns (s: State)
    ensures Init(s) && s.db == EMPTY_LEDGER && s.panel.progress == "" == s.origin && s.log == []
  {
    s := State(EMPTY_LEDGER, Panel("", map[]), {}, {}, {}, map[], [], "", false);
  }

  lemma RecordNext(s: State, q: Request) returns (t: State)
    requires GoodRequest(q)
    ensures Next(s, Record(q), t) && t.db == s.db.(totals := RecordOne(s.db.totals, q).0)
    ensures t.panel == s.panel && t.origin == s.origin && t.log == s.log
  {
    t := s.(db := s.db.(totals := RecordOne(s.db.totals, q).0),
            accepted := if RecordOne(s.db.totals, q).1 == None then RecordAccepted(s.accepted, q) else s.accepted);
  }

  lemma LostFreezing(id: string) returns (states: seq<State>, steps: seq<Step>)
    requires IsReportId(id)
    ensures Run(states, steps) && |steps| == 2
    ensures states[2].db == OneFrozen(id) && states[2].panel.progress == ""
  {
    states, steps := LostRecord();
    var s := states[1];
    LostFreeze(id);
    states, steps := RunOn(states, steps, s, Freeze(id), s.(db := OneFrozen(id)));
  }

  lemma LostSending(id: string) returns (states: seq<State>, steps: seq<Step>)
    requires IsReportId(id)
    ensures Run(states, steps) && |steps| == 3 && OneReport(id) in states[3].requests
    ensures states[3].db == OneFrozen(id) && states[3].panel.progress == ""
  {
    states, steps := LostFreezing(id);
    var s := states[2];
    states, steps := RunOn(states, steps, s, SendPending, s.(requests := s.requests + {OneReport(id)}));
  }

  lemma LostDelivery(id: string) returns (states: seq<State>, steps: seq<Step>)
    requires IsReportId(id)
    ensures Run(states, steps) && |steps| == 4 && id in states[4].replies
    ensures states[4].db == OneFrozen(id) && states[3].panel.progress == "" && states[3].panel in states[4].past
  {
    states, steps := LostSending(id);
    var t := TakenNext(states[3], OneReport(id));
    states, steps := RunOn(states, steps, states[3], Deliver(OneReport(id)), t);
  }

  lemma TakenNext(s: State, report: Report) returns (t: State)
    requires report in s.requests && report.previous == s.panel.progress
    ensures Next(s, Deliver(report), t) && t.db == s.db && s.panel in t.past && report.id in t.replies
  {
    t := s.(panel := Handle(s.panel, report).0, past := s.past + {s.panel}, replies := s.replies + {report.id});
  }

  lemma LostConfirmation(id: string) returns (states: seq<State>, steps: seq<Step>)
    requires IsReportId(id)
    ensures Run(states, steps) && |steps| == 5 && states[5].db == OneConfirmed(id)
    ensures states[3].panel.progress == "" && states[3].panel in states[5].past
  {
    states, steps := LostDelivery(id);
    var s := states[4];
    LostConfirm(id);
    var t := s.(db := OneConfirmed(id), log := s.log + [OneReport(id)]);
    states, steps := RunOn(states, steps, s, Confirm(NO_RECEIPT, 0), t);
  }

  /** A report confirmed without a receipt cannot be replayed: in six steps the node reaches a state in which the
      panel waits for it and recovery fails. */
  lemma RecoveryCanFail(id: string) returns (states: seq<State>, steps: seq<Step>)
    requires IsReportId(id)
    ensures Run(states, steps) && |steps| == 6
    ensures states[6].panel.progress == "" && ConfirmedId(states[6].db) == id
    ensures RecoverDb(states[6].db, states[6].panel.progress).Err?
  {
    states, steps := LostConfirmation(id);
    var s := states[5];
    states, steps :=
      RunOn(states, steps, s, Rollback(states[3].panel), s.(panel := states[3].panel, rolledBack := true));
  }
}
