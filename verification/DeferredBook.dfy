/** The bucket of retained deferred records: remembering a confirmation, pruning, and merging
    what is outstanding. */
module DeferredBook {
  import opened Wrappers
  import opened TrafficReports
  import opened DeferredReceipts
  import opened TotalsKeys

  /** Times are in nanoseconds; records are stamped in whole seconds. */
  const SECOND: int := 1_000_000_000
  const RETENTION: int := 90 * 24 * 3600 * SECOND

  predicate Expired(held: Held, now: int) {
    held.heldAt != 0 && held.proofs == [] && now - held.heldAt * SECOND > RETENTION
  }

  function Stamped(held: Held, now: int): Held {
    if held.heldAt == 0 then held.(heldAt := now / SECOND) else held
  }

  function Prune(records: Records, now: int): Records {
    map id | id in records && !Expired(records[id], now) :: Stamped(records[id], now)
  }

  /** `rememberDeferred`: refuse a confirmation that does not fit the report, else fold it in and prune. */
  function Remember(records: Records, report: Report, receipt: Receipt, now: int): Result<Records, string> {
    match ReadAck(receipt)
    case Err(e) => Err(e)
    case Ok(None) => Ok(records)
    case Ok(Some(ack)) =>
      if !ValidReport(report) then Err("invalid pending traffic report")
      else if !Matches(receipt, report) then Err("deferred confirmation does not match original report")
      else if report.id !in records then
        Ok(Prune(records[report.id := Opened(report, receipt, now / SECOND)], now))
      else
        match Fold(Stamped(records[report.id], now), report, receipt)
        case Err(e) => Err(e)
        case Ok(next) => Ok(Prune(records[report.id := next], now))
  }

  // ---------------------------------------------------------------- the loops of rememberDeferred

  method CheckEntries(entries: seq<Entry>, data: seq<Usage>) returns (ok: bool)
    ensures ok <==> EntriesOk(entries, data)
  {
    var users: set<int> := {};
    for i := 0 to |data|
      invariant users == Uids(data[..i])
    {
      users := users + {data[i].uid};
      TakeSnoc(data, i);
    }
    TakeAll(data);
    for i := 0 to |entries|
      invariant EntriesOk(entries[..i], data)
      invariant users == Uids(data) - set e | e in entries[..i] :: e.uid
    {
      var e := entries[i];
      TakeSnoc(entries, i);
      if e.uid !in users || e.reason.OtherReason? {
        return false;
      }
      users := users - {e.uid};
      if e.scope.OtherScope? {
        return false;
      }
    }
    TakeAll(entries);
    ok := true;
  }

  method CoversEntries(values: seq<Entry>, required: seq<Entry>) returns (ok: bool)
    ensures ok <==> Covers(values, required)
  {
    var available: map<int, set<Side>> := map[];
    for i := 0 to |values|
      invariant forall uid :: MaskAt(values[..i], uid) == if uid in available then available[uid] else {}
    {
      available := available[values[i].uid := Mask(values[i].scope)];
      TakeTake(values, i + 1, i);
    }
    TakeAll(values);
    for i := 0 to |required|
      invariant Covers(values, required[..i])
    {
      var e := required[i];
      TakeSnoc(required, i);
      if !(Mask(e.scope) <= if e.uid in available then available[e.uid] else {}) {
        return false;
      }
    }
    TakeAll(required);
    ok := true;
  }

  method IsConflict(values: seq<Entry>, data: seq<Usage>) returns (ok: bool)
    ensures ok <==> Conflict(values, data)
  {
    if |values| != |data| {
      return false;
    }
    for i := 0 to |values|
      invariant forall k :: 0 <= k < i ==> values[k].reason == ReceiptConflict && values[k].scope == Both
    {
      if values[i].reason != ReceiptConflict || values[i].scope != Both {
        return false;
      }
    }
    ok := true;
  }

  /** The `union` map and its listing in report order. */
  method MergeEntries(held: seq<Entry>, newer: seq<Entry>, data: seq<Usage>) returns (entries: seq<Entry>)
    requires forall i, j :: 0 <= i < j < |newer| ==> newer[i].uid != newer[j].uid
    ensures entries == Union(held, newer, data)
  {
    var union: map<int, Entry> := map[];
    for i := 0 to |held|
      invariant forall uid :: Find(held[..i], uid) == if uid in union then Some(union[uid]) else None
    {
      union := union[held[i].uid := held[i]];
      TakeTake(held, i + 1, i);
    }
    TakeAll(held);
    for i := 0 to |newer|
      invariant forall uid :: Merged(held, newer[..i], uid) == if uid in union then Some(union[uid]) else None
    {
      var e := newer[i];
      TakeTake(newer, i + 1, i);
      assert Find(newer[..i], e.uid) == None;
      if e.uid in union {
        e := e.(scope := ScopeOf(Mask(union[e.uid].scope) + Mask(e.scope)));
      }
      union := union[e.uid := e];
    }
    TakeAll(newer);
    entries := [];
    for i := 0 to |data|
      invariant entries == Union(held, newer, data[..i])
    {
      TakeTake(data, i + 1, i);
      if data[i].uid in union {
        entries := entries + [union[data[i].uid]];
      }
    }
    TakeAll(data);
  }

  /** `conflict(newer) || metadata equal && covers(newer, older)`. */
  method TestSubsumes(newer: Receipt, older: Receipt, data: seq<Usage>) returns (ok: bool)
    requires newer.Deferred? && older.Deferred?
    ensures ok <==> Subsumes(newer, older, data)
  {
    ok := IsConflict(newer.ack.entries, data);
    if !ok && newer.ack.metadata == older.ack.metadata {
      ok := CoversEntries(newer.ack.entries, older.ack.entries);
    }
  }

  /** Keep what the newcomer does not subsume; a proof that does not decode is an error. */
  method FilterProofs(proofs: seq<Receipt>, newer: Receipt, data: seq<Usage>) returns (r: Result<seq<Receipt>, string>)
    requires newer.Deferred?
    ensures r == if exists p :: p in proofs && !HasAck(p) then Err("invalid retained traffic proof")
                 else Ok(Surviving(proofs, newer, data))
  {
    var kept: seq<Receipt> := [];
    for i := 0 to |proofs|
      invariant forall k :: 0 <= k < i ==> HasAck(proofs[k])
      invariant kept == Surviving(proofs[..i], newer, data)
    {
      if !HasAck(proofs[i]) {
        return Err("invalid retained traffic proof");
      }
      var drop := TestSubsumes(newer, proofs[i], data);
      TakeTake(proofs, i + 1, i);
      if !drop {
        kept := kept + [proofs[i]];
      }
    }
    TakeAll(proofs);
    r := Ok(kept);
  }

  method FoldRecord(held: Held, report: Report, newer: Receipt) returns (r: Result<Held, string>)
    requires Matches(newer, report)
    ensures r == Fold(held, report, newer)
  {
    var next := held;
    if newer !in held.evidence {
      next := next.(evidence := held.evidence + [newer]);
    }
    if held.report.receipt == NO_RECEIPT {
      next := next.(report := held.report.(receipt := newer));
    }
    if !HasAck(held.confirmation) {
      return Err("invalid retained traffic confirmation");
    }
    var frozen := IsConflict(held.confirmation.ack.entries, report.data);
    if frozen {
      return Ok(next.(proofs := []));
    }
    var merged := MergeEntries(held.entries, newer.ack.entries, report.data);
    next := next.(entries := merged);
    var supersedes := TestSubsumes(newer, held.confirmation, report.data);
    if supersedes {
      var kept := FilterProofs(held.proofs, newer, report.data);
      if kept.Err? {
        return Err(kept.error);
      }
      return Ok(next.(confirmation := newer, proofs := kept.value));
    }
    var known := TestSubsumes(held.confirmation, newer, report.data);
    if !known && newer != held.confirmation && newer !in held.proofs {
      next := next.(proofs := held.proofs + [newer]);
    }
    r := Ok(next);
  }

  /** `pruneDeferred`: one pass collecting what to stamp and what to delete, then the writes. */
  method PruneRecords(records: Records, now: int) returns (pruned: Records)
    ensures pruned == Prune(records, now)
  {
    var expired: set<string>, stamped: map<string, Held> := {}, map[];
    var rest := records.Keys;
    while rest != {}
      invariant rest <= records.Keys
      invariant expired == set id | id in records.Keys - rest && Expired(records[id], now)
      invariant stamped.Keys == set id | id in records.Keys - rest && records[id].heldAt == 0
      invariant forall id :: id in stamped ==> stamped[id] == Stamped(records[id], now)
      decreases rest
    {
      var id :| id in rest;
      rest := rest - {id};
      var held := records[id];
      if held.heldAt == 0 {
        stamped := stamped[id := held.(heldAt := now / SECOND)];
      } else if held.proofs == [] && now - held.heldAt * SECOND > RETENTION {
        expired := expired + {id};
      }
    }
    pruned := (records + stamped) - expired;
  }

  method RememberDeferred(records: Records, report: Report, receipt: Receipt, now: int)
    returns (r: Result<Records, string>)
    ensures r == Remember(records, report, receipt, now)
  {
    var ack := ReadAck(receipt);
    if ack.Err? {
      return Err(ack.error);
    }
    if ack.value.None? {
      return Ok(records);
    }
    var valid := ValidateReport(report);
    if !valid {
      return Err("invalid pending traffic report");
    }
    var body := ack.value.value;
    if body.id != report.id || body.previous != report.previous || body.digest != report.data {
      return Err("deferred confirmation does not match original report");
    }
    var sound := CheckEntries(body.entries, report.data);
    if !sound {
      return Err("deferred confirmation does not match original report");
    }
    var next := Opened(report, receipt, now / SECOND);
    if report.id in records {
      var held := records[report.id];
      if held.heldAt == 0 {
        held := held.(heldAt := now / SECOND);
      }
      var folded := FoldRecord(held, report, receipt);
      if folded.Err? {
        return Err(folded.error);
      }
      next := folded.value;
    }
    var pruned := PruneRecords(records[report.id := next], now);
    r := Ok(pruned);
  }

  /** `DeferredMerge`: the first record, in key order, that has something outstanding. */
  method DeferredMerge(records: Records) returns (id: Option<string>)
    ensures id == None <==> forall k :: k in records ==> records[k].proofs == []
    ensures id.Some? ==> id.value in records && records[id.value].proofs != []
    ensures id.Some? ==> forall k :: k in records && LexLess(k, id.value) ==> records[k].proofs == []
  {
    id := None;
    var rest := records.Keys;
    while rest != {}
      invariant rest <= records.Keys
      invariant id == None <==> forall k :: k in records.Keys - rest ==> records[k].proofs == []
      invariant id.Some? ==> id.value in records && records[id.value].proofs != []
      invariant id.Some? ==> forall k :: k in records.Keys - rest && LexLess(k, id.value) ==> records[k].proofs == []
      decreases rest
    {
      var k :| k in rest;
      rest := rest - {k};
      if records[k].proofs != [] {
        if id == None || LexLess(k, id.value) {
          forall x | x in records.Keys - rest && LexLess(x, k) ensures records[x].proofs == [] {
            LexTotal(k, k);
            if id.Some? { LexTransitive(x, k, id.value); }
          }
          id := Some(k);
        }
      }
    }
  }

  // ---------------------------------------------------------------- the book as a whole

  ghost predicate BookInv(records: Records) {
    forall id :: id in records ==>
        HeldInv(records[id]) && records[id].report.id == id && ValidHeader(records[id].report)
  }

  /** A report and the record held under its id are about the same bytes. */
  predicate SameReport(records: Records, report: Report) {
    report.id in records ==> records[report.id].report.data == report.data
  }

  /** Every (record, position) with a confirmation still to be merged. */
  ghost function Outstanding(records: Records): set<(string, int)> {
    set id, i | id in records && 0 <= i < |records[id].proofs| :: (id, i)
  }

  /** Pruning removes exactly the expired records without proofs and changes nothing but missing stamps. */
  lemma PruneKeepsProofs(records: Records, now: int)
    ensures Outstanding(Prune(records, now)) == Outstanding(records)
    ensures forall id :: id in records && records[id].proofs != [] ==> id in Prune(records, now)
    ensures forall id :: id in Prune(records, now) ==>
              Prune(records, now)[id].(heldAt := 0) == records[id].(heldAt := 0)
    ensures BookInv(records) ==> BookInv(Prune(records, now))
  {
    var pruned := Prune(records, now);
    forall id | id in pruned && HeldInv(records[id]) ensures HeldInv(pruned[id]) {
      HeldInvIgnoresStamp(records[id], pruned[id].heldAt);
    }
  }

  /** Pruning keeps exactly the records with something outstanding, those without a stamp, which it stamps, and those
      stamped at most ninety days ago. */
  lemma PruneExactly(records: Records, now: int, id: string)
    ensures id in Prune(records, now) <==>
              && id in records
              && (records[id].heldAt == 0 || records[id].proofs != [] ||
                  now - records[id].heldAt * SECOND <= 90 * 24 * 3600 * SECOND)
    ensures id in Prune(records, now) ==>
              Prune(records, now)[id] ==
                records[id].(heldAt := if records[id].heldAt == 0 then now / SECOND else records[id].heldAt)
  {
  }

  lemma HeldInvIgnoresStamp(held: Held, heldAt: int)
    requires HeldInv(held)
    ensures HeldInv(held.(heldAt := heldAt))
  {
    var moved := held.(heldAt := heldAt);
    assert LookAtHeld(held);
    assert forall e :: Kept(e, held) ==> Kept(e, moved);
  }

  lemma BookPut(records: Records, id: string, next: Held, now: int)
    requires BookInv(records) && HeldInv(next) && next.report.id == id && ValidHeader(next.report)
    ensures BookInv(Prune(records[id := next], now))
  {
    PutKeeps(records, id, next);
    PruneKeepsProofs(records[id := next], now);
  }

  lemma PutKeeps(records: Records, id: string, next: Held)
    requires BookInv(records) && HeldInv(next) && next.report.id == id && ValidHeader(next.report)
    ensures BookInv(records[id := next])
  {
  }

  /** A confirmation of a report already held folds without error into a good record. */
  lemma RefoldInv(held: Held, report: Report, receipt: Receipt, now: int)
    requires HeldInv(held) && ValidHeader(held.report) && held.report.id == report.id
    requires report.data == held.report.data && Matches(receipt, report)
    ensures Fold(Stamped(held, now), report, receipt).Ok?
    ensures var next := Fold(Stamped(held, now), report, receipt).value;
            HeldInv(next) && next.report.id == report.id && ValidHeader(next.report)
  {
    var stamped := held.(heldAt := Stamped(held, now).heldAt);
    HeldInvIgnoresStamp(held, stamped.heldAt);
    FoldInv(stamped, report, receipt);
    FoldReport(stamped, report, receipt);
  }

  /** Remembering keeps the book, whatever arrives. */
  lemma RememberKeepsBook(records: Records, report: Report, receipt: Receipt, now: int)
    requires BookInv(records) && SameReport(records, report)
    requires Remember(records, report, receipt, now).Ok?
    ensures BookInv(Remember(records, report, receipt, now).value)
  {
    if HasAck(receipt) {
      if report.id in records {
        RefoldInv(records[report.id], report, receipt, now);
        BookPut(records, report.id, Fold(Stamped(records[report.id], now), report, receipt).value, now);
      } else {
        OpenedInv(report, receipt, now / SECOND);
        BookPut(records, report.id, Opened(report, receipt, now / SECOND), now);
      }
    }
  }

  /** A well-formed confirmation of a known report is never refused. */
  lemma RememberAccepts(records: Records, report: Report, receipt: Receipt, now: int)
    requires BookInv(records) && SameReport(records, report)
    requires ValidReport(report) && Matches(receipt, report)
    ensures Remember(records, report, receipt, now).Ok?
  {
    if report.id in records {
      RefoldInv(records[report.id], report, receipt, now);
    }
  }

  /** What the node submits for one record, less the second receipt. */
  function MergeReport(held: Held): Report {
    held.report.(receipt := held.confirmation, reconcile := NO_RECEIPT)
  }

  /** One round of merging makes progress exactly when the reply subsumes the confirmation in force and
      one of the outstanding ones; nothing becomes outstanding elsewhere. */
  lemma MergeProgress(records: Records, id: string, reply: Receipt, now: int)
    requires BookInv(records) && id in records && records[id].proofs != []
    requires Remember(records, MergeReport(records[id]), reply, now).Ok?
    ensures BookInv(Remember(records, MergeReport(records[id]), reply, now).value)
    ensures Outstanding(Remember(records, MergeReport(records[id]), reply, now).value) < Outstanding(records) <==>
              && HasAck(reply)
              && Subsumes(reply, records[id].confirmation, records[id].report.data)
              && exists p :: p in records[id].proofs && Subsumes(reply, p, records[id].report.data)
  {
    RememberKeepsBook(records, MergeReport(records[id]), reply, now);
    if HasAck(reply) {
      var next := MergeFolds(records, id, reply, now);
      OutstandingUpdate(records, id, next);
    }
  }

  /** A remembered merge is a fold into its record. */
  lemma MergeFolds(records: Records, id: string, reply: Receipt, now: int) returns (next: Held)
    requires BookInv(records) && id in records && records[id].proofs != [] && HasAck(reply)
    requires Remember(records, MergeReport(records[id]), reply, now).Ok?
    ensures Outstanding(Remember(records, MergeReport(records[id]), reply, now).value) ==
            Outstanding(records[id := next])
    ensures |next.proofs| < |records[id].proofs| <==>
              && Subsumes(reply, records[id].confirmation, records[id].report.data)
              && exists p :: p in records[id].proofs && Subsumes(reply, p, records[id].report.data)
  {
    var report, held := MergeReport(records[id]), Stamped(records[id], now);
    HeldInvIgnoresStamp(records[id], held.heldAt);
    FoldShrinks(held, report, reply);
    next := Fold(held, report, reply).value;
    PruneKeepsProofs(records[id := next], now);
  }

  lemma OutstandingUpdate(records: Records, id: string, next: Held)
    requires id in records && records[id].proofs != []
    ensures Outstanding(records[id := next]) < Outstanding(records) <==> |next.proofs| < |records[id].proofs|
  {
    var n := |records[id].proofs|;
    var more := records[id := next];
    if |next.proofs| < n {
      assert (id, n - 1) in Outstanding(records) && (id, n - 1) !in Outstanding(more);
    } else {
      assert Outstanding(records) <= Outstanding(more);
    }
  }

  /** The reply the merging loop relies on: it states at least both submitted receipts. */
  predicate Merges(reply: Receipt, held: Held) {
    && held.proofs != []
    && Matches(reply, MergeReport(held))
    && Subsumes(reply, held.confirmation, held.report.data)
    && Subsumes(reply, held.proofs[0], held.report.data)
  }

  lemma MergeStep(records: Records, id: string, reply: Receipt, now: int)
    requires BookInv(records) && id in records && Merges(reply, records[id])
    ensures Remember(records, MergeReport(records[id]), reply, now).Ok?
    ensures var next := Remember(records, MergeReport(records[id]), reply, now).value;
            BookInv(next) && Outstanding(next) < Outstanding(records)
  {
    RememberAccepts(records, MergeReport(records[id]), reply, now);
    MergeProgress(records, id, reply, now);
  }

  /** With nothing outstanding, each confirmation in force subsumes everything ever accepted. */
  lemma Settled(records: Records, id: string, e: Receipt)
    requires BookInv(records) && id in records && records[id].proofs == [] && e in records[id].evidence
    ensures Subsumes(records[id].confirmation, e, records[id].report.data)
  {
    assert Kept(e, records[id]);
  }

  /** A reply without a deferral changes nothing, so a loop that met only such replies would not end. */
  lemma PlainReplyMakesNoProgress(records: Records, id: string, text: string, now: int)
    requires id in records && records[id].proofs != []
    ensures Remember(records, MergeReport(records[id]), Text(text), now) == Ok(records)
    ensures records[id].confirmation.Deferred? && records[id].proofs[0].Deferred? ==>
              Text(text) != records[id].confirmation && Text(text) != records[id].proofs[0]
  {
  }

  // ---------------------------------------------------------------- which receipts are accepted

  /** A receipt the panel may give for a report: none to remember, or a deferral of that very report. */
  predicate Fitting(receipt: Receipt, report: Report) {
    ReadAck(receipt).Ok? && (HasAck(receipt) ==> Matches(receipt, report))
  }

  /** A sound book refuses exactly the receipts that do not fit the report. */
  lemma RememberExactly(records: Records, report: Report, receipt: Receipt, now: int)
    requires BookInv(records) && SameReport(records, report) && ValidReport(report)
    ensures Remember(records, report, receipt, now).Ok? <==> Fitting(receipt, report)
  {
    if Fitting(receipt, report) && HasAck(receipt) {
      RememberAccepts(records, report, receipt, now);
    }
  }

  /** A receipt fits a report if it carries no deferral, or a deferral of that very report with at most a thousand
      entries, for users of the report, each once, with a known reason and scope. */
  lemma FittingMeans(receipt: Receipt, report: Report)
    ensures Fitting(receipt, report) <==>
              || receipt.Text?
              || (&& receipt.Deferred? && 1 <= |receipt.ack.entries| <= 1000
                  && receipt.ack.id == report.id && receipt.ack.previous == report.previous
                  && receipt.ack.digest == report.data
                  && (forall e :: e in receipt.ack.entries ==>
                        && !e.reason.OtherReason? && !e.scope.OtherScope?
                        && exists u :: u in report.data && u.uid == e.uid)
                  && forall i, j :: 0 <= i < j < |receipt.ack.entries| ==>
                       receipt.ack.entries[i].uid != receipt.ack.entries[j].uid)
  {
  }

  /** What remembering a fitting deferral leaves of the book. The receipt is in the report's record as evidence, and
      something retained says as much; the record counts its ninety days from its first receipt, and is gone only if
      they are over. Other records change as by pruning. */
  lemma RememberLeaves(records: Records, report: Report, receipt: Receipt, now: int)
    requires BookInv(records) && SameReport(records, report) && ValidReport(report) && Matches(receipt, report)
    ensures Remember(records, report, receipt, now).Ok?
    ensures var next := Remember(records, report, receipt, now).value;
            && (forall id :: id != report.id ==>
                  && (id in next <==> id in Prune(records, now))
                  && (id in next ==> next[id] == Prune(records, now)[id]))
            && (report.id in next ==> Holds(records, report, receipt, now, next[report.id]))
            && (report.id !in next ==>
                  && report.id in records && records[report.id].heldAt != 0
                  && now - records[report.id].heldAt * SECOND > RETENTION)
  {
    RememberAccepts(records, report, receipt, now);
    if report.id in records {
      FoldedHolds(records, report, receipt, now, records[report.id]);
    } else {
      OpenedHolds(records, report, receipt, now);
    }
  }

  lemma OpenedHolds(records: Records, report: Report, receipt: Receipt, now: int)
    requires report.id !in records && Accepted(receipt, report.data) && Increasing(report.data)
    ensures Holds(records, report, receipt, now, Stamped(Opened(report, receipt, now / SECOND), now))
  {
    SubsumesReflexive(receipt, report.data);
    SubsumesMeans(receipt, receipt, report.data);
    assert receipt in [receipt] + [];
  }

  lemma FoldedHolds(records: Records, report: Report, receipt: Receipt, now: int, held: Held)
    requires report.id in records && held == records[report.id]
    requires HeldInv(held) && Accepted(receipt, held.report.data) && report.data == held.report.data
    ensures Fold(Stamped(held, now), report, receipt).Ok?
    ensures Holds(records, report, receipt, now, Stamped(Fold(Stamped(held, now), report, receipt).value, now))
  {
    var stamped := Stamped(held, now);
    HeldInvIgnoresStamp(held, stamped.heldAt);
    FoldInv(stamped, report, receipt);
    FoldHolds(stamped, report, receipt);
  }

  /** `held` has the receipt among its evidence and retains one that says as much; it keeps the evidence and the stamp
      of the record there was before. A new record is about the report as it came, with the receipt unless it had
      one. */
  ghost predicate Holds(records: Records, report: Report, receipt: Receipt, now: int, held: Held) {
    && receipt in held.evidence
    && (exists r :: r in [held.confirmation] + held.proofs && SaysAsMuch(r, receipt, report.data))
    && (report.id in records ==> forall e :: e in records[report.id].evidence ==> e in held.evidence)
    && (report.id in records && records[report.id].heldAt != 0 ==> held.heldAt == records[report.id].heldAt)
    && (report.id !in records || records[report.id].heldAt == 0 ==>
          held.heldAt == now / SECOND)
    && (report.id !in records ==>
          && held.confirmation == receipt && held.proofs == [] && held.evidence == [receipt]
          && held.entries == EntriesOf(receipt)
          && held.report == report.(receipt := if report.receipt == Text("") then receipt else report.receipt))
  }

  lemma FoldHolds(held: Held, report: Report, receipt: Receipt)
    requires HeldInv(held) && Accepted(receipt, held.report.data) && report.data == held.report.data
    requires Fold(held, report, receipt).Ok?
    ensures var next := Fold(held, report, receipt).value;
            exists r :: r in [next.confirmation] + next.proofs && SaysAsMuch(r, receipt, report.data)
  {
    FoldInv(held, report, receipt);
    var next := Fold(held, report, receipt).value;
    assert Kept(receipt, next);
    var r :| r in [next.confirmation] + next.proofs && Subsumes(r, receipt, next.report.data);
    SubsumesMeans(r, receipt, report.data);
  }

  /** Remembering a receipt adds no proof to the record of any other report. */
  lemma RememberOthers(records: Records, report: Report, receipt: Receipt, now: int, id: string)
    requires Remember(records, report, receipt, now).Ok? && id != report.id
    requires id in Remember(records, report, receipt, now).value
    ensures id in records && Remember(records, report, receipt, now).value[id].proofs == records[id].proofs
  {
  }

  /** Every user of a report in conflict, as the panel may always answer a merge. */
  function ConflictEntries(data: seq<Usage>): seq<Entry> {
    seq(|data|, i requires 0 <= i < |data| => Entry(data[i].uid, ReceiptConflict, Both))
  }

  lemma ConflictIsKnown(data: seq<Usage>)
    requires ValidRows(data)
    ensures EntriesOk(ConflictEntries(data), data) && Conflict(ConflictEntries(data), data)
  {
    var entries := ConflictEntries(data);
    forall e | e in entries ensures KnownEntry(e) && e.uid in Uids(data) {
      var i :| 0 <= i < |data| && e == entries[i];
      assert data[i] in data;
    }
  }

  lemma ConflictMerges(held: Held, reply: Receipt)
    requires HeldInv(held) && held.proofs != []
    requires Matches(reply, MergeReport(held)) && HasAck(reply) && Conflict(reply.ack.entries, held.report.data)
    ensures Merges(reply, held) && reply != held.confirmation && reply != held.proofs[0]
  {
    var data, proof := held.report.data, held.proofs[0];
    assert proof in held.proofs;
    assert Accepted(held.confirmation, data) && !Conflict(EntriesOf(held.confirmation), data);
    assert Accepted(proof, data) && !Conflict(EntriesOf(proof), data);
  }

  /** What the merging loop relies on can always be given: the conflict answers any two receipts, and is neither. */
  lemma MergeExists(held: Held, signature: string)
    requires HeldInv(held) && ValidHeader(held.report) && held.proofs != []
    ensures var report := held.report;
            var reply := Deferred(Ack(report.id, report.previous, report.data, "", ConflictEntries(report.data)),
                                  signature);
            Merges(reply, held) && reply != held.confirmation && reply != held.proofs[0]
  {
    var report := held.report;
    ConflictIsKnown(report.data);
    ConflictMerges(held, Deferred(Ack(report.id, report.previous, report.data, "", ConflictEntries(report.data)),
                                  signature));
  }

  /** A record that a merge has settled still expires: what the panel said first is then all that is left. */
  lemma SettledRecordExpires(report: Report, first: Receipt, merged: Receipt, t0: int, t1: int, t2: int)
    requires ValidReport(report) && Matches(first, report) && Matches(merged, report)
    requires Subsumes(merged, first, report.data) && !Conflict(first.ack.entries, report.data)
    requires SECOND <= t0 && t1 - t0 <= RETENTION - SECOND && t2 - t0 > RETENTION
    ensures Remember(map[], report, first, t0).Ok?
    ensures var held := Remember(map[], report, first, t0).value;
            && Remember(held, report, merged, t1).Ok?
            && var settled := Remember(held, report, merged, t1).value;
               && report.id in settled && settled[report.id].confirmation == merged && settled[report.id].proofs == []
               && report.id !in Prune(settled, t2)
  {
    var began := Opened(report, first, t0 / SECOND);
    assert !Expired(began, t0);
    var held := Remember(map[], report, first, t0).value;
    assert held[report.id] == began;
    assert Fold(began, report, merged).Ok?;
    assert Surviving([], merged, report.data) == [];
  }
}
