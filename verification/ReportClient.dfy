/** One reporting cycle of the node against the panel: merge what is outstanding, replay what the panel
    has lost, then send and confirm. */
module ReportClient {
  import opened Wrappers
  import opened TotalsKeys
  import opened TrafficReports
  import opened DeferredReceipts
  import B = DeferredBook
  import opened TrafficStore
  import opened LedgerInvariant
  import opened Billing
  import opened NodeStore
  import opened ReportStates
  import opened ReportSteps
  import F = FairScan
  import P = FairPlan

  /** The panel behind a lossy connection. `faults` counts the messages that were lost and the replies a sound
      panel would not give: a receipt that does not fit its report, or a merge that states less than it was sent.
      `said` is the receipt last received. */
  class Server {
    var panel: Panel
    ghost var faults: nat
    ghost var said: Receipt

    constructor (progress: string)
      ensures panel == Panel(progress, map[]) && faults == 0 && said == NO_RECEIPT
    {
      panel, faults, said := Panel(progress, map[]), 0, NO_RECEIPT;
    }

    method ReadProgress(ghost history: map<string, Report>) returns (reply: Option<(string, Receipt)>)
      modifies this`faults, this`said
      ensures reply.Some? ==> reply.value.0 == panel.progress && said == reply.value.1
      ensures old(faults) <= faults
      ensures faults == old(faults) ==> reply.Some? && ProgressFits(reply.value.1, panel.progress, history)
    {
      var lost: bool, receipt: Receipt := *, *;
      said := receipt;
      reply := if lost then None else Some((panel.progress, receipt));
      if lost || !ProgressFits(receipt, panel.progress, history) {
        faults := faults + 1;
      }
    }

    /** A request or its reply may be lost. A reply is an acknowledgement; a refusal is none. */
    method Post(report: Report) returns (receipt: Option<Receipt>)
      modifies this
      ensures panel == old(panel) || panel == Handle(old(panel), report).0
      ensures receipt.Some? ==>
                Handle(old(panel), report).1 && panel == Handle(old(panel), report).0 && said == receipt.value
      ensures old(faults) <= faults
      ensures faults == old(faults) ==>
                && panel == Handle(old(panel), report).0
                && (receipt.Some? <==> Handle(old(panel), report).1)
                && (receipt.Some? ==> B.Fitting(receipt.value, report))
    {
      var requestLost: bool, replyLost: bool, signed: Receipt := *, *, *;
      said := signed;
      if requestLost {
        faults := faults + 1;
        return None;
      }
      var taken := Handle(panel, report).1;
      panel := Handle(panel, report).0;
      receipt := if taken && !replyLost then Some(signed) else None;
      if replyLost || !B.Fitting(signed, report) {
        faults := faults + 1;
      }
    }

    /** A merge request is a report with two receipts: a panel that has lost the report may take it for a new one.
        What comes back states both receipts, or is one of them; a sound panel gives the first. */
    method PostMerge(held: Held) returns (receipt: Option<Receipt>)
      requires held.proofs != []
      modifies this
      ensures panel == old(panel) || panel == Handle(old(panel), MergeRequest(held)).0
      ensures receipt.Some? ==>
                && said == receipt.value
                && (|| B.Merges(receipt.value, held)
                    || receipt.value == held.confirmation || receipt.value == held.proofs[0])
      ensures old(faults) <= faults
      ensures faults == old(faults) ==>
                && receipt.Some? && B.Merges(receipt.value, held)
                && receipt.value != held.confirmation && receipt.value != held.proofs[0]
    {
      var requestLost: bool, replyLost: bool, moves: bool, signed: Receipt := *, *, *, *;
      if requestLost {
        faults := faults + 1;
        return None;
      }
      if moves { panel := Handle(panel, MergeRequest(held)).0; }
      if replyLost || !B.Merges(signed, held) {
        faults := faults + 1;
        said := held.proofs[0];
        return if replyLost then None else Some(held.proofs[0]);
      }
      said := signed;
      if signed == held.confirmation || signed == held.proofs[0] { faults := faults + 1; }
      receipt := Some(signed);
    }
  }

  /** `PrepareTraffic`: a new ledger begins where the panel stands; one in use is left alone. */
  method PrepareTraffic(store: Store, server: Server) returns (r: Result<(), string>)
    modifies store`db, server`faults, server`said
    ensures server.panel == old(server.panel)
    ensures InUse(old(store.db)) ==> r.Ok? && store.db == old(store.db)
    ensures r.Err? ==> store.db == old(store.db)
    ensures r.Ok? && !InUse(old(store.db)) ==> InitializeDb(old(store.db), server.panel.progress) == Ok(store.db)
    ensures r.Ok? && old(store.db) == EMPTY_DB && server.panel.billed == map[] ==>
              Init(State(store.db, server.panel, {}, {}, {}, map[], [], server.panel.progress, false))
  {
    var needed := store.NeedsInitialization();
    if !needed {
      return Ok(());
    }
    var reply := server.ReadProgress(store.db.history);
    if reply == None {
      return Err("cannot read panel traffic progress");
    }
    r := store.Initialize(reply.value.0);
  }

  class Client {
    const store: Store
    const server: Server
    ghost var accepted: Totals
    ghost var log: seq<Report>
    ghost var origin: string
    /** How many reports of the chain the panel has taken. */
    ghost var standing: nat

    ghost function S(): State
      reads this, store, server
    {
      State(store.db, server.panel, {}, {}, {}, accepted, log, origin, false)
    }

    ghost predicate Valid()
      reads this, store, server
    {
      Sound(S(), standing)
    }

    /** Nothing about a report the panel has lost awaits merging. */
    ghost predicate Settled()
      reads this, store
    {
      Clear(store.db.deferred, log, standing)
    }

    constructor (store: Store, server: Server)
      requires Init(State(store.db, server.panel, {}, {}, {}, map[], [], server.panel.progress, false))
      ensures Valid() && this.store == store && this.server == server && accepted == map[] && log == [] && standing == 0
    {
      this.store, this.server := store, server;
      accepted, log, origin, standing := map[], [], server.panel.progress, 0;
      new;
      StartsSound(S());
    }

    /** `trafficProgress`. */
    method Progress(now: int) returns (r: Result<string, string>)
      requires Valid()
      modifies store`db, server`faults, server`said
      ensures Valid() && store.db == old(store.db).(deferred := store.db.deferred)
      ensures r.Ok? ==>
                && r.value == server.panel.progress
                && RememberProgressDb(old(store.db), r.value, server.said, now) == Ok(store.db)
      ensures Untouched(old(store.db.deferred), store.db.deferred, log, standing)
      ensures old(server.faults) <= server.faults && (server.faults == old(server.faults) ==> r.Ok?)
    {
      ghost var s := S();
      var reply := server.ReadProgress(store.db.history);
      if reply == None {
        return Err("cannot read panel traffic progress");
      }
      ProgressHolds(s, standing, reply.value.1, now);
      var remembered := store.RememberDeferredConfirmation(reply.value.0, reply.value.1, now);
      assert S() == s.(db := store.db);
      r := if remembered.Err? then Err(remembered.error) else Ok(reply.value.0);
    }

    /** Submit the two receipts of a record. */
    method SubmitMerge(id: string) returns (receipt: Option<Receipt>)
      requires Valid() && id in store.db.deferred && store.db.deferred[id].proofs != []
      modifies server, this`standing
      ensures Valid() && old(standing) <= standing && (old(Settled()) ==> standing == old(standing))
      ensures var held := store.db.deferred[id];
              && (receipt.Some? ==>
                    && server.said == receipt.value
                    && (|| B.Merges(receipt.value, held)
                        || receipt.value == held.confirmation || receipt.value == held.proofs[0]))
              && (server.faults == old(server.faults) ==>
                    && receipt.Some? && B.Merges(receipt.value, held)
                    && receipt.value != held.confirmation && receipt.value != held.proofs[0])
      ensures old(server.faults) <= server.faults
    {
      assert (server as object) != this;
      ghost var s := S();
      receipt := server.PostMerge(store.db.deferred[id]);
      standing := MergePosts(s, standing, id, server.panel);
      assert S() == s.(panel := server.panel);
    }

    /** Remember the answer to a merge. */
    method RememberMerge(id: string, receipt: Receipt, now: int)
      requires Valid() && id in store.db.deferred && B.Merges(receipt, store.db.deferred[id])
      modifies store`db
      ensures Valid() && store.db == old(store.db).(deferred := store.db.deferred) && (old(Settled()) ==> Settled())
      ensures Answered(old(store.db), id, receipt, now, store.db)
    {
      ghost var s := S();
      MergeRemembers(s, standing, id, receipt, now);
      var remembered := store.RememberDeferred(B.MergeReport(store.db.deferred[id]), receipt, now);
      assert S() == s.(db := store.db);
    }

    /** One round of the merging loop: submit the two receipts and remember the answer. */
    method MergeOne(merge: Report, id: string, now: int) returns (r: Outcome)
      requires Valid() && id in store.db.deferred && store.db.deferred[id].proofs != []
      requires merge == MergeRequest(store.db.deferred[id])
      modifies store`db, server, this`standing
      ensures Valid() && store.db == old(store.db).(deferred := store.db.deferred)
      ensures old(standing) <= standing && (old(Settled()) ==> standing == old(standing) && Settled())
      ensures r == Done ==> Answered(old(store.db), id, server.said, now, store.db)
      ensures r != Incomplete
      ensures old(server.faults) <= server.faults && (server.faults == old(server.faults) ==> r == Done)
    {
      assert (server as object) != this && (store as object) != this && (server as object) != store;
      ghost var db := store.db;
      var receipt := SubmitMerge(id);
      assert store.db == db;
      if receipt == None {
        return Failed("traffic report was not confirmed");
      }
      if receipt.value == merge.receipt || receipt.value == merge.reconcile {
        return Failed("panel did not reconcile deferred traffic receipts; originals retained");
      }
      RememberMerge(id, receipt.value, now);
      r := Done;
    }

    /** The merging loop. It ends because every answer it accepts settles a proof; without a fault it ends with
        nothing outstanding. It moves the panel only if something about a report the panel has lost was outstanding. */
    method MergeDeferred(now: int) returns (r: Outcome)
      requires Valid()
      modifies store`db, server, this`standing
      ensures Valid() && store.db == old(store.db).(deferred := store.db.deferred)
      ensures old(standing) <= standing && (old(Settled()) ==> standing == old(standing) && Settled())
      ensures r == Done ==> B.Outstanding(store.db.deferred) == {}
      ensures r != Incomplete
      ensures old(server.faults) <= server.faults && (server.faults == old(server.faults) ==> r == Done)
    {
      assert (server as object) != this && (store as object) != this && (server as object) != store;
      while true
        invariant Valid() && store.db == old(store.db).(deferred := store.db.deferred)
        invariant old(standing) <= standing && (old(Settled()) ==> standing == old(standing) && Settled())
        invariant old(server.faults) <= server.faults
        decreases B.Outstanding(store.db.deferred)
      {
        var merge, id := store.DeferredMerge();
        if merge == None {
          return Done;
        }
        r := MergeOne(merge.value, id, now);
        if r != Done {
          return;
        }
      }
    }

    /** One round of the recovery loop: replay report `at` of the log to a panel that stands there or further.
        Without a fault it fails exactly for a panel more than one report further, or for a report that is stuck. */
    method RecoverOne(progress: string, now: int, ghost at: nat) returns (r: Result<Report, string>)
      requires Valid() && at < |log| && at <= standing && progress == IdAt(origin, log, at)
      modifies store`db, server, this`standing
      ensures Valid() && store.db == old(store.db).(deferred := store.db.deferred)
      ensures Untouched(old(store.db.deferred), store.db.deferred, log, at + 1)
      ensures old(standing) <= standing
      ensures r.Ok? ==> SameBytes(r.value, log[at]) && standing == at + 1 && old(standing) <= at + 1
      ensures r.Ok? ==> RememberDb(old(store.db), r.value, server.said, now) == Ok(store.db)
      ensures r.Ok? ==> Shows(origin, log, store.db, at + 1, r.value.id)
      ensures old(server.faults) <= server.faults
      ensures server.faults == old(server.faults) ==>
                (r.Err? <==> old(standing) > at + 1 || Stuck(old(store.db.deferred), log, at))
    {
      assert (server as object) != this && (store as object) != this && (server as object) != store;
      ghost var s := S();
      RecoveryIs(s, standing, at);
      var recovery := store.RecoverAfter(progress);
      if recovery.Err? {
        return recovery;
      }
      ShowsNext(s, standing, at, recovery.value);
      var receipt := server.Post(recovery.value);
      standing := RecoverPosts(s, standing, recovery.value, server.panel, at);
      ghost var posted := s.(panel := server.panel);
      assert S() == posted;
      if receipt == None {
        return Err("traffic report was not confirmed");
      }
      RecoverRemembers(posted, standing, recovery.value, receipt.value, now, at);
      var remembered := store.RememberDeferred(recovery.value, receipt.value, now);
      assert S() == posted.(db := store.db);
      r := if remembered.Err? then Err(remembered.error) else recovery;
    }

    /** The body of the recovery loop, after `sent`. */
    method RecoverNext(progress: string, now: int, ghost before: Records, ghost start: nat, ghost j: nat,
                       ghost sent: seq<Report>)
      returns (r: Result<Report, string>)
      requires Valid() && Recovering(log, before, store.db.deferred, start, standing, j, sent) && |sent| < 100
      requires j + |sent| < |log| && progress == IdAt(origin, log, j + |sent|)
      modifies store`db, server, this`standing
      ensures Valid() && store.db == old(store.db).(deferred := store.db.deferred)
      ensures r.Ok? ==> Recovering(log, before, store.db.deferred, start, standing, j, sent + [r.value])
      ensures r.Ok? ==> Shows(origin, log, store.db, j + |sent| + 1, r.value.id)
      ensures r.Err? ==> Recovered(log, before, store.db.deferred, start, standing, j, sent, Failed(r.error))
      ensures old(server.faults) <= server.faults
      ensures server.faults == old(server.faults) && r.Err? ==> Halts(log, before, start, j, |sent|)
    {
      ghost var at, held, pos := j + |sent|, store.db.deferred, standing;
      InsideTheLog(log, before, held, start, pos, j, sent);
      r := RecoverOne(progress, now, at);
      if r.Ok? {
        RecoveryGoesOn(log, before, held, store.db.deferred, start, pos, j, sent, r.value);
      } else {
        if pos > at + 1 || Stuck(held, log, at) { RecoveryFails(log, before, held, start, pos, j, sent); }
        RecoveryStopped(log, before, held, store.db.deferred, start, pos, standing, j, sent, r.error);
      }
    }

    /** The recovery loop. `j` is where the panel stood when its progress was read. The loop replays log[j],
        log[j + 1], ... in order, at most a hundred of them, until the panel is back at the confirmed report or the
        frozen one. Without a fault it fails only for a report that is stuck, or where a merge has moved the panel
        on. */
    method Recover(start: string, report: Option<Report>, confirmed: string, now: int, ghost j: nat)
      returns (r: Outcome, ghost sent: seq<Report>)
      requires Valid() && j <= standing && Shows(origin, log, store.db, j, start)
      requires report == store.db.pending && confirmed == ConfirmedId(store.db)
      modifies store`db, server, this`standing
      ensures Valid() && store.db == old(store.db).(deferred := store.db.deferred)
      ensures Recovered(log, old(store.db.deferred), store.db.deferred, old(standing), standing, j, sent, r)
      ensures old(server.faults) <= server.faults
      ensures r.Failed? && server.faults == old(server.faults) ==>
                Halts(log, old(store.db.deferred), old(standing), j, |sent|)
    {
      assert (server as object) != this && (store as object) != this && (server as object) != store;
      var progress, count := start, 0;
      ghost var before, begun := store.db.deferred, standing;
      sent := [];
      RecoveryStarts(log, before, begun, j);
      while progress != confirmed && (report == None || progress != report.value.id)
        invariant Valid() && store.db == old(store.db).(deferred := store.db.deferred)
        invariant Recovering(log, before, store.db.deferred, begun, standing, j, sent) && count == |sent| <= 100
        invariant Shows(origin, log, store.db, j + |sent|, progress)
        invariant old(server.faults) <= server.faults
        decreases 100 - count
      {
        if count == 100 {
          RecoveryEnds(log, before, store.db.deferred, begun, standing, j, sent);
          return Incomplete, sent;
        }
        var recovery := RecoverNext(progress, now, before, begun, j, sent);
        if recovery.Err? {
          return Failed(recovery.error), sent;
        }
        sent := sent + [recovery.value];
        progress, count := recovery.value.id, count + 1;
      }
      RecoveryEnds(log, before, store.db.deferred, begun, standing, j, sent);
      r := Done;
    }

    /** Post the frozen report and confirm it on the panel's acknowledgement; it fails only for a fault. */
    method SendOne(now: int) returns (r: Result<Receipt, string>)
      requires Valid() && store.db.pending.Some? && standing >= |log|
      modifies this`log, this`standing, store`db, server
      ensures Valid() && standing >= |log| && old(server.faults) <= server.faults
      ensures r.Ok? ==>
                && log == old(log) + [old(store.db.pending).value.(receipt := r.value)]
                && store.db.pending == None && standing == |log| && r.value == server.said
                && ConfirmDb(old(store.db), old(store.db.pending).value.id, r.value, now) == Ok(store.db)
      ensures r.Err? ==> log == old(log) && store.db == old(store.db) && server.faults > old(server.faults)
    {
      assert (server as object) != this && (store as object) != this && (server as object) != store;
      ghost var s := S();
      var report := store.db.pending.value;
      var receipt := server.Post(report);
      standing := SendPosts(s, standing, server.panel);
      ghost var posted := s.(panel := server.panel);
      assert S() == posted;
      if receipt == None {
        return Err("traffic report was not confirmed");
      }
      SendConfirms(posted, standing, receipt.value, now);
      var confirmed := store.Confirm(report.id, receipt.value, now);
      if confirmed.Err? {
        return Err(confirmed.error);
      }
      log := log + [report.(receipt := receipt.value)];
      assert S() == posted.(db := store.db, log := log);
      r := Ok(receipt.value);
    }

    /** Freeze the next report under the next random id; it fails exactly when a row without an int64 sum blocks it. */
    method FreezeNext(id: string) returns (r: Result<Option<Report>, string>)
      requires Valid() && IsReportId(id) && NewId(S(), id)
      modifies store`db
      ensures Valid()
      ensures r.Err? <==> Blocked(old(store.db))
      ensures r.Err? ==> store.db == old(store.db)
      ensures r.Ok? ==> r.value == store.db.pending && PendingDb(old(store.db), id) == Ok((store.db, store.db.pending))
      ensures r == Ok(None) ==> store.db == old(store.db) && store.db.totals == map[]
      ensures r.Ok? && store.db != old(store.db) ==>
                old(store.db).pending == None && r.value.Some? && r.value.value.id == id
      ensures LedgerInv(old(store.db)) && (r.Ok? ==> store.db.deferred == old(store.db).deferred)
    {
      ghost var s := S();
      FreezeExactly(s, standing, id);
      LedgerIsSound(s, standing);
      r := store.Pending(id);
      if r.Ok? {
        FreezeHolds(s, standing, id, store.db);
        assert S() == s.(db := store.db);
      }
    }

    /** One round of the sending loop: send and confirm, then freeze the next report unless this was the last
        round. `confirmed` is the ledger right after the confirmation. */
    method SendRound(last: bool, ids: nat -> string, n: nat, now: int)
      returns (r: Result<Option<Report>, string>, ghost receipt: Receipt, ghost confirmed: Db)
      requires Valid() && store.db.pending.Some? && standing >= |log| && UnusedIds(S(), ids, n)
      modifies this`log, this`standing, store`db, server
      ensures Valid() && standing >= |log| && old(server.faults) <= server.faults
      ensures log == old(log) ==> r.Err? && server.faults > old(server.faults) && store.db == old(store.db)
      ensures log != old(log) ==>
                && log == old(log) + [old(store.db.pending).value.(receipt := receipt)]
                && ConfirmDb(old(store.db), old(store.db.pending).value.id, receipt, now) == Ok(confirmed)
                && confirmed.pending == None && LedgerInv(confirmed) && standing == |log|
      ensures r.Err? && log != old(log) ==> Blocked(store.db) && store.db == confirmed
      ensures UnusedIds(S(), ids, n + 1) && (r.Ok? ==> log != old(log))
      ensures r.Ok? ==> r.value == store.db.pending
      ensures r.Ok? && last ==> r.value == None
      ensures r.Ok? && r.value == None ==> store.db == confirmed && (last || store.db.totals == map[])
      ensures r.Ok? && r.value.Some? ==>
                IsReportId(ids(n)) && PendingDb(confirmed, ids(n)) == Ok((store.db, store.db.pending)) &&
                  store.db.deferred == confirmed.deferred
    {
      assert (server as object) != this && (store as object) != this && (server as object) != store;
      ghost var s := S();
      receipt, confirmed := NO_RECEIPT, store.db;
      var sent := SendOne(now);
      if sent.Err? {
        SameIds(s, S(), ids, n);
        return Err(sent.error), receipt, confirmed;
      }
      receipt, confirmed := sent.value, store.db;
      ghost var t := S();
      LedgerIsSound(t, standing);
      ConfirmedIdsStayUsed(s, t, ids, n);
      if last {
        FrozenIdIsUsed(t, t, ids, n);
        return Ok(None), receipt, confirmed;
      }
      NextIdIsNew(t, ids, n);
      r := FreezeNext(ids(n));
      FrozenIdIsUsed(t, S(), ids, n);
    }

    /** The body of the sending loop, with the chronicle of its rounds. */
    method SendNext(last: bool, ids: nat -> string, n: nat, now: int, ghost sent: nat, ghost o: Option<Origin>,
                    ghost at: Option<Origin>, ghost dbs: seq<Db>, ghost steps: seq<F.Step>, ghost was: Db)
      returns (r: Result<Option<Report>, string>, ghost at2: Option<Origin>, ghost dbs2: seq<Db>,
               ghost steps2: seq<F.Step>, ghost was2: Db)
      requires Valid() && store.db.pending.Some? && standing >= |log| && UnusedIds(S(), ids, n)
      requires Chronicle(o, dbs, steps, was, sent) && FrozenAt(o, at, store.db, was)
      modifies this`log, this`standing, store`db, server
      ensures Valid() && standing >= |log| && old(server.faults) <= server.faults
      ensures old(log) <= log && |log| <= |old(log)| + 1
      ensures r.Err? ==> server.faults > old(server.faults) || (|log| == |old(log)| + 1 && Blocked(store.db))
      ensures UnusedIds(S(), ids, n + 1)
      ensures r.Ok? ==> |log| == |old(log)| + 1 && r.value == store.db.pending
      ensures r.Ok? && last ==> r.value == None && standing == |log|
      ensures r.Ok? && r.value == None ==>
                (last || store.db.totals == map[]) && Chronicle(o, dbs2, steps2, store.db, sent + 1)
      ensures r.Ok? && r.value.Some? ==> Chronicle(o, dbs2, steps2, was2, sent + 1) && FrozenAt(o, at2, store.db, was2)
    {
      ghost var db := store.db;
      ghost var receipt, confirmed;
      r, receipt, confirmed := SendRound(last, ids, n, now);
      at2, dbs2, steps2, was2 := at, dbs, steps, was;
      if r.Ok? {
        dbs2, steps2 := ChronicleGrows(o, at, dbs, steps, was, sent, db, receipt, now, confirmed);
        was2, at2 := confirmed, Some(Origin(confirmed, ids(n)));
        if r.value.Some? { FrozenNext(o, confirmed, ids(n), store.db); }
      }
    }

    /** The sending loop: up to `batches` reports, each frozen after the one before is confirmed. It ends with that
        many confirmed or with nothing owed; it fails only for a fault, or when the next freeze is blocked. `o` is
        the ledger the first report was frozen from; the loop's rounds lead from there without traffic between. */
    method SendAll(first: Option<Report>, batches: int, ids: nat -> string, n: nat, now: int, ghost o: Option<Origin>)
      returns (r: Outcome, ghost dbs: seq<Db>, ghost steps: seq<F.Step>)
      requires Valid() && first == store.db.pending && standing >= |log| && UnusedIds(S(), ids, n)
      requires first == None ==> store.db.totals == map[]
      requires o.Some? ==> first.Some? && LedgerInv(o.value.db) && FrozenFrom(store.db, o.value)
      modifies this`log, this`standing, store`db, server
      ensures Valid() && standing >= |log| && old(log) <= log && old(server.faults) <= server.faults
      ensures r != Incomplete && |log| <= |old(log)| + AtLeastOne(batches) && (first == None ==> log == old(log))
      ensures r == Done ==> store.db.pending == None && standing == |log|
      ensures r == Done ==> store.db.totals == map[] || |log| == |old(log)| + AtLeastOne(batches)
      ensures r.Failed? ==> server.faults > old(server.faults) || (|log| > |old(log)| && Blocked(store.db))
      ensures r == Done ==> Chronicle(o, dbs, steps, store.db, |log| - |old(log)|)
      ensures UnusedIds(S(), ids, n + AtLeastOne(batches))
    {
      assert (server as object) != this && (store as object) != this && (server as object) != store;
      var report, sent := first, 1;
      dbs, steps := if o.Some? then [o.value.db] else [store.db], [];
      ghost var at, was, begun := o, dbs[0], |log|;
      while report.Some?
        invariant Valid() && standing >= |log| && old(log) <= log && old(server.faults) <= server.faults
        invariant report == store.db.pending && UnusedIds(S(), ids, n + sent - 1)
        invariant first == None ==> report == None && log == old(log)
        invariant 1 <= sent && |log| == begun + sent - 1 && (sent <= batches || sent == 1)
        invariant report == None ==> store.db.totals == map[] && Chronicle(o, dbs, steps, store.db, sent - 1)
        invariant report.Some? ==> Chronicle(o, dbs, steps, was, sent - 1) && FrozenAt(o, at, store.db, was)
        decreases batches - sent
      {
        var next;
        next, at, dbs, steps, was :=
          SendNext(sent >= batches, ids, n + sent - 1, now, sent - 1, o, at, dbs, steps, was);
        FewerIds(S(), ids, n + sent, n + AtLeastOne(batches));
        if next.Err? {
          return Failed(next.error), dbs, steps;
        }
        if sent >= batches {
          return Done, dbs, steps;
        }
        report, sent := next.value, sent + 1;
      }
      NoFurther(S(), standing);
      FewerIds(S(), ids, n + sent - 1, n + AtLeastOne(batches));
      r := Done;
    }

    /** The report of this cycle: the one that is frozen, or a new one. */
    method FreezeFirst(ids: nat -> string, n: nat) returns (r: Result<Option<Report>, string>)
      requires Valid() && UnusedIds(S(), ids, n)
      modifies store`db
      ensures Valid() && UnusedIds(S(), ids, n + 1) && LedgerInv(old(store.db))
      ensures (r.Err? <==> Blocked(old(store.db))) && (r.Err? ==> store.db == old(store.db))
      ensures r.Ok? ==>
                && r.value == store.db.pending && !Blocked(store.db)
                && store.db.totals == old(store.db).totals && store.db.deferred == old(store.db).deferred
      ensures r.Ok? ==> if old(store.db).pending.Some? then r.value == old(store.db).pending
                        else Begun(old(store.db), ids(n), r.value, store.db)
    {
      ghost var s := S();
      NextIdIsNew(s, ids, n);
      r := FreezeNext(ids(n));
      FrozenIdIsUsed(s, S(), ids, n);
      if r.Ok? { BegunFrom(s.db, ids(n), store.db); }
    }

    /** Read the panel's progress and merge what is outstanding. */
    method Consult(now: int) returns (r: Outcome, progress: string)
      requires Valid()
      modifies store`db, server, this`standing
      ensures Valid() && store.db == old(store.db).(deferred := store.db.deferred)
      ensures r != Incomplete && old(standing) <= standing && old(server.faults) <= server.faults
      ensures old(Settled()) ==> standing == old(standing) && Settled()
      ensures r == Done ==> Shows(origin, log, store.db, old(standing), progress)
      ensures r == Done ==> B.Outstanding(store.db.deferred) == {}
      ensures r.Failed? ==> server.faults > old(server.faults)
    {
      assert (server as object) != this && (store as object) != this && (server as object) != store;
      progress := "";
      ghost var held := store.db.deferred;
      ShowsNow(S(), standing);
      var reply := Progress(now);
      if old(Settled()) { UntouchedClear(held, store.db.deferred, log, standing); }
      if reply.Err? {
        return Failed(reply.error), progress;
      }
      progress := reply.value;
      r := MergeDeferred(now);
    }

    /** The first half of a cycle: freeze a report, read the panel's progress, merge what is outstanding. */
    method Prepare(ids: nat -> string, n: nat, now: int)
      returns (r: Outcome, report: Option<Report>, progress: string)
      requires Valid() && UnusedIds(S(), ids, n)
      modifies store`db, server, this`standing
      ensures Valid() && r != Incomplete && old(standing) <= standing && old(server.faults) <= server.faults
      ensures old(Settled()) ==> standing == old(standing) && Settled()
      ensures r.Failed? ==> server.faults > old(server.faults) || Blocked(old(store.db))
      ensures Blocked(old(store.db)) ==> r.Failed? && store.db == old(store.db) && standing == old(standing)
      ensures UnusedIds(S(), ids, n + 1)
      ensures r == Done ==> report == store.db.pending && Shows(origin, log, store.db, old(standing), progress)
      ensures r == Done ==> B.Outstanding(store.db.deferred) == {} && !Blocked(store.db)
      ensures r == Done ==> if old(store.db).pending.Some? then report == old(store.db).pending
                            else Begun(old(store.db), ids(n), report, store.db)
      ensures LedgerInv(old(store.db)) && (r == Done ==> store.db.totals == old(store.db).totals)
    {
      assert (server as object) != this && (store as object) != this && (server as object) != store;
      report, progress := None, "";
      var frozen := FreezeFirst(ids, n);
      if frozen.Err? {
        return Failed(frozen.error), report, progress;
      }
      ghost var t := S();
      report := frozen.value;
      r, progress := Consult(now);
      SameIds(t, S(), ids, n + 1);
      StillNotBlocked(t.db, store.db);
      if old(store.db).pending == None { BegunOn(old(store.db), ids(n), report, t.db, store.db); }
    }

    /** The second half of a cycle: bring the panel up to the log, then send. */
    method Finish(report: Option<Report>, progress: string, batches: int, ids: nat -> string, n: nat, now: int,
                  ghost j: nat, ghost o: Option<Origin>)
      returns (r: Outcome, ghost replayed: seq<Report>, ghost dbs: seq<Db>, ghost steps: seq<F.Step>)
      requires Valid() && UnusedIds(S(), ids, n) && report == store.db.pending &&
               (report == None ==> store.db.totals == map[])
      requires j <= standing && Shows(origin, log, store.db, j, progress)
      requires o.Some? ==> report.Some? && LedgerInv(o.value.db) && FrozenFrom(store.db, o.value)
      modifies this`log, this`standing, store`db, server
      ensures Valid() && old(server.faults) <= server.faults
      ensures Finishes(old(log), old(store.db), old(standing), j, log, store.db, standing, replayed, batches, r,
                       server.faults == old(server.faults))
      ensures (report == None ==> log == old(log)) && (r == Done ==>
                Chronicle(o, dbs, steps, store.db, |log| - |old(log)|))
      ensures UnusedIds(S(), ids, n + AtLeastOne(batches)) && (r == Incomplete ==> UnusedIds(S(), ids, n))
    {
      assert (server as object) != this && (store as object) != this && (server as object) != store;
      dbs, steps := [], [];
      var confirmed := store.Confirmed();
      ghost var s, pos := S(), standing;
      r, replayed := Recover(progress, report, confirmed, now, j);
      SameIds(s, S(), ids, n);
      FewerIds(S(), ids, n, n + AtLeastOne(batches));
      if r != Done {
        RecoveryFinishes(s.log, s.db, pos, j, store.db, standing, replayed, batches, r,
                         server.faults == old(server.faults));
      } else {
        r, dbs, steps := SendAll(report, batches, ids, n, now, o);
        SendingFinishes(s.log, s.db, pos, j, replayed, log, store.db, standing, batches, r,
                        server.faults == old(server.faults));
      }
    }

    /** The second half, as the end of a cycle that began with the ledger `start` and the panel at `at`. */
    method Complete(report: Option<Report>, progress: string, batches: int, ids: nat -> string, drawn: nat, now: int,
                    ghost start: Db, ghost at: nat, ghost settled: bool)
      returns (r: Outcome, ghost replayed: seq<Report>, ghost dbs: seq<Db>, ghost steps: seq<F.Step>)
      requires Valid() && UnusedIds(S(), ids, drawn + 1) && report == store.db.pending
      requires report == None ==> store.db.totals == map[]
      requires !Blocked(start) && !Blocked(store.db) && B.Outstanding(store.db.deferred) == {} && LedgerInv(start)
      requires at <= standing && (settled ==> standing == at) && Shows(origin, log, store.db, at, progress)
      requires start.pending == None ==> Begun(start, ids(drawn), report, store.db)
      requires store.db.totals == start.totals && batches == BatchesFor(|start.totals.Keys|)
      modifies this`log, this`standing, store`db, server
      ensures Valid() && old(server.faults) <= server.faults
      ensures CycleEnds(old(log), start, at, settled, log, store.db, standing, Settled(), replayed, r,
                        server.faults == old(server.faults))
      ensures r == Done ==> Completed(start, |old(log)|, store.db, |log|, dbs, steps)
      ensures UnusedIds(S(), ids, drawn + 1 + AtLeastOne(batches))
      ensures r == Incomplete ==> UnusedIds(S(), ids, drawn + 1)
    {
      ghost var t, pos := S(), standing;
      ghost var o := if start.pending == None && report.Some? then Some(Origin(start, ids(drawn))) else None;
      r, replayed, dbs, steps := Finish(report, progress, batches, ids, drawn + 1, now, at, o);
      FinishEndsCycle(t.log, start, at, settled, t.db, pos, log, store.db, standing, replayed, batches, r,
                      server.faults == old(server.faults));
      if report == None { dbs, steps := [start], []; }
      FinishIs(t.log, t.db, pos, at, log, store.db, standing, replayed, batches, r,
               server.faults == old(server.faults));
      if r == Done { CycleCompletes(start, report, o, |t.log|, store.db, |log|, dbs, steps); }
    }

    /** `ReportUserTraffic`. Whatever the outcome, nothing accepted is lost. What is replayed is a stretch of the log
        from where the panel stood. After `Done` node and panel agree, and the planned number of reports has been
        confirmed or nothing is owed; if the cycle began with nothing frozen, its rounds lead from the ledger at its
        start to the one at its end. Without a fault a cycle fails only for a row without an int64 sum, for a report
        confirmed without a receipt, or where its merges had moved the panel on by two reports or more; and then
        nothing awaits merging any more. */
    method ReportUserTraffic(ids: nat -> string, drawn: nat, now: int)
      returns (r: Outcome, ghost replayed: seq<Report>, ghost dbs: seq<Db>, ghost steps: seq<F.Step>)
      requires Valid() && UnusedIds(S(), ids, drawn)
      modifies this`log, this`standing, store`db, server
      ensures Valid() && old(server.faults) <= server.faults
      ensures CycleEnds(old(log), old(store.db), old(standing), old(Settled()), log, store.db, standing, Settled(),
                        replayed, r, server.faults == old(server.faults))
      ensures r == Done ==> Completed(old(store.db), |old(log)|, store.db, |log|, dbs, steps)
      ensures UnusedIds(S(), ids, drawn + 1 + AtLeastOne(BatchesFor(|old(store.db).totals.Keys|)))
      ensures r == Incomplete ==> UnusedIds(S(), ids, drawn + 1)
    {
      assert (server as object) != this && (store as object) != this && (server as object) != store;
      replayed, dbs, steps := [], [], [];
      ghost var start, at, settled := store.db, standing, Settled();
      var batches := store.PendingBatches();
      var report, progress;
      r, report, progress := Prepare(ids, drawn, now);
      if r == Done {
        r, replayed, dbs, steps := Complete(report, progress, batches, ids, drawn, now, start, at, settled);
      } else {
        CycleFails(log, start, at, settled, store.db, standing, Settled(), r, server.faults == old(server.faults));
        FewerIds(S(), ids, drawn + 1, drawn + 1 + AtLeastOne(batches));
      }
    }

    /** No report the panel has lost came without a receipt, and no row without an int64 sum blocks the next freeze:
        nothing but a fault can then keep the lost reports from being replayed. */
    ghost predicate Recoverable()
      reads this, store
    {
      Replayable(log, standing) && !Blocked(store.db)
    }

    /** One cycle of the reporting task, which has drawn `drawn` ids before. */
    method NextCycle(ids: nat -> string, drawn: nat, now: int) returns (r: Outcome, next: nat)
      requires Valid() && UnusedIds(S(), ids, drawn)
      modifies this`log, this`standing, store`db, server
      ensures Valid() && old(log) <= log && old(server.faults) <= server.faults && UnusedIds(S(), ids, next)
      ensures server.faults == old(server.faults) && old(Recoverable()) ==>
                Gains(old(log), old(standing), old(Settled()), log, store.db, standing, Settled(), r)
      ensures Blocked(old(store.db)) ==>
                r.Failed? && log == old(log) && standing == old(standing) && store.db == old(store.db)
    {
      assert (server as object) != this && (store as object) != this && (server as object) != store;
      var batches := store.PendingBatches();
      ghost var s, n, clear, replayed, dbs, steps := S(), standing, Settled(), [], [], [];
      r, replayed, dbs, steps := ReportUserTraffic(ids, drawn, now);
      CycleFrame(s.log, s.db, n, clear, log, store.db, standing, Settled(), replayed, r,
                 server.faults == old(server.faults));
      if server.faults == old(server.faults) && old(Recoverable()) {
        CycleGains(s.log, s.db, n, clear, log, store.db, standing, Settled(), replayed, r);
      }
      next := drawn + 1 + AtLeastOne(batches);
    }

    /** The reporting task: cycle after cycle, at most `most`, until one is done. Without a fault, and if every lost
        report came with a receipt, n lost reports are replayed in n / 100 cycles, rounded up, and the panel is back at
        the end of the log; one cycle more is enough if something about a lost report awaited merging at first. */
    method CatchUp(ids: nat -> string, now: nat -> int, most: nat) returns (r: Outcome, cycles: nat)
      requires Valid() && UnusedIds(S(), ids, 0)
      modifies this`log, this`standing, store`db, server
      ensures Valid() && old(log) <= log && old(server.faults) <= server.faults
      ensures var lost, more := |old(log)| - old(standing), if old(Settled()) then 0 else 1;
              server.faults == old(server.faults) && old(Recoverable()) && most >= Cycles(lost) + more ==>
                && Caught(old(log), log, store.db, standing, r)
                && (r == Done ==> cycles <= Cycles(lost) + more && (more == 0 ==> cycles == Cycles(lost)))
    {
      assert (server as object) != this && (store as object) != this && (server as object) != store;
      ghost var before, lost, first := log, |log| - standing, Settled();
      r, cycles := Failed(""), 0;
      var drawn := 0;
      while cycles < most && r != Done
        invariant Valid() && before <= log && old(server.faults) <= server.faults && UnusedIds(S(), ids, drawn)
        invariant cycles <= most
        invariant server.faults == old(server.faults) && old(Recoverable()) ==>
                    CatchesUp(before, lost, first, cycles, log, store.db, standing, Settled(), r)
        decreases most - cycles
      {
        ghost var s, n, clear, was := S(), standing, Settled(), r;
        r, drawn := NextCycle(ids, drawn, now(cycles));
        if server.faults == old(server.faults) && old(Recoverable()) {
          CatchUpOn(before, lost, first, cycles, s.log, s.db, n, clear, was, log, store.db, standing, Settled(), r);
        }
        cycles := cycles + 1;
      }
    }
  }
}
