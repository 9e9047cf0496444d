/** The conversion as it runs: read, cross-check, subtract what the checkpoint covers. */
module LedgerConversion {
  import opened Wrappers
  import opened ConversionRules

  method Load(bucket: Option<Table>) returns (r: Result<Table, Failure>)
    ensures r == if bucket.Some? && ValidTable(bucket.value) then Ok(bucket.value) else Err(BadTable)
  {
    if bucket.None? { return Err(BadTable); }
    var result: Table := map[];
    var todo := bucket.value.Keys;
    while todo != {}
      invariant todo <= bucket.value.Keys && result.Keys == bucket.value.Keys - todo
      invariant ValidTable(result) && forall id :: id in result ==> result[id] == bucket.value[id]
      decreases |todo|
    {
      var id := Pick(todo);
      todo := todo - {id};
      if !ValidAccount(id) || !ValidAmounts(bucket.value[id]) { return Err(BadTable); }
      result := result[id := bucket.value[id]];
    }
    assert result == bucket.value;
    return Ok(result);
  }

  method ReadReport(p: Report) returns (ok: bool)
    ensures ok <==> ValidReport(p)
  {
    if p.id == Other || |p.data| == 0 || |p.data| > 1000 { return false; }
    var last, total := 0, 0;
    for i := 0 to |p.data|
      invariant forall j :: 0 <= j < i ==> ValidRow(p.data[j]) && p.data[j].uid <= last
      invariant forall j, k :: 0 <= j < k < i ==> p.data[j].uid < p.data[k].uid
      invariant last == (if i == 0 then 0 else p.data[i - 1].uid) && total == RowSum(p.data, i) &&
                0 <= total <= MAX_INT64
    {
      var u := p.data[i];
      if u.uid <= last || u.up < 0 || u.down < 0 || u.up > MAX_INT64 - u.down || u.up + u.down == 0 ||
        total > MAX_INT64 - u.up - u.down {
        ReportFails(p, i);
        return false;
      }
      last, total := u.uid, total + u.up + u.down;
    }
    return true;
  }

  method Add(target: Table, id: Uid, value: Amounts) returns (ok: bool, after: Table)
    requires Fits(value)
    ensures ok <==> Fits(Plus(At(target, id), value))
    ensures ok ==> after == target[id := Plus(At(target, id), value)]
  {
    var was := At(target, id);
    if was.up > MAX_INT64 - value.up || was.down > MAX_INT64 - value.down { return false, target; }
    return true, target[id := Amounts(was.up + value.up, was.down + value.down)];
  }

  method Subtract(target: Table, id: Uid, value: Amounts) returns (ok: bool, after: Table)
    ensures ok <==> Covers(At(target, id), value)
    ensures !ok ==> after == target
    ensures ok ==> Taken(target, after, id, value)
    ensures NoZero(target) ==> NoZero(after)
  {
    var was := At(target, id);
    if was.up < value.up || was.down < value.down { return false, target; }
    if was == value { return true, target - {id}; }
    return true, target[id := Amounts(was.up - value.up, was.down - value.down)];
  }

  /** One queue entry into the components. */
  method AddEntry(components: Table, legacy: Table, queued: map<Number, Entry>, users: map<Uid, Number>,
                  ghost done: set<Number>, n: Number)
    returns (ok: bool, after: Table)
    requires n in queued && done + {n} <= queued.Keys && n !in done && EntryOk(n, queued[n], users, Some(n.n))
    requires NoZero(components) && FitsAll(components) && SumsTo(components, legacy, queued, users, done)
    ensures ok ==> NoZero(after) && FitsAll(after) && SumsTo(after, legacy, queued, users, done + {n})
    ensures !ok ==> !SumsFit(legacy, queued, users)
  {
    var uid, value := queued[n].uid, queued[n].value;
    ok, after := Add(components, uid, value);
    if ok {
      StepFits(components, legacy, queued, users, done, n, after);
    } else {
      StepTooBig(components, legacy, queued, users, done, n);
    }
  }

  /** The queue loop: the components so far, if its entries are sound and nothing overflows. */
  method SumQueue(queued: map<Number, Entry>, users: map<Uid, Number>, local: Option<nat>, legacy: Table)
    returns (r: Result<Table, Failure>)
    requires ValidTable(legacy)
    ensures r.Ok? <==> EntriesOk(queued, users, local) && SumsFit(legacy, queued, users)
    ensures r.Ok? ==> NoZero(r.value) && FitsAll(r.value) && SumsTo(r.value, legacy, queued, users, queued.Keys)
    ensures r.Err? ==> r.error != Short
  {
    SumStart(legacy, queued, users);
    var components, todo := legacy, queued.Keys;
    ghost var done: set<Number> := {};
    while todo != {}
      invariant todo <= queued.Keys && done == queued.Keys - todo
      invariant forall n :: n in done ==> EntryOk(n, queued[n], users, local)
      invariant NoZero(components) && FitsAll(components) && SumsTo(components, legacy, queued, users, done)
      decreases |todo|
    {
      var n := Pick(todo);
      todo := todo - {n};
      if !EntryOk(n, queued[n], users, local) { return Err(BadQueue); }
      var ok;
      ok, components := AddEntry(components, legacy, queued, users, done, n);
      if !ok { return Err(Overflow); }
      done := done + {n};
    }
    assert done == queued.Keys;
    SumsToFit(components, legacy, queued, users);
    return Ok(components);
  }

  /** The index loop. */
  method CheckUsers(users: map<Uid, Number>, queued: map<Number, Entry>) returns (ok: bool)
    ensures ok <==> UsersOk(queued, users)
  {
    var left := users.Keys;
    while left != {}
      invariant left <= users.Keys && forall id :: id in users && id !in left ==> UserOk(id, users[id], queued)
      decreases |left|
    {
      var id := Pick(left);
      left := left - {id};
      if !UserOk(id, users[id], queued) { return false; }
    }
    return true;
  }

  /** The rows of a pending report of the new kind into the components. */
  method AddReport(base: Table, data: seq<Row>) returns (ok: bool, components: Table)
    requires ValidRows(data) && Ascending(data) && NoZero(base) && FitsAll(base)
    ensures ok <==> SumsFitWith(base, Reported(data, |data|))
    ensures ok ==> NoZero(components) && FitsAll(components) && Splits(components, base, Reported(data, |data|))
  {
    components := base;
    SplitsStart(base);
    for i := 0 to |data|
      invariant NoZero(components) && FitsAll(components) && Splits(components, base, Reported(data, i))
    {
      var u := data[i];
      assert ValidRow(u);
      ghost var before := components;
      ok, components := Add(components, Uid(u.uid), Amounts(u.up, u.down));
      if !ok {
        RowTooBig(before, base, data, i);
        return;
      }
      RowAdded(before, base, data, i, components);
    }
    SplitsFit(components, base, Reported(data, |data|));
    ok := true;
  }

  /** The old totals must cover a pending report of an old kind. */
  method LegacyCovers(legacy: Table, data: seq<Row>) returns (ok: bool)
    requires ValidRows(data) && Ascending(data)
    ensures ok <==> CoversAll(legacy, Reported(data, |data|))
  {
    for i := 0 to |data|
      invariant CoversAll(legacy, Reported(data, i))
    {
      var u := data[i];
      assert ValidRow(u);
      if At(legacy, Uid(u.uid)).up < u.up || At(legacy, Uid(u.uid)).down < u.down {
        CoversFails(legacy, data, i);
        return false;
      }
      CoversMore(legacy, data, i);
    }
    return true;
  }

  /** Subtracting a report that the totals cover never falls short. */
  method SubtractReport(totals: Table, data: seq<Row>) returns (ok: bool, rest: Table)
    requires ValidRows(data) && Ascending(data) && CoversAll(totals, Reported(data, |data|))
    ensures ok && Splits(totals, rest, Reported(data, |data|)) && (NoZero(totals) ==> NoZero(rest))
  {
    rest := totals;
    SplitsStart(totals);
    for i := 0 to |data|
      invariant Splits(totals, rest, Reported(data, i)) && (NoZero(totals) ==> NoZero(rest))
    {
      var u := data[i];
      assert ValidRow(u);
      RowCovered(totals, rest, data, i);
      ghost var before := rest;
      ok, rest := Subtract(rest, Uid(u.uid), Amounts(u.up, u.down));
      if !ok { assert false; return; }
      RowTaken(totals, before, data, i, rest);
    }
    ok := true;
  }

  method SubtractLegacy(totals: Table, legacy: Table) returns (ok: bool, rest: Table)
    requires CoversAll(totals, legacy)
    ensures ok && Splits(totals, rest, legacy) && (NoZero(totals) ==> NoZero(rest))
  {
    rest := totals;
    var todo := legacy.Keys;
    ghost var done: set<Uid> := {};
    AmongAll(legacy);
    SplitsStart(totals);
    while todo != {}
      invariant todo <= legacy.Keys && done == legacy.Keys - todo
      invariant Splits(totals, rest, Among(legacy, done)) && (NoZero(totals) ==> NoZero(rest))
      decreases |todo|
    {
      var id := Pick(todo);
      todo := todo - {id};
      AmongMore(legacy, done, id);
      StillCovers(totals, rest, Among(legacy, done), legacy, id);
      ghost var before := rest;
      ok, rest := Subtract(rest, id, legacy[id]);
      if !ok { assert false; return; }
      ShrinkStep(totals, before, Among(legacy, done), id, legacy[id], rest);
      done := done + {id};
    }
    assert done == legacy.Keys;
    ok := true;
  }

  method SubtractQueued(totals: Table, queued: map<Number, Entry>, users: map<Uid, Number>, local: Option<nat>,
                        cp: Checkpoint)
    returns (ok: bool, rest: Table)
    requires EntriesOk(queued, users, local) && cp.id.Some? && cp.id.value.V3?
    requires CoversAll(totals, QueuedTable(queued, users, CoveredSeqs(queued, cp)))
    ensures ok && Splits(totals, rest, QueuedTable(queued, users, CoveredSeqs(queued, cp))) &&
            (NoZero(totals) ==> NoZero(rest))
  {
    rest := totals;
    var todo := queued.Keys;
    ghost var all, done: set<Number> := CoveredSeqs(queued, cp), {};
    assert QueuedTable(queued, users, {}) == map[];
    SplitsStart(totals);
    while todo != {}
      invariant todo <= queued.Keys && done == all - todo
      invariant Splits(totals, rest, QueuedTable(queued, users, done)) && (NoZero(totals) ==> NoZero(rest))
      decreases |todo|
    {
      var n := Pick(todo);
      todo := todo - {n};
      if n.n <= cp.id.value.n {
        assert EntryOk(n, queued[n], users, local);
        QueuedTableMore(queued, users, done, n);
        QueuedCovered(totals, rest, queued, users, done, all, n);
        ghost var before := rest;
        ok, rest := Subtract(rest, queued[n].uid, queued[n].value);
        if !ok { assert false; return; }
        ShrinkStep(totals, before, QueuedTable(queued, users, done), queued[n].uid, queued[n].value, rest);
        done := done + {n};
      }
    }
    assert done == all;
    ok := true;
  }

  /** What a pending report must meet, and its part in the components. */
  method PendingComponents(queue: Table, p: Report, cp: Checkpoint, legacy: Table, local: Option<nat>)
    returns (r: Result<Table, Failure>)
    requires ValidReport(p) && NoZero(queue) && FitsAll(queue) && CheckpointOk(cp)
    ensures r.Ok? <==> PendingOk(p, cp, legacy, local) && (p.id.V3? ==> SumsFitWith(queue, Reported(p.data, |p.data|)))
    ensures r.Ok? ==>
              NoZero(r.value) &&
              if p.id.V3? then Splits(r.value, queue, Reported(p.data, |p.data|)) else r.value == queue
    ensures r.Err? ==> r.error != Short
  {
    var v2 := cp.id.Some? && cp.id.value.V2?;
    if v2 && (p.id.Plain? || (p.id.V2? && p.id.n < cp.id.value.n)) { return Err(Undecidable); }
    if p.id.V3? && legacy != map[] { return Err(Mixed); }
    if Numbered(p.id) {
      if local.None? || p.id.n > local.value { return Err(Ahead); }
      if v2 && p.id.V3? && p.id.n <= cp.id.value.n { return Err(Ahead); }
    }
    var all := queue;
    if p.id.V3? {
      var ok;
      ok, all := AddReport(queue, p.data);
      if !ok { return Err(Overflow); }
    } else {
      var ok := LegacyCovers(legacy, p.data);
      if !ok { return Err(Uncovered); }
    }
    if cp.id == Some(p.id) && cp.hash != DigestOf(p.data) { return Err(WrongHash); }
    return Ok(all);
  }

  /** Do the parts of a ledger of the new format check out against its totals and the panel's progress? */
  method CrossCheck(s: Store, cp: Checkpoint) returns (failure: Option<Failure>)
    requires CheckpointOk(cp) && s.totals.Some? && ValidTable(s.totals.value)
    requires s.pending.Some? ==> ValidReport(s.pending.value)
    ensures failure.None? <==> NewFormat(s, cp)
    ensures failure != Some(Short)
  {
    if s.ledger != Some(3) { return Some(Unsupported); }
    if cp.id.Some? && (s.sequence.None? || s.sequence.value < cp.id.value.n) { return Some(Behind); }
    var legacy := Load(s.legacy);
    if legacy.Err? { return Some(BadTable); }
    if s.queued.None? || s.users.None? { return Some(Incomplete); }
    var queue := SumQueue(s.queued.value, s.users.value, s.sequence, legacy.value);
    if queue.Err? {
      if Balanced(s) { BalancedFits(s); }
      return Some(queue.error);
    }
    var indexed := CheckUsers(s.users.value, s.queued.value);
    if !indexed { return Some(BadQueue); }
    var all := queue;
    SplitsStart(queue.value);
    if s.pending.Some? {
      all := PendingComponents(queue.value, s.pending.value, cp, legacy.value, s.sequence);
      if all.Err? {
        if Balanced(s) { BalancedFitsPending(s, queue.value); }
        return Some(all.error);
      }
    }
    BuiltBalances(s, queue.value, all.value);
    if all.value != s.totals.value { return Some(Unbalanced); }
    return None;
  }

  /** The subtractions: none falls short, in whatever order the maps are walked. */
  method Deduct(s: Store, cp: Checkpoint) returns (ok: bool, totals: Table)
    requires NewFormat(s, cp) && NoZero(s.totals.value) && (s.pending.Some? ==> ValidReport(s.pending.value))
    ensures ok && HoldsOwed(totals, s, cp) && NoZero(totals)
  {
    AllOldCovered(s, cp);
    LegacyThere(s, cp);
    totals := s.totals.value;
    ghost var a, b := totals, totals;
    if cp.id.Some? && cp.id.value.V3? {
      ok, totals := SubtractLegacy(totals, s.legacy.value);
      if !ok { assert false; return; }
      a := totals;
      QueueThere(s, cp, a);
      ok, totals := SubtractQueued(totals, s.queued.value, s.users.value, s.sequence, cp);
      if !ok { assert false; return; }
      b := totals;
    } else {
      SplitsStart(totals);
      QueueCoveredNone(s, cp);
    }
    PendingThere(s, cp, a, b);
    if s.pending.Some? && PanelPast(cp, s.pending.value.id) {
      ok, totals := SubtractReport(totals, s.pending.value.data);
      if !ok { assert false; return; }
    } else {
      SplitsStart(totals);
    }
    OwedAll(s, cp, a, b, totals);
    ok := true;
  }

  method CheckRange(rest: Table) returns (ok: bool)
    ensures ok <==> forall id :: id in rest ==> Joint(rest[id]) <= MAX_INT64
  {
    var todo := rest.Keys;
    while todo != {}
      invariant todo <= rest.Keys && forall id :: id in rest && id !in todo ==> Joint(rest[id]) <= MAX_INT64
      decreases |todo|
    {
      var id := Pick(todo);
      todo := todo - {id};
      if rest[id].up > MAX_INT64 - rest[id].down { return false; }
    }
    return true;
  }

  /** Setting the retained report aside: the rest must fit the original format. */
  method CheckRemaining(s: Store, cp: Checkpoint, totals: Table) returns (ok: bool, inRange: bool)
    requires NewFormat(s, cp) && HoldsOwed(totals, s, cp) && (s.pending.Some? ==> ValidReport(s.pending.value))
    ensures ok && (inRange <==> InRange(s, cp)) && CoversAll(totals, RetainedRows(s, cp))
  {
    AllOldCovered(s, cp);
    RetainedThere(s, cp, totals);
    var rest := totals;
    if s.pending.Some? && !PendingBilled(s.pending.value, cp) {
      ok, rest := SubtractReport(totals, s.pending.value.data);
      if !ok { assert false; return; }
    } else {
      SplitsStart(totals);
    }
    RangeIs(s, cp, totals, rest);
    inRange := CheckRange(rest);
    ok := true;
  }

  /** `prepare`. `hex` is the random number a retained report is given. It converts exactly the ledgers that
      `Convertible` describes, and never fails for want of traffic to subtract. */
  method Prepare(s: Store, cp: Checkpoint, hex: nat) returns (r: Result<Conversion, Failure>)
    ensures r.Ok? <==> Convertible(s, cp)
    ensures r != Err(Short)
    ensures r.Ok? && s.ledger == None ==> r.value == Conversion(s.totals.value, s.pending, true)
    ensures r.Ok? && s.ledger != None ==> Converted(s, cp, hex, r.value)
    ensures r.Ok? ==> (r.value.original <==> s.ledger == None)
  {
    if cp.id.Some? && !Numbered(cp.id.value) { return Err(BadCheckpoint); }
    if cp.id.Some? && !cp.hash.DigestOf? { return Err(BadCheckpoint); }
    if cp.id.None? && cp.hash != NoDigest { return Err(BadCheckpoint); }
    var totals := Load(s.totals);
    if totals.Err? { return Err(totals.error); }
    if !s.meta { return Err(Incomplete); }
    if s.pending.Some? {
      var readable := ReadReport(s.pending.value);
      if !readable { return Err(BadReport); }
    }
    if s.ledger == None {
      if s.sequence.Some? || s.legacy.Some? || s.queued.Some? || s.users.Some? ||
        (s.pending.Some? && !s.pending.value.id.Plain?) {
        return Err(Incomplete);
      }
      if cp.id.Some? { return Err(Billed); }
      return Ok(Conversion(totals.value, s.pending, true));
    }
    var failure := CrossCheck(s, cp);
    if failure.Some? { return Err(failure.value); }
    var ok, left := Deduct(s, cp);
    if !ok { assert false; return Err(Unsupported); }
    var pending := s.pending;
    if pending.Some? {
      if PendingBilled(pending.value, cp) {
        pending := None;
      } else if Numbered(pending.value.id) {
        pending := Some(pending.value.(id := Plain(hex)));
      }
    }
    var inRange;
    ok, inRange := CheckRemaining(s, cp, left);
    if !inRange { return Err(TooLarge); }
    return Ok(Conversion(left, pending, false));
  }
}
