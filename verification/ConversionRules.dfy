/** The one-off conversion of a deployed traffic ledger back to the original format: which ledgers convert,
    and what of them the panel has already billed and what must stay owed. */
module ConversionRules {
  import opened Wrappers

  datatype Amounts = Amounts(up: nat, down: nat)

  /** The account in an eight-byte bucket key. */
  datatype Uid = Uid(n: int)

  /** The sequence number in a sixteen-byte queue key. */
  datatype Number = Number(n: nat)

  const ZERO: Amounts := Amounts(0, 0)

  type Table = map<Uid, Amounts>

  function At(m: Table, id: Uid): Amounts { if id in m then m[id] else ZERO }

  function Plus(a: Amounts, b: Amounts): Amounts { Amounts(a.up + b.up, a.down + b.down) }

  predicate Covers(a: Amounts, b: Amounts) { a.up >= b.up && a.down >= b.down }

  function Minus(a: Amounts, b: Amounts): Amounts {
    if Covers(a, b) then Amounts(a.up - b.up, a.down - b.down) else ZERO
  }

  predicate Fits(a: Amounts) { a.up <= MAX_INT64 && a.down <= MAX_INT64 }

  /** `readAmounts`: counters of at most an int64, not both zero. */
  predicate ValidAmounts(a: Amounts) { Fits(a) && a != ZERO }

  predicate ValidAccount(id: Uid) { 0 < id.n <= MAX_INT64 }

  ghost predicate NoZero(m: Table) { forall id :: id in m ==> m[id] != ZERO }

  ghost predicate ValidTable(m: Table) {
    forall id :: id in m ==> ValidAccount(id) && ValidAmounts(m[id])
  }

  /** A report or confirmation number: bare in the original format, else tagged and in sequence. `Other` is any
      other text. */
  datatype Id = Plain(hex: nat) | V2(n: nat) | V3(n: nat) | Other

  predicate Numbered(id: Id) { id.V2? || id.V3? }

  datatype Row = Row(uid: int, up: int, down: int)

  datatype Report = Report(id: Id, data: seq<Row>)

  /** A hash is taken to be injective: it stands for the rows it was computed from. */
  datatype Digest = NoDigest | Malformed | DigestOf(data: seq<Row>)

  /** The panel's progress; `id` is None where the export has an empty number. */
  datatype Checkpoint = Checkpoint(id: Option<Id>, hash: Digest)

  datatype Entry = Entry(uid: Uid, value: Amounts)

  /** The buckets and keys of the ledger file; None where one is missing. */
  datatype Store = Store(totals: Option<Table>, meta: bool, pending: Option<Report>, ledger: Option<int>,
                         sequence: Option<nat>, legacy: Option<Table>, queued: Option<map<Number, Entry>>,
                         users: Option<map<Uid, Number>>)

  datatype Conversion = Conversion(totals: Table, pending: Option<Report>, original: bool)

  datatype Failure = BadCheckpoint | BadTable | Incomplete | BadReport | Billed | Unsupported | Behind | BadQueue
                   | Overflow | Undecidable | Mixed | Ahead | Uncovered | WrongHash | Unbalanced | Short | TooLarge

  // ---------------------------------------------------------------- what a report says of an account

  predicate ValidRow(r: Row) {
    0 < r.uid && 0 <= r.up && 0 <= r.down && 0 < r.up + r.down <= MAX_INT64
  }

  function RowSum(data: seq<Row>, n: nat): int
    requires n <= |data|
  {
    if n == 0 then 0 else RowSum(data, n - 1) + data[n - 1].up + data[n - 1].down
  }

  /** `readReport` accepts: a well-formed number, 1 to 1000 rows of ascending accounts, a sum that fits. */
  ghost predicate ValidReport(r: Report) {
    && r.id != Other && 0 < |r.data| <= 1000
    && ValidRows(r.data) && Ascending(r.data)
    && RowSum(r.data, |r.data|) <= MAX_INT64
  }

  function RowAmounts(r: Row): Amounts {
    if r.up >= 0 && r.down >= 0 then Amounts(r.up, r.down) else ZERO
  }

  /** The rows of a report as a table of accounts. */
  function Reported(data: seq<Row>, n: nat): Table
    requires n <= |data|
  {
    if n == 0 then map[] else Reported(data, n - 1)[Uid(data[n - 1].uid) := RowAmounts(data[n - 1])]
  }

  function PendingAt(p: Option<Report>, id: Uid): Amounts {
    if p.None? then ZERO else At(Reported(p.value.data, |p.value.data|), id)
  }

  ghost predicate Ascending(data: seq<Row>) {
    forall i, j :: 0 <= i < j < |data| ==> data[i].uid < data[j].uid
  }

  ghost predicate ValidRows(data: seq<Row>) {
    forall i :: 0 <= i < |data| ==> ValidRow(data[i])
  }

  lemma {:induction false} RowNotYet(data: seq<Row>, n: nat, m: nat)
    requires n <= m < |data| && Ascending(data)
    ensures At(Reported(data, n), Uid(data[m].uid)) == ZERO
  {
    if n > 0 { RowNotYet(data, n - 1, m); }
  }

  lemma {:induction false} RowIn(data: seq<Row>, n: nat, m: nat)
    requires m < n <= |data| && Ascending(data)
    ensures At(Reported(data, n), Uid(data[m].uid)) == RowAmounts(data[m])
  {
    if m < n - 1 { RowIn(data, n - 1, m); }
  }

  // ---------------------------------------------------------------- what the queue says of an account

  function QueuedSeq(queued: map<Number, Entry>, users: map<Uid, Number>, id: Uid): Option<Number> {
    if id in users && users[id] in queued && queued[users[id]].uid == id then Some(users[id]) else None
  }

  /** The part of an account's queued traffic whose number lies in `some`. */
  function QueuedIn(queued: map<Number, Entry>, users: map<Uid, Number>, some: set<Number>, id: Uid): Amounts {
    var number := QueuedSeq(queued, users, id);
    if number.Some? && number.value in some && number.value in queued then queued[number.value].value else ZERO
  }

  predicate EntryOk(number: Number, e: Entry, users: map<Uid, Number>, local: Option<nat>) {
    && local.Some? && number.n <= local.value
    && e.uid in users && users[e.uid] == number && ValidAccount(e.uid) && ValidAmounts(e.value)
  }

  predicate UserOk(id: Uid, number: Number, queued: map<Number, Entry>) {
    ValidAccount(id) && number in queued && queued[number].uid == id
  }

  /** The queue and its index are inverse to each other, within the local sequence. */
  ghost predicate QueueOk(queued: map<Number, Entry>, users: map<Uid, Number>, local: Option<nat>) {
    EntriesOk(queued, users, local) && UsersOk(queued, users)
  }

  // ---------------------------------------------------------------- when a ledger converts, and into what

  predicate CheckpointOk(cp: Checkpoint) {
    match cp.id
    case None => cp.hash == NoDigest
    case Some(id) => Numbered(id) && cp.hash.DigestOf?
  }

  predicate PanelPast(cp: Checkpoint, id: Id) {
    cp.id.Some? && ((cp.id.value.V2? && id.V2?) || (cp.id.value.V3? && id.V3?)) && id.n <= cp.id.value.n
  }

  ghost predicate PendingOk(p: Report, cp: Checkpoint, legacy: Table, local: Option<nat>) {
    && !(cp.id.Some? && cp.id.value.V2? && (p.id.Plain? || (p.id.V2? && p.id.n < cp.id.value.n)))
    && (p.id.V3? ==> legacy == map[])
    && (Numbered(p.id) ==> local.Some? && p.id.n <= local.value)
    && !(cp.id.Some? && cp.id.value.V2? && p.id.V3? && p.id.n <= cp.id.value.n)
    && (!p.id.V3? ==> CoversAll(legacy, Reported(p.data, |p.data|)))
    && (cp.id == Some(p.id) ==> cp.hash == DigestOf(p.data))
  }

  /** What the ledger owes an account: old totals, the queue, and a pending report of the new kind. */
  function Component(s: Store, id: Uid): Amounts
    requires s.legacy.Some? && s.queued.Some? && s.users.Some?
  {
    Plus(Plus(At(s.legacy.value, id), QueuedIn(s.queued.value, s.users.value, s.queued.value.Keys, id)),
         At(NewPending(s), id))
  }

  /** A pending report of the new kind is a part of its own; older ones are copies of old totals. */
  function NewPending(s: Store): Table {
    if s.pending.Some? && s.pending.value.id.V3? then Reported(s.pending.value.data, |s.pending.value.data|) else map[]
  }

  /** The queued numbers the checkpoint covers. */
  function CoveredSeqs(queued: map<Number, Entry>, cp: Checkpoint): set<Number> {
    set n | n in queued && cp.id.Some? && cp.id.value.V3? && n.n <= cp.id.value.n
  }

  /** What the panel has not billed of it: a new-kind checkpoint covers all old totals and the queue up to its
      number, and a checkpoint covers a pending report of its own kind up to its number. */
  function Owed(s: Store, cp: Checkpoint, id: Uid): Amounts
    requires s.legacy.Some? && s.queued.Some? && s.users.Some?
  {
    var v3 := cp.id.Some? && cp.id.value.V3?;
    var billed := s.pending.Some? && PanelPast(cp, s.pending.value.id);
    var before :=
      if v3 then ZERO
      else if billed && s.pending.value.id.V2? then Minus(At(s.legacy.value, id), PendingAt(s.pending, id))
      else At(s.legacy.value, id);
    var queue := QueuedIn(s.queued.value, s.users.value, s.queued.value.Keys - CoveredSeqs(s.queued.value, cp), id);
    Plus(Plus(before, queue),
         if s.pending.Some? && s.pending.value.id.V3? && !billed then PendingAt(s.pending, id) else ZERO)
  }

  /** Is the pending report dropped as billed? Old-kind reports are, under any new-kind checkpoint. */
  predicate PendingBilled(p: Report, cp: Checkpoint) {
    PanelPast(cp, p.id) || (cp.id.Some? && cp.id.value.V3? && !p.id.V3?)
  }

  function Retained(s: Store, cp: Checkpoint, id: Uid): Amounts {
    if s.pending.Some? && !PendingBilled(s.pending.value, cp) then PendingAt(s.pending, id) else ZERO
  }

  ghost predicate OriginalFormat(s: Store, cp: Checkpoint) {
    && s.sequence == None && s.legacy == None && s.queued == None && s.users == None
    && (s.pending.Some? ==> s.pending.value.id.Plain?)
    && cp.id == None
  }

  /** The ledger's own totals are exactly what its parts add up to. */
  ghost predicate Balanced(s: Store)
    requires s.totals.Some? && s.legacy.Some? && s.queued.Some? && s.users.Some?
  {
    && (forall id :: At(s.totals.value, id).up == Component(s, id).up)
    && (forall id :: At(s.totals.value, id).down == Component(s, id).down)
  }

  ghost predicate NewFormat(s: Store, cp: Checkpoint) {
    && s.ledger == Some(3)
    && (cp.id.Some? ==> Numbered(cp.id.value) && s.sequence.Some? && cp.id.value.n <= s.sequence.value)
    && s.legacy.Some? && ValidTable(s.legacy.value)
    && s.queued.Some? && s.users.Some? && QueueOk(s.queued.value, s.users.value, s.sequence)
    && (s.pending.Some? ==> PendingOk(s.pending.value, cp, s.legacy.value, s.sequence))
    && s.totals.Some? && Balanced(s)
  }

  /** Each counter pair still owed outside the retained report fits the original format. */
  ghost predicate InRange(s: Store, cp: Checkpoint)
    requires s.legacy.Some? && s.queued.Some? && s.users.Some?
  {
    forall id :: Joint(Minus(Owed(s, cp, id), Retained(s, cp, id))) <= MAX_INT64
  }

  function Joint(a: Amounts): nat { a.up + a.down }

  ghost predicate Convertible(s: Store, cp: Checkpoint) {
    && CheckpointOk(cp) && s.meta && s.totals.Some? && ValidTable(s.totals.value)
    && (s.pending.Some? ==> ValidReport(s.pending.value))
    && if s.ledger == None then OriginalFormat(s, cp) else NewFormat(s, cp) && InRange(s, cp)
  }

  // ---------------------------------------------------------------- reading

  lemma {:induction false} RowSumRises(data: seq<Row>, n: nat, m: nat)
    requires n <= m <= |data| && forall i :: 0 <= i < |data| ==> ValidRow(data[i])
    ensures 0 <= RowSum(data, n) <= RowSum(data, m)
    decreases m
  {
    if n < m {
      RowSumRises(data, n, m - 1);
    } else if n > 0 {
      RowSumRises(data, n - 1, n - 1);
    }
  }

  // ---------------------------------------------------------------- adding and subtracting

  /** Without zero counters a table is what it says of every account. */
  lemma SameTable(a: Table, b: Table)
    requires NoZero(a) && NoZero(b)
    requires forall id :: At(a, id).up == At(b, id).up && At(a, id).down == At(b, id).down
    ensures a == b
  {
    forall id ensures id in a <==> id in b {
      assert At(a, id).up == At(b, id).up;
    }
    forall id | id in a ensures a[id] == b[id] {
      assert At(a, id).up == At(b, id).up;
    }
  }

  lemma QueuedOneMore(queued: map<Number, Entry>, users: map<Uid, Number>, done: set<Number>, n: Number)
    requires n in queued && n !in done && queued[n].uid in users && users[queued[n].uid] == n
    ensures forall id :: QueuedIn(queued, users, done + {n}, id) ==
                         if id == queued[n].uid then queued[n].value else QueuedIn(queued, users, done, id)
    ensures QueuedIn(queued, users, done, queued[n].uid) == ZERO
  {
  }

  lemma QueuedWithin(queued: map<Number, Entry>, users: map<Uid, Number>, some: set<Number>, all: set<Number>, id: Uid)
    requires some <= all
    ensures Covers(QueuedIn(queued, users, all, id), QueuedIn(queued, users, some, id))
    ensures Plus(QueuedIn(queued, users, some, id), QueuedIn(queued, users, all - some, id)) ==
              QueuedIn(queued, users, all, id)
  {
    PlusZero(QueuedIn(queued, users, all, id));
    var number := QueuedSeq(queued, users, id);
    if number.Some? {
      if number.value in some {
        assert number.value in all && number.value !in all - some;
        assert QueuedIn(queued, users, all - some, id) == ZERO;
      } else {
        assert number.value in all <==> number.value in all - some;
        assert QueuedIn(queued, users, some, id) == ZERO;
      }
    }
  }

  lemma PlusZero(a: Amounts)
    ensures Plus(a, ZERO) == a && Plus(ZERO, a) == a && Minus(a, ZERO) == a
  {
  }

  ghost predicate FitsAll(m: Table) { forall id :: Fits(At(m, id)) }

  /** The components are the old totals and the queue entries already seen. */
  ghost predicate SumsTo(components: Table, legacy: Table, queued: map<Number, Entry>, users: map<Uid, Number>,
                         done: set<Number>)
  {
    && (forall id :: At(components, id).up == At(legacy, id).up + QueuedIn(queued, users, done, id).up)
    && (forall id :: At(components, id).down == At(legacy, id).down + QueuedIn(queued, users, done, id).down)
  }

  lemma SumStart(legacy: Table, queued: map<Number, Entry>, users: map<Uid, Number>)
    requires ValidTable(legacy)
    ensures SumsTo(legacy, legacy, queued, users, {}) && FitsAll(legacy) && NoZero(legacy)
  {
  }

  lemma SumStep(components: Table, legacy: Table, queued: map<Number, Entry>, users: map<Uid, Number>,
                done: set<Number>, n: Number, sum: Amounts)
    requires SumsTo(components, legacy, queued, users, done)
    requires n in queued && n !in done && queued[n].uid in users && users[queued[n].uid] == n
    requires sum == Plus(At(components, queued[n].uid), queued[n].value)
    ensures sum == Plus(At(legacy, queued[n].uid), QueuedIn(queued, users, done + {n}, queued[n].uid))
    ensures SumsTo(components[queued[n].uid := sum], legacy, queued, users, done + {n})
  {
    var uid := queued[n].uid;
    QueuedOneMore(queued, users, done, n);
    assert At(components, uid).up == At(legacy, uid).up + QueuedIn(queued, users, done, uid).up;
    assert At(components, uid).down == At(legacy, uid).down + QueuedIn(queued, users, done, uid).down;
    var after := components[uid := sum];
    forall id
      ensures At(after, id).up == At(legacy, id).up + QueuedIn(queued, users, done + {n}, id).up
      ensures At(after, id).down == At(legacy, id).down + QueuedIn(queued, users, done + {n}, id).down
    {
      if id != uid {
        assert At(after, id) == At(components, id);
        assert At(components, id).up == At(legacy, id).up + QueuedIn(queued, users, done, id).up;
        assert At(components, id).down == At(legacy, id).down + QueuedIn(queued, users, done, id).down;
      }
    }
  }

  lemma SetFits(m: Table, id: Uid, sum: Amounts)
    requires FitsAll(m) && NoZero(m) && Fits(sum) && sum != ZERO
    ensures FitsAll(m[id := sum]) && NoZero(m[id := sum])
  {
    var after := m[id := sum];
    forall j ensures Fits(At(after, j)) {
      assert Fits(At(m, j));
    }
  }

  ghost predicate EntriesOk(queued: map<Number, Entry>, users: map<Uid, Number>, local: Option<nat>) {
    forall n :: n in queued ==> EntryOk(n, queued[n], users, local)
  }

  ghost predicate UsersOk(queued: map<Number, Entry>, users: map<Uid, Number>) {
    forall id :: id in users ==> UserOk(id, users[id], queued)
  }

  ghost predicate SumsFit(legacy: Table, queued: map<Number, Entry>, users: map<Uid, Number>) {
    forall id :: Fits(Plus(At(legacy, id), QueuedIn(queued, users, queued.Keys, id)))
  }

  lemma SumsToFit(components: Table, legacy: Table, queued: map<Number, Entry>, users: map<Uid, Number>)
    requires FitsAll(components) && SumsTo(components, legacy, queued, users, queued.Keys)
    ensures SumsFit(legacy, queued, users)
  {
    forall id ensures Fits(Plus(At(legacy, id), QueuedIn(queued, users, queued.Keys, id))) {
      assert Fits(At(components, id));
      assert At(components, id).up == At(legacy, id).up + QueuedIn(queued, users, queued.Keys, id).up;
      assert At(components, id).down == At(legacy, id).down + QueuedIn(queued, users, queued.Keys, id).down;
    }
  }

  lemma PartTooBig(legacy: Table, queued: map<Number, Entry>, users: map<Uid, Number>, some: set<Number>, id: Uid)
    requires some <= queued.Keys && !Fits(Plus(At(legacy, id), QueuedIn(queued, users, some, id)))
    ensures !SumsFit(legacy, queued, users)
  {
    QueuedWithin(queued, users, some, queued.Keys, id);
    assert !Fits(Plus(At(legacy, id), QueuedIn(queued, users, queued.Keys, id)));
  }

  lemma StepTooBig(components: Table, legacy: Table, queued: map<Number, Entry>, users: map<Uid, Number>,
                   done: set<Number>, n: Number)
    requires SumsTo(components, legacy, queued, users, done) && done + {n} <= queued.Keys
    requires n in queued && n !in done && queued[n].uid in users && users[queued[n].uid] == n
    requires !Fits(Plus(At(components, queued[n].uid), queued[n].value))
    ensures !SumsFit(legacy, queued, users)
  {
    SumStep(components, legacy, queued, users, done, n, Plus(At(components, queued[n].uid), queued[n].value));
    PartTooBig(legacy, queued, users, done + {n}, queued[n].uid);
  }

  lemma StepFits(components: Table, legacy: Table, queued: map<Number, Entry>, users: map<Uid, Number>,
                 done: set<Number>, n: Number, after: Table)
    requires SumsTo(components, legacy, queued, users, done) && FitsAll(components) && NoZero(components)
    requires n in queued && n !in done && queued[n].uid in users && users[queued[n].uid] == n && queued[n].value != ZERO
    requires Fits(Plus(At(components, queued[n].uid), queued[n].value))
    requires after == components[queued[n].uid := Plus(At(components, queued[n].uid), queued[n].value)]
    ensures NoZero(after) && FitsAll(after) && SumsTo(after, legacy, queued, users, done + {n})
  {
    var sum := Plus(At(components, queued[n].uid), queued[n].value);
    SetFits(components, queued[n].uid, sum);
    SumStep(components, legacy, queued, users, done, n, sum);
  }

  // ---------------------------------------------------------------- taking tables apart

  /** The whole is the rest and the part, account by account. */
  ghost predicate Splits(whole: Table, rest: Table, part: Table) {
    && (forall id :: At(whole, id).up == At(rest, id).up + At(part, id).up)
    && (forall id :: At(whole, id).down == At(rest, id).down + At(part, id).down)
  }

  ghost predicate CoversAll(whole: Table, part: Table) {
    forall id :: Covers(At(whole, id), At(part, id))
  }

  lemma SplitsStart(whole: Table)
    ensures Splits(whole, whole, map[])
  {
  }

  lemma GrowStep(whole: Table, rest: Table, part: Table, id: Uid, value: Amounts, sum: Amounts)
    requires Splits(whole, rest, part) && At(part, id) == ZERO && sum == Plus(At(whole, id), value)
    ensures Splits(whole[id := sum], rest, part[id := value])
  {
    var after, more := whole[id := sum], part[id := value];
    assert At(whole, id).up == At(rest, id).up + At(part, id).up;
    assert At(whole, id).down == At(rest, id).down + At(part, id).down;
    forall j
      ensures At(after, j).up == At(rest, j).up + At(more, j).up
      ensures At(after, j).down == At(rest, j).down + At(more, j).down
    {
      if j != id {
        assert At(whole, j).up == At(rest, j).up + At(part, j).up;
        assert At(whole, j).down == At(rest, j).down + At(part, j).down;
      }
    }
  }

  /** `after` is `before` with the value taken from one account. */
  ghost predicate Taken(before: Table, after: Table, id: Uid, value: Amounts) {
    && (forall j :: j != id ==> At(after, j) == At(before, j))
    && At(before, id).up == At(after, id).up + value.up && At(before, id).down == At(after, id).down + value.down
  }

  lemma ShrinkStep(whole: Table, rest: Table, part: Table, id: Uid, value: Amounts, rest2: Table)
    requires Splits(whole, rest, part) && At(part, id) == ZERO && Taken(rest, rest2, id, value)
    ensures Splits(whole, rest2, part[id := value])
  {
    var more := part[id := value];
    assert At(whole, id).up == At(rest, id).up + At(part, id).up;
    assert At(whole, id).down == At(rest, id).down + At(part, id).down;
    forall j
      ensures At(whole, j).up == At(rest2, j).up + At(more, j).up
      ensures At(whole, j).down == At(rest2, j).down + At(more, j).down
    {
      if j != id {
        assert At(whole, j).up == At(rest, j).up + At(part, j).up;
        assert At(whole, j).down == At(rest, j).down + At(part, j).down;
      }
    }
  }

  /** What was not taken yet is still there. */
  lemma StillCovers(whole: Table, rest: Table, part: Table, full: Table, id: Uid)
    requires Splits(whole, rest, part) && At(part, id) == ZERO && CoversAll(whole, full)
    ensures Covers(At(rest, id), At(full, id))
  {
    assert At(whole, id).up == At(rest, id).up + At(part, id).up;
    assert At(whole, id).down == At(rest, id).down + At(part, id).down;
  }

  /** Why `ReadReport` stops at a row. */
  lemma ReportFails(p: Report, i: nat)
    requires i < |p.data|
    requires var u, last := p.data[i], if i == 0 then 0 else p.data[i - 1].uid;
             u.uid <= last || u.up < 0 || u.down < 0 || u.up > MAX_INT64 - u.down || u.up + u.down == 0 ||
               RowSum(p.data, i) > MAX_INT64 - u.up - u.down
    ensures !ValidReport(p)
  {
    if ValidRows(p.data) {
      RowSumRises(p.data, i + 1, |p.data|);
    }
  }

  ghost predicate SumsFitWith(base: Table, part: Table) {
    forall id :: Fits(Plus(At(base, id), At(part, id)))
  }

  lemma RowTooBig(components: Table, base: Table, data: seq<Row>, i: nat)
    requires i < |data| && ValidRows(data) && Ascending(data) && Splits(components, base, Reported(data, i))
    requires !Fits(Plus(At(components, Uid(data[i].uid)), RowAmounts(data[i])))
    ensures !SumsFitWith(base, Reported(data, |data|))
  {
    var id := Uid(data[i].uid);
    RowNotYet(data, i, i);
    RowIn(data, |data|, i);
    assert At(components, id).up == At(base, id).up + At(Reported(data, i), id).up;
    assert At(components, id).down == At(base, id).down + At(Reported(data, i), id).down;
    assert !Fits(Plus(At(base, id), At(Reported(data, |data|), id)));
  }

  lemma RowAdded(components: Table, base: Table, data: seq<Row>, i: nat, after: Table)
    requires i < |data| && ValidRows(data) && Ascending(data) && Splits(components, base, Reported(data, i))
    requires NoZero(components) && FitsAll(components) &&
             Fits(Plus(At(components, Uid(data[i].uid)), RowAmounts(data[i])))
    requires after == components[Uid(data[i].uid) := Plus(At(components, Uid(data[i].uid)), RowAmounts(data[i]))]
    ensures NoZero(after) && FitsAll(after) && Splits(after, base, Reported(data, i + 1))
  {
    var id := Uid(data[i].uid);
    var sum := Plus(At(components, id), RowAmounts(data[i]));
    RowNotYet(data, i, i);
    assert ValidRow(data[i]);
    SetFits(components, id, sum);
    GrowStep(components, base, Reported(data, i), id, RowAmounts(data[i]), sum);
  }

  lemma SplitsFit(components: Table, base: Table, part: Table)
    requires Splits(components, base, part) && FitsAll(components)
    ensures SumsFitWith(base, part)
  {
    forall id ensures Fits(Plus(At(base, id), At(part, id))) {
      assert Fits(At(components, id));
      assert At(components, id).up == At(base, id).up + At(part, id).up;
      assert At(components, id).down == At(base, id).down + At(part, id).down;
    }
  }

  lemma CoversMore(legacy: Table, data: seq<Row>, i: nat)
    requires i < |data| && Ascending(data) && CoversAll(legacy, Reported(data, i)) &&
             Covers(At(legacy, Uid(data[i].uid)), RowAmounts(data[i]))
    ensures CoversAll(legacy, Reported(data, i + 1))
  {
    forall id ensures Covers(At(legacy, id), At(Reported(data, i + 1), id)) {
      assert Covers(At(legacy, id), At(Reported(data, i), id));
    }
  }

  lemma CoversFails(legacy: Table, data: seq<Row>, i: nat)
    requires i < |data| && Ascending(data) && !Covers(At(legacy, Uid(data[i].uid)), RowAmounts(data[i]))
    ensures !CoversAll(legacy, Reported(data, |data|))
  {
    RowIn(data, |data|, i);
  }

  lemma RowCovered(totals: Table, rest: Table, data: seq<Row>, i: nat)
    requires i < |data| && Ascending(data) && Splits(totals, rest, Reported(data, i)) &&
             CoversAll(totals, Reported(data, |data|))
    ensures Covers(At(rest, Uid(data[i].uid)), RowAmounts(data[i]))
  {
    RowNotYet(data, i, i);
    RowIn(data, |data|, i);
    StillCovers(totals, rest, Reported(data, i), Reported(data, |data|), Uid(data[i].uid));
  }

  lemma RowTaken(totals: Table, rest: Table, data: seq<Row>, i: nat, rest2: Table)
    requires i < |data| && Ascending(data) && Splits(totals, rest, Reported(data, i)) &&
             Taken(rest, rest2, Uid(data[i].uid), RowAmounts(data[i]))
    ensures Splits(totals, rest2, Reported(data, i + 1))
  {
    RowNotYet(data, i, i);
    ShrinkStep(totals, rest, Reported(data, i), Uid(data[i].uid), RowAmounts(data[i]), rest2);
  }

  function Among(m: Table, ids: set<Uid>): Table {
    map id | id in m && id in ids :: m[id]
  }

  lemma AmongMore(m: Table, ids: set<Uid>, id: Uid)
    requires id in m && id !in ids
    ensures Among(m, ids + {id}) == Among(m, ids)[id := m[id]] && At(Among(m, ids), id) == ZERO
  {
  }

  lemma AmongAll(m: Table)
    ensures Among(m, m.Keys) == m && Among(m, {}) == map[]
  {
  }

  /** The queued traffic with numbers in `some`, by account. */
  function QueuedTable(queued: map<Number, Entry>, users: map<Uid, Number>, some: set<Number>): Table {
    map id | id in users && QueuedSeq(queued, users, id).Some? && users[id] in some :: queued[users[id]].value
  }

  lemma QueuedTableAt(queued: map<Number, Entry>, users: map<Uid, Number>, some: set<Number>, id: Uid)
    ensures At(QueuedTable(queued, users, some), id) == QueuedIn(queued, users, some, id)
  {
  }

  lemma QueuedTableMore(queued: map<Number, Entry>, users: map<Uid, Number>, some: set<Number>, n: Number)
    requires n in queued && n !in some && queued[n].uid in users && users[queued[n].uid] == n
    ensures QueuedTable(queued, users, some + {n}) == QueuedTable(queued, users, some)[queued[n].uid := queued[n].value]
    ensures At(QueuedTable(queued, users, some), queued[n].uid) == ZERO
  {
  }

  // ---------------------------------------------------------------- the cross-check

  /** The parts put together: old totals and queue, then a new-kind pending report. */
  ghost predicate Built(s: Store, queue: Table, all: Table)
    requires s.legacy.Some? && s.queued.Some? && s.users.Some?
  {
    && SumsTo(queue, s.legacy.value, s.queued.value, s.users.value, s.queued.value.Keys)
    && Splits(all, queue, NewPending(s))
  }

  lemma BuiltUp(s: Store, queue: Table, all: Table, id: Uid)
    requires s.legacy.Some? && s.queued.Some? && s.users.Some? && Built(s, queue, all)
    ensures At(all, id).up == Component(s, id).up
  {
    assert At(queue, id).up ==
             At(s.legacy.value, id).up + QueuedIn(s.queued.value, s.users.value, s.queued.value.Keys, id).up;
    assert At(all, id).up == At(queue, id).up + At(NewPending(s), id).up;
  }

  lemma BuiltDown(s: Store, queue: Table, all: Table, id: Uid)
    requires s.legacy.Some? && s.queued.Some? && s.users.Some? && Built(s, queue, all)
    ensures At(all, id).down == Component(s, id).down
  {
    assert At(queue, id).down ==
             At(s.legacy.value, id).down + QueuedIn(s.queued.value, s.users.value, s.queued.value.Keys, id).down;
    assert At(all, id).down == At(queue, id).down + At(NewPending(s), id).down;
  }

  lemma BuiltBalances(s: Store, queue: Table, all: Table)
    requires s.totals.Some? && s.legacy.Some? && s.queued.Some? && s.users.Some? && Built(s, queue, all)
    requires NoZero(all) && NoZero(s.totals.value)
    ensures all == s.totals.value <==> Balanced(s)
  {
    forall id ensures At(all, id).up == Component(s, id).up && At(all, id).down == Component(s, id).down {
      BuiltUp(s, queue, all, id);
      BuiltDown(s, queue, all, id);
    }
    if Balanced(s) {
      SameTable(all, s.totals.value);
    }
  }

  /** Totals that fit cannot balance components that do not. */
  lemma BalancedFits(s: Store)
    requires s.totals.Some? && s.legacy.Some? && s.queued.Some? && s.users.Some? && ValidTable(s.totals.value) &&
             Balanced(s)
    ensures SumsFit(s.legacy.value, s.queued.value, s.users.value)
  {
    forall id ensures Fits(Plus(At(s.legacy.value, id),
                                QueuedIn(s.queued.value, s.users.value, s.queued.value.Keys, id))) {
      assert At(s.totals.value, id).up == Component(s, id).up;
      assert At(s.totals.value, id).down == Component(s, id).down;
    }
  }

  lemma PendingUp(s: Store, queue: Table, id: Uid)
    requires s.totals.Some? && s.legacy.Some? && s.queued.Some? && s.users.Some? && ValidTable(s.totals.value)
    requires At(s.totals.value, id).up == Component(s, id).up
    requires At(queue, id).up ==
               At(s.legacy.value, id).up + QueuedIn(s.queued.value, s.users.value, s.queued.value.Keys, id).up
    ensures At(queue, id).up + At(NewPending(s), id).up <= MAX_INT64
  {
  }

  lemma PendingDown(s: Store, queue: Table, id: Uid)
    requires s.totals.Some? && s.legacy.Some? && s.queued.Some? && s.users.Some? && ValidTable(s.totals.value)
    requires At(s.totals.value, id).down == Component(s, id).down
    requires At(queue, id).down ==
               At(s.legacy.value, id).down + QueuedIn(s.queued.value, s.users.value, s.queued.value.Keys, id).down
    ensures At(queue, id).down + At(NewPending(s), id).down <= MAX_INT64
  {
  }

  lemma BalancedFitsPending(s: Store, queue: Table)
    requires s.totals.Some? && s.legacy.Some? && s.queued.Some? && s.users.Some? && ValidTable(s.totals.value) &&
             Balanced(s)
    requires SumsTo(queue, s.legacy.value, s.queued.value, s.users.value, s.queued.value.Keys)
    ensures SumsFitWith(queue, NewPending(s))
  {
    forall id ensures Fits(Plus(At(queue, id), At(NewPending(s), id))) {
      PendingUp(s, queue, id);
      PendingDown(s, queue, id);
    }
  }

  lemma QueuedCovered(totals: Table, rest: Table, queued: map<Number, Entry>, users: map<Uid, Number>,
                      done: set<Number>, all: set<Number>, n: Number)
    requires n in queued && n in all && n !in done && queued[n].uid in users && users[queued[n].uid] == n
    requires Splits(totals, rest, QueuedTable(queued, users, done)) &&
             CoversAll(totals, QueuedTable(queued, users, all))
    ensures Covers(At(rest, queued[n].uid), queued[n].value)
  {
    StillCovers(totals, rest, QueuedTable(queued, users, done), QueuedTable(queued, users, all), queued[n].uid);
  }

  // ---------------------------------------------------------------- what the checkpoint covers

  /** One of the two counters, to argue about them alike. */
  function Counter(a: Amounts, up: bool): nat { if up then a.up else a.down }

  predicate FromV3(cp: Checkpoint) { cp.id.Some? && cp.id.value.V3? }

  function LegacyCovered(s: Store, cp: Checkpoint): Table
    requires s.legacy.Some?
  {
    if FromV3(cp) then s.legacy.value else map[]
  }

  function QueueCovered(s: Store, cp: Checkpoint): Table
    requires s.queued.Some? && s.users.Some?
  {
    QueuedTable(s.queued.value, s.users.value, CoveredSeqs(s.queued.value, cp))
  }

  function PendingRows(s: Store): Table {
    if s.pending.Some? then Reported(s.pending.value.data, |s.pending.value.data|) else map[]
  }

  function PendingCovered(s: Store, cp: Checkpoint): Table {
    if s.pending.Some? && PanelPast(cp, s.pending.value.id) then PendingRows(s) else map[]
  }

  function RetainedRows(s: Store, cp: Checkpoint): Table {
    if s.pending.Some? && !PendingBilled(s.pending.value, cp) then PendingRows(s) else map[]
  }

  predicate Present(s: Store) { s.totals.Some? && s.legacy.Some? && s.queued.Some? && s.users.Some? }

  lemma SplitsAt(whole: Table, rest: Table, part: Table, id: Uid, up: bool)
    requires Splits(whole, rest, part)
    ensures Counter(At(whole, id), up) == Counter(At(rest, id), up) + Counter(At(part, id), up)
  {
    assert At(whole, id).up == At(rest, id).up + At(part, id).up;
    assert At(whole, id).down == At(rest, id).down + At(part, id).down;
  }

  lemma QueueSplits(s: Store, cp: Checkpoint, id: Uid, up: bool)
    requires Present(s)
    ensures var all, covered := s.queued.value.Keys, CoveredSeqs(s.queued.value, cp);
            && Counter(QueuedIn(s.queued.value, s.users.value, all, id), up) ==
               Counter(At(QueueCovered(s, cp), id), up) +
                 Counter(QueuedIn(s.queued.value, s.users.value, all - covered, id), up)
    ensures !FromV3(cp) ==> At(QueueCovered(s, cp), id) == ZERO
  {
    QueuedTableAt(s.queued.value, s.users.value, CoveredSeqs(s.queued.value, cp), id);
    QueuedWithin(s.queued.value, s.users.value, CoveredSeqs(s.queued.value, cp), s.queued.value.Keys, id);
  }

  lemma BalanceAt(s: Store, id: Uid, up: bool)
    requires Present(s) && Balanced(s)
    ensures Counter(At(s.totals.value, id), up) ==
            Counter(At(s.legacy.value, id), up) +
              Counter(QueuedIn(s.queued.value, s.users.value, s.queued.value.Keys, id), up)
            + Counter(At(NewPending(s), id), up)
  {
    assert At(s.totals.value, id).up == Component(s, id).up;
    assert At(s.totals.value, id).down == Component(s, id).down;
  }

  lemma CoversBoth(whole: Amounts, part: Amounts)
    requires Counter(whole, true) >= Counter(part, true) && Counter(whole, false) >= Counter(part, false)
    ensures Covers(whole, part)
  {
  }

  lemma LegacyThere(s: Store, cp: Checkpoint)
    requires Present(s) && Balanced(s)
    ensures CoversAll(s.totals.value, LegacyCovered(s, cp))
  {
    forall id ensures Covers(At(s.totals.value, id), At(LegacyCovered(s, cp), id)) {
      BalanceAt(s, id, true);
      BalanceAt(s, id, false);
      CoversBoth(At(s.totals.value, id), At(LegacyCovered(s, cp), id));
    }
  }

  lemma QueueThereAt(s: Store, cp: Checkpoint, a: Table, id: Uid, up: bool)
    requires Present(s) && Balanced(s) && Splits(s.totals.value, a, LegacyCovered(s, cp))
    ensures Counter(At(a, id), up) >= Counter(At(QueueCovered(s, cp), id), up)
  {
    BalanceAt(s, id, up);
    SplitsAt(s.totals.value, a, LegacyCovered(s, cp), id, up);
    QueueSplits(s, cp, id, up);
  }

  lemma QueueThere(s: Store, cp: Checkpoint, a: Table)
    requires Present(s) && Balanced(s) && Splits(s.totals.value, a, LegacyCovered(s, cp))
    ensures CoversAll(a, QueueCovered(s, cp))
  {
    forall id ensures Covers(At(a, id), At(QueueCovered(s, cp), id)) {
      QueueThereAt(s, cp, a, id, true);
      QueueThereAt(s, cp, a, id, false);
      CoversBoth(At(a, id), At(QueueCovered(s, cp), id));
    }
  }

  /** What is left of an account's counter when the covered old totals and queue are gone. */
  function LeftOf(s: Store, cp: Checkpoint, id: Uid, up: bool): nat
    requires Present(s)
  {
    (if FromV3(cp) then 0 else Counter(At(s.legacy.value, id), up))
    + Counter(QueuedIn(s.queued.value, s.users.value, s.queued.value.Keys - CoveredSeqs(s.queued.value, cp), id), up)
    + Counter(At(NewPending(s), id), up)
  }

  lemma LeftAt(s: Store, cp: Checkpoint, a: Table, b: Table, id: Uid, up: bool)
    requires Present(s) && Balanced(s) && Splits(s.totals.value, a, LegacyCovered(s, cp)) &&
             Splits(a, b, QueueCovered(s, cp))
    ensures Counter(At(b, id), up) == LeftOf(s, cp, id, up)
  {
    BalanceAt(s, id, up);
    SplitsAt(s.totals.value, a, LegacyCovered(s, cp), id, up);
    SplitsAt(a, b, QueueCovered(s, cp), id, up);
    LeftSum(s, cp, id, up, Counter(At(a, id), up), Counter(At(b, id), up));
  }

  lemma LeftSum(s: Store, cp: Checkpoint, id: Uid, up: bool, a: nat, b: nat)
    requires Present(s)
    requires a + Counter(At(LegacyCovered(s, cp), id), up) ==
             Counter(At(s.legacy.value, id), up) +
               Counter(QueuedIn(s.queued.value, s.users.value, s.queued.value.Keys, id), up)
             + Counter(At(NewPending(s), id), up)
    requires a == b + Counter(At(QueueCovered(s, cp), id), up)
    ensures b == LeftOf(s, cp, id, up)
  {
    QueueSplits(s, cp, id, up);
  }

  lemma OldPendingCovered(s: Store, cp: Checkpoint, id: Uid)
    requires Present(s) && s.pending.Some? && PendingOk(s.pending.value, cp, s.legacy.value, s.sequence) &&
             !s.pending.value.id.V3?
    ensures Covers(At(s.legacy.value, id), At(PendingRows(s), id))
  {
  }

  predicate OldCovered(s: Store, id: Uid)
    requires Present(s)
  {
    s.pending.Some? && !s.pending.value.id.V3? ==> Covers(At(s.legacy.value, id), At(PendingRows(s), id))
  }

  lemma PendingInLeft(s: Store, cp: Checkpoint, id: Uid, up: bool)
    requires Present(s) && OldCovered(s, id)
    ensures LeftOf(s, cp, id, up) >= Counter(At(PendingCovered(s, cp), id), up)
  {
  }

  lemma PendingThere(s: Store, cp: Checkpoint, a: Table, b: Table)
    requires Present(s) && Balanced(s) && Splits(s.totals.value, a, LegacyCovered(s, cp)) &&
             Splits(a, b, QueueCovered(s, cp))
    requires forall id :: OldCovered(s, id)
    ensures CoversAll(b, PendingCovered(s, cp))
  {
    forall id ensures Covers(At(b, id), At(PendingCovered(s, cp), id)) {
      LeftAt(s, cp, a, b, id, true);
      LeftAt(s, cp, a, b, id, false);
      PendingInLeft(s, cp, id, true);
      PendingInLeft(s, cp, id, false);
      CoversBoth(At(b, id), At(PendingCovered(s, cp), id));
    }
  }

  lemma OwedIsLeft(s: Store, cp: Checkpoint, id: Uid, up: bool)
    requires Present(s) && OldCovered(s, id)
    ensures LeftOf(s, cp, id, up) == Counter(Owed(s, cp, id), up) + Counter(At(PendingCovered(s, cp), id), up)
  {
  }

  lemma OwedAt(s: Store, cp: Checkpoint, a: Table, b: Table, c: Table, id: Uid, up: bool)
    requires Present(s) && Balanced(s) && Splits(s.totals.value, a, LegacyCovered(s, cp)) &&
             Splits(a, b, QueueCovered(s, cp))
    requires Splits(b, c, PendingCovered(s, cp)) && OldCovered(s, id)
    ensures Counter(At(c, id), up) == Counter(Owed(s, cp, id), up)
  {
    LeftAt(s, cp, a, b, id, up);
    SplitsAt(b, c, PendingCovered(s, cp), id, up);
    OwedIsLeft(s, cp, id, up);
  }

  /** The totals hold exactly what is owed. */
  ghost predicate HoldsOwed(c: Table, s: Store, cp: Checkpoint)
    requires Present(s)
  {
    forall id, up :: Counter(At(c, id), up) == Counter(Owed(s, cp, id), up)
  }

  lemma RetainedThere(s: Store, cp: Checkpoint, c: Table)
    requires Present(s) && HoldsOwed(c, s, cp) && forall id :: OldCovered(s, id)
    ensures CoversAll(c, RetainedRows(s, cp))
  {
    forall id ensures Covers(At(c, id), At(RetainedRows(s, cp), id)) {
      RetainedThereAt(s, cp, c, id, true);
      RetainedThereAt(s, cp, c, id, false);
      CoversBoth(At(c, id), At(RetainedRows(s, cp), id));
    }
  }

  lemma OwedRetained(s: Store, cp: Checkpoint, id: Uid, up: bool)
    requires Present(s) && OldCovered(s, id)
    ensures Counter(Owed(s, cp, id), up) >= Counter(At(RetainedRows(s, cp), id), up)
  {
  }

  lemma RetainedThereAt(s: Store, cp: Checkpoint, c: Table, id: Uid, up: bool)
    requires Present(s) && HoldsOwed(c, s, cp) && OldCovered(s, id)
    ensures Counter(At(c, id), up) >= Counter(At(RetainedRows(s, cp), id), up)
  {
    assert Counter(At(c, id), up) == Counter(Owed(s, cp, id), up);
    OwedRetained(s, cp, id, up);
  }

  lemma RemainingCounter(s: Store, cp: Checkpoint, c: Table, rest: Table, id: Uid, up: bool)
    requires Present(s) && HoldsOwed(c, s, cp) && Splits(c, rest, RetainedRows(s, cp))
    ensures Counter(At(rest, id), up) + Counter(At(RetainedRows(s, cp), id), up) == Counter(Owed(s, cp, id), up)
  {
    SplitsAt(c, rest, RetainedRows(s, cp), id, up);
    assert Counter(At(c, id), up) == Counter(Owed(s, cp, id), up);
  }

  lemma JointLeft(rest: Amounts, taken: Amounts, whole: Amounts)
    requires forall up :: Counter(rest, up) + Counter(taken, up) == Counter(whole, up)
    ensures Joint(rest) == Joint(Minus(whole, taken))
  {
    assert Counter(rest, true) + Counter(taken, true) == Counter(whole, true);
    assert Counter(rest, false) + Counter(taken, false) == Counter(whole, false);
  }

  lemma RemainingAt(s: Store, cp: Checkpoint, c: Table, rest: Table, id: Uid)
    requires Present(s) && HoldsOwed(c, s, cp) && Splits(c, rest, RetainedRows(s, cp))
    ensures Joint(At(rest, id)) == Joint(Minus(Owed(s, cp, id), Retained(s, cp, id)))
  {
    forall up ensures Counter(At(rest, id), up) + Counter(At(RetainedRows(s, cp), id), up) ==
        Counter(Owed(s, cp, id), up) {
      RemainingCounter(s, cp, c, rest, id, up);
    }
    JointLeft(At(rest, id), At(RetainedRows(s, cp), id), Owed(s, cp, id));
    RetainedIs(s, cp, id);
  }

  lemma RetainedIs(s: Store, cp: Checkpoint, id: Uid)
    ensures Retained(s, cp, id) == At(RetainedRows(s, cp), id)
  {
  }

  /** The last test of the conversion is the one of `InRange`. */
  lemma RangeIs(s: Store, cp: Checkpoint, c: Table, rest: Table)
    requires Present(s) && HoldsOwed(c, s, cp) && Splits(c, rest, RetainedRows(s, cp))
    ensures InRange(s, cp) <==> forall id :: id in rest ==> Joint(rest[id]) <= MAX_INT64
  {
    forall id ensures Joint(At(rest, id)) == Joint(Minus(Owed(s, cp, id), Retained(s, cp, id))) {
      RemainingAt(s, cp, c, rest, id);
    }
    if InRange(s, cp) {
      forall id | id in rest ensures Joint(rest[id]) <= MAX_INT64 {
        assert Joint(At(rest, id)) <= MAX_INT64;
      }
    }
  }

  lemma AllOldCovered(s: Store, cp: Checkpoint)
    requires Present(s) && (s.pending.Some? ==> PendingOk(s.pending.value, cp, s.legacy.value, s.sequence))
    ensures forall id :: OldCovered(s, id)
  {
    if s.pending.Some? && !s.pending.value.id.V3? {
      forall id ensures OldCovered(s, id) { OldPendingCovered(s, cp, id); }
    }
  }

  lemma OwedAll(s: Store, cp: Checkpoint, a: Table, b: Table, c: Table)
    requires Present(s) && Balanced(s) && Splits(s.totals.value, a, LegacyCovered(s, cp)) &&
             Splits(a, b, QueueCovered(s, cp))
    requires Splits(b, c, PendingCovered(s, cp)) && forall id :: OldCovered(s, id)
    ensures HoldsOwed(c, s, cp)
  {
    forall id, up ensures Counter(At(c, id), up) == Counter(Owed(s, cp, id), up) {
      OwedAt(s, cp, a, b, c, id, up);
    }
  }

  /** The report left pending after a conversion: dropped if billed, and renumbered if it had a tag. */
  function KeptPending(s: Store, cp: Checkpoint, hex: nat): Option<Report> {
    if s.pending.None? || PendingBilled(s.pending.value, cp) then None
    else if Numbered(s.pending.value.id) then Some(s.pending.value.(id := Plain(hex)))
    else s.pending
  }

  /** What a conversion that goes through leaves: exactly what is owed, no zero counters, and a pending report
      that what is owed covers. */
  ghost predicate Converted(s: Store, cp: Checkpoint, hex: nat, plan: Conversion)
    requires Present(s)
  {
    && HoldsOwed(plan.totals, s, cp) && NoZero(plan.totals) && !plan.original
    && plan.pending == KeptPending(s, cp, hex)
    && (plan.pending.Some? ==> CoversAll(plan.totals, Reported(plan.pending.value.data, |plan.pending.value.data|)))
  }

  lemma QueueCoveredNone(s: Store, cp: Checkpoint)
    requires Present(s) && !FromV3(cp)
    ensures QueueCovered(s, cp) == map[]
  {
  }

  /** What was recorded is what stays owed and what the checkpoint covers, account by account. */
  lemma NothingLost(s: Store, cp: Checkpoint, id: Uid, up: bool)
    requires Present(s) && NewFormat(s, cp)
    ensures Counter(At(s.totals.value, id), up) ==
            Counter(Owed(s, cp, id), up) + Counter(At(LegacyCovered(s, cp), id), up)
            + Counter(At(QueueCovered(s, cp), id), up) + Counter(At(PendingCovered(s, cp), id), up)
  {
    BalanceAt(s, id, up);
    AllOldCovered(s, cp);
    OwedIsLeft(s, cp, id, up);
    QueueSplits(s, cp, id, up);
  }

  // ---------------------------------------------------------------- what a checkpoint covers

  /** The pending report is dropped exactly if the checkpoint is its own or a later one of its kind, or is of the new
      kind while the report is not. */
  lemma DropsExactly(s: Store, cp: Checkpoint, hex: nat)
    requires s.pending.Some? && CheckpointOk(cp)
    ensures KeptPending(s, cp, hex) == None <==>
              match (cp.id, s.pending.value.id)
              case (Some(V2(n)), V2(m)) => m <= n
              case (Some(V3(n)), V3(m)) => m <= n
              case (Some(V3(_)), _) => true
              case _ => false
    ensures KeptPending(s, cp, hex).Some? ==>
              && KeptPending(s, cp, hex).value.data == s.pending.value.data
              && KeptPending(s, cp, hex).value.id ==
                 match s.pending.value.id
                 case V2(_) => Plain(hex)
                 case V3(_) => Plain(hex)
                 case id => id
  {
  }

  /** The part of a counter that the pending report states. */
  function PendingCounter(s: Store, id: Uid, up: bool): nat {
    if s.pending.None? then 0 else Counter(At(Reported(s.pending.value.data, |s.pending.value.data|), id), up)
  }

  /** It is what the user's row states, and nothing without a row. */
  lemma PendingRow(s: Store, id: Uid, i: int)
    requires s.pending.Some? && ValidReport(s.pending.value)
    ensures var data := s.pending.value.data;
            && (0 <= i < |data| && data[i].uid == id.n ==>
                  PendingCounter(s, id, true) == data[i].up && PendingCounter(s, id, false) == data[i].down)
            && ((forall r :: r in data ==> r.uid != id.n) ==>
                  PendingCounter(s, id, true) == 0 && PendingCounter(s, id, false) == 0)
  {
    var data := s.pending.value.data;
    RowAt(data, |data|, id, i);
  }

  lemma {:induction false} RowAt(data: seq<Row>, n: nat, id: Uid, i: int)
    requires n <= |data| && ValidRows(data) && Ascending(data)
    ensures 0 <= i < n && data[i].uid == id.n ==>
              At(Reported(data, n), id).up == data[i].up && At(Reported(data, n), id).down == data[i].down
    ensures (forall j :: 0 <= j < n ==> data[j].uid != id.n) ==> At(Reported(data, n), id) == ZERO
  {
    if n > 0 {
      RowAt(data, n - 1, id, i);
      assert ValidRow(data[n - 1]);
    }
  }

  /** An account's queue entry. */
  ghost predicate IsQueued(s: Store, id: Uid, number: Number)
    requires s.queued.Some?
  {
    number in s.queued.value && s.queued.value[number].uid == id
  }

  /** `amount` is what the account's queue entry states, if it has one with a number after `n`. */
  ghost predicate HoldsLater(s: Store, id: Uid, n: nat, up: bool, amount: int)
    requires s.queued.Some?
  {
    && (forall number :: IsQueued(s, id, number) ==>
          amount == if number.n > n then Counter(s.queued.value[number].value, up) else 0)
    && ((forall number :: !IsQueued(s, id, number)) ==> amount == 0)
  }

  /** What stays owed, kind by kind of checkpoint. Without one it is everything. One of the old kind covers a pending
      report of its kind up to its own number, and nothing else. One of the new kind covers everything but queue
      entries and a pending report with later numbers. */
  lemma OwedMeans(s: Store, cp: Checkpoint, id: Uid, up: bool)
    requires Present(s) && NewFormat(s, cp) && CheckpointOk(cp)
    ensures var owed, total := Counter(Owed(s, cp, id), up), Counter(At(s.totals.value, id), up);
            match cp.id
            case None => owed == total
            case Some(V2(n)) =>
              owed == total - if s.pending.Some? && s.pending.value.id.V2? && s.pending.value.id.n <= n then
                                PendingCounter(s, id, up)
                              else 0
            case Some(V3(n)) =>
              var pending := if s.pending.Some? && s.pending.value.id.V3? && s.pending.value.id.n > n then
                               PendingCounter(s, id, up)
                             else 0;
              HoldsLater(s, id, n, up, owed - pending)
            case _ => false
  {
    match cp.id
    case None => NothingCovered(s, cp, id, up);
    case Some(V2(_)) => OldCovers(s, cp, id, up);
    case Some(V3(_)) => NewCovers(s, cp, id, up);
    case _ =>
  }

  lemma NothingCovered(s: Store, cp: Checkpoint, id: Uid, up: bool)
    requires Present(s) && NewFormat(s, cp) && cp.id == None
    ensures Counter(Owed(s, cp, id), up) == Counter(At(s.totals.value, id), up)
  {
    NothingLost(s, cp, id, up);
    QueueCoveredNone(s, cp);
  }

  lemma OldCovers(s: Store, cp: Checkpoint, id: Uid, up: bool)
    requires Present(s) && NewFormat(s, cp) && cp.id.Some? && cp.id.value.V2?
    ensures Counter(Owed(s, cp, id), up) ==
            Counter(At(s.totals.value, id), up) -
              if s.pending.Some? && s.pending.value.id.V2? && s.pending.value.id.n <= cp.id.value.n then
                PendingCounter(s, id, up)
              else 0
  {
    NothingLost(s, cp, id, up);
    QueueCoveredNone(s, cp);
    OldCoversPending(s, cp, id, up);
  }

  lemma OldCoversPending(s: Store, cp: Checkpoint, id: Uid, up: bool)
    requires Present(s) && cp.id.Some? && cp.id.value.V2?
    ensures At(LegacyCovered(s, cp), id) == ZERO
    ensures Counter(At(PendingCovered(s, cp), id), up) ==
              if s.pending.Some? && s.pending.value.id.V2? && s.pending.value.id.n <= cp.id.value.n then
                PendingCounter(s, id, up)
              else 0
  {
  }

  lemma NewCovers(s: Store, cp: Checkpoint, id: Uid, up: bool)
    requires Present(s) && QueueOk(s.queued.value, s.users.value, s.sequence) && FromV3(cp)
    ensures var n, owed := cp.id.value.n, Counter(Owed(s, cp, id), up);
            var pending := if s.pending.Some? && s.pending.value.id.V3? && s.pending.value.id.n > n then
                             PendingCounter(s, id, up)
                           else 0;
            HoldsLater(s, id, n, up, owed - pending)
  {
    OwedParts(s, cp, id, up, QueueOwed(s, cp, id));
    QueueLater(s, cp, id, up, QueueOwed(s, cp, id));
  }

  lemma QueueLater(s: Store, cp: Checkpoint, id: Uid, up: bool, queue: Amounts)
    requires Present(s) && QueueOk(s.queued.value, s.users.value, s.sequence) && FromV3(cp)
    requires queue == QueueOwed(s, cp, id)
    ensures HoldsLater(s, id, cp.id.value.n, up, Counter(queue, up))
  {
    forall number | IsQueued(s, id, number)
      ensures queue == if number.n > cp.id.value.n then s.queued.value[number].value else ZERO
    {
      QueueOwes(s, cp, id, number);
    }
    if forall number :: !IsQueued(s, id, number) { NotQueued(s, cp, id); }
  }

  function QueueOwed(s: Store, cp: Checkpoint, id: Uid): Amounts
    requires s.queued.Some? && s.users.Some?
  {
    QueuedIn(s.queued.value, s.users.value, s.queued.value.Keys - CoveredSeqs(s.queued.value, cp), id)
  }

  lemma QueueOwes(s: Store, cp: Checkpoint, id: Uid, number: Number)
    requires Present(s) && QueueOk(s.queued.value, s.users.value, s.sequence) && FromV3(cp) && IsQueued(s, id, number)
    ensures QueueOwed(s, cp, id) == if number.n > cp.id.value.n then s.queued.value[number].value else ZERO
  {
    assert EntryOk(number, s.queued.value[number], s.users.value, s.sequence);
  }

  lemma NotQueued(s: Store, cp: Checkpoint, id: Uid)
    requires Present(s) && forall number :: !IsQueued(s, id, number)
    ensures QueueOwed(s, cp, id) == ZERO
  {
    if id in s.users.value { assert !IsQueued(s, id, s.users.value[id]); }
  }

  lemma OwedParts(s: Store, cp: Checkpoint, id: Uid, up: bool, queue: Amounts)
    requires Present(s) && FromV3(cp) && queue == QueueOwed(s, cp, id)
    ensures Counter(Owed(s, cp, id), up) ==
            Counter(queue, up) +
              if s.pending.Some? && s.pending.value.id.V3? && s.pending.value.id.n > cp.id.value.n then
                PendingCounter(s, id, up)
              else 0
  {
    var part := if s.pending.Some? && s.pending.value.id.V3? && s.pending.value.id.n > cp.id.value.n then
                  PendingAt(s.pending, id)
                else ZERO;
    assert Owed(s, cp, id) == Plus(Plus(ZERO, queue), part);
  }

  // ---------------------------------------------------------------- which ledgers convert

  ghost predicate SoundTable(m: Table) {
    forall id :: id in m ==>
      && 1 <= id.n <= 0x7fff_ffff_ffff_ffff
      && m[id].up <= 0x7fff_ffff_ffff_ffff && m[id].down <= 0x7fff_ffff_ffff_ffff && m[id].up + m[id].down >= 1
  }

  lemma TableMeans(m: Table)
    ensures ValidTable(m) <==> SoundTable(m)
  {
    forall id | id in m
      ensures ValidAmounts(m[id]) <==>
                m[id].up <= 0x7fff_ffff_ffff_ffff && m[id].down <= 0x7fff_ffff_ffff_ffff && m[id].up + m[id].down >= 1
    {
    }
  }

  /** Both counters of every row. */
  function Counters(data: seq<Row>): (all: int) {
    if data == [] then 0 else data[0].up + data[0].down + Counters(data[1..])
  }

  lemma {:induction false} CountersAre(data: seq<Row>, n: nat)
    requires n <= |data|
    ensures RowSum(data, |data|) == RowSum(data, n) + Counters(data[n..])
    decreases |data| - n
  {
    if n < |data| {
      CountersAre(data, n + 1);
      assert data[n..][1..] == data[n + 1..];
    }
  }

  ghost predicate SoundReport(r: Report) {
    && !r.id.Other? && 1 <= |r.data| <= 1000
    && (forall i :: 0 <= i < |r.data| ==>
          r.data[i].uid >= 1 && r.data[i].up >= 0 && r.data[i].down >= 0 && r.data[i].up + r.data[i].down >= 1)
    && (forall i, j :: 0 <= i < j < |r.data| ==> r.data[i].uid < r.data[j].uid)
    && Counters(r.data) <= 0x7fff_ffff_ffff_ffff
  }

  lemma ReportMeans(r: Report)
    ensures ValidReport(r) <==> SoundReport(r)
  {
    CountersAre(r.data, 0);
    assert r.data[0..] == r.data;
    if SoundReport(r) {
      forall i | 0 <= i < |r.data| ensures ValidRow(r.data[i]) {
        RowSumGrows(r.data, i);
      }
    }
  }

  lemma {:induction false} RowSumGrows(data: seq<Row>, i: nat)
    requires i < |data| && forall j :: 0 <= j < |data| ==> data[j].up >= 0 && data[j].down >= 0
    ensures data[i].up + data[i].down <= RowSum(data, i + 1) <= RowSum(data, |data|)
    decreases |data|
  {
    SumNotNegative(data, i);
    SumRises(data, i + 1);
  }

  lemma {:induction false} SumNotNegative(data: seq<Row>, n: nat)
    requires n <= |data| && forall j :: 0 <= j < |data| ==> data[j].up >= 0 && data[j].down >= 0
    ensures RowSum(data, n) >= 0
  {
    if n > 0 { SumNotNegative(data, n - 1); }
  }

  lemma {:induction false} SumRises(data: seq<Row>, n: nat)
    requires n <= |data| && forall j :: 0 <= j < |data| ==> data[j].up >= 0 && data[j].down >= 0
    ensures RowSum(data, n) <= RowSum(data, |data|)
    decreases |data| - n
  {
    if n < |data| { SumRises(data, n + 1); }
  }

  /** Every queue entry has a number up to the local sequence, a sound amount and an index entry that points back at
      it; every index entry points at its user's queue entry. */
  ghost predicate SoundQueue(queued: map<Number, Entry>, users: map<Uid, Number>, local: Option<nat>) {
    && (forall number :: number in queued ==>
          var e := queued[number];
          && local.Some? && number.n <= local.value && 1 <= e.uid.n <= 0x7fff_ffff_ffff_ffff
          && e.value.up <= 0x7fff_ffff_ffff_ffff && e.value.down <= 0x7fff_ffff_ffff_ffff
          && e.value.up + e.value.down >= 1
          && e.uid in users && users[e.uid] == number)
    && (forall id :: id in users ==> users[id] in queued && queued[users[id]].uid == id)
  }

  lemma QueueMeans(queued: map<Number, Entry>, users: map<Uid, Number>, local: Option<nat>)
    ensures QueueOk(queued, users, local) <==> SoundQueue(queued, users, local)
  {
    if QueueOk(queued, users, local) {
      forall number | number in queued ensures EntryOk(number, queued[number], users, local) {}
      forall id | id in users ensures UserOk(id, users[id], queued) {}
    } else if SoundQueue(queued, users, local) {
      forall number | number in queued ensures EntryOk(number, queued[number], users, local) {}
      forall id | id in users ensures UserOk(id, users[id], queued) {
        assert users[id] in queued;
      }
      assert false;
    }
  }

  /** A pending report agrees with the rest of the ledger and the checkpoint. One of an old kind is part of the old
      totals, and one of the new kind leaves none. A number is within the local sequence. Under a checkpoint of the
      second kind, an old report must not be older, and a new one must be later. With the checkpoint's own number, the
      panel must have confirmed the same rows. */
  ghost predicate Agrees(p: Report, cp: Checkpoint, legacy: Table, local: Option<nat>) {
    && (!p.id.Plain? && !p.id.Other? ==> local.Some? && p.id.n <= local.value)
    && (if p.id.V3? then legacy == map[]
        else forall id, up :: Counter(At(legacy, id), up) >= Counter(At(Reported(p.data, |p.data|), id), up))
    && (cp.id.Some? && cp.id.value.V2? ==>
          match p.id
          case V2(n) => n >= cp.id.value.n
          case V3(n) => n > cp.id.value.n
          case _ => false)
    && (cp.id == Some(p.id) ==> cp.hash == DigestOf(p.data))
  }

  lemma PendingMeans(p: Report, cp: Checkpoint, legacy: Table, local: Option<nat>)
    requires !p.id.Other?
    ensures PendingOk(p, cp, legacy, local) <==> Agrees(p, cp, legacy, local)
  {
    CoversMeans(legacy, Reported(p.data, |p.data|));
  }

  lemma CoversMeans(whole: Table, part: Table)
    ensures CoversAll(whole, part) <==> forall id, up :: Counter(At(whole, id), up) >= Counter(At(part, id), up)
  {
    if forall id, up :: Counter(At(whole, id), up) >= Counter(At(part, id), up) {
      forall id ensures Covers(At(whole, id), At(part, id)) {
        assert Counter(At(whole, id), true) >= Counter(At(part, id), true);
        assert Counter(At(whole, id), false) >= Counter(At(part, id), false);
      }
    }
  }

  /** A counter of an account is the sum of its old total, its queue entry and a new-kind pending report. */
  ghost predicate Adds(s: Store, id: Uid, up: bool)
    requires Present(s)
  {
    var queue, index := s.queued.value, s.users.value;
    Counter(At(s.totals.value, id), up) ==
    Counter(At(s.legacy.value, id), up)
    + (if id in index && index[id] in queue then Counter(queue[index[id]].value, up) else 0)
    + (if s.pending.Some? && s.pending.value.id.V3? then PendingCounter(s, id, up) else 0)
  }

  lemma BalancedMeans(s: Store)
    requires Present(s) && SoundQueue(s.queued.value, s.users.value, s.sequence)
    ensures Balanced(s) <==> forall id, up :: Adds(s, id, up)
  {
    forall id
      ensures Adds(s, id, true) <==> At(s.totals.value, id).up == Component(s, id).up
      ensures Adds(s, id, false) <==> At(s.totals.value, id).down == Component(s, id).down
    {
      QueuedAt(s.queued.value, s.users.value, s.sequence, id);
      AddsMeans(s, id, true, QueuedIn(s.queued.value, s.users.value, s.queued.value.Keys, id));
      AddsMeans(s, id, false, QueuedIn(s.queued.value, s.users.value, s.queued.value.Keys, id));
    }
    forall id, up | Balanced(s) ensures Adds(s, id, up) {
      assert Adds(s, id, true) && Adds(s, id, false);
    }
  }

  lemma QueuedAt(queued: map<Number, Entry>, users: map<Uid, Number>, local: Option<nat>, id: Uid)
    requires SoundQueue(queued, users, local)
    ensures QueuedIn(queued, users, queued.Keys, id) ==
            if id in users && users[id] in queued then queued[users[id]].value else ZERO
  {
  }

  lemma AddsMeans(s: Store, id: Uid, up: bool, queue: Amounts)
    requires Present(s) && queue == QueuedIn(s.queued.value, s.users.value, s.queued.value.Keys, id)
    requires queue == if id in s.users.value && s.users.value[id] in s.queued.value then
                        s.queued.value[s.users.value[id]].value
                      else ZERO
    ensures Adds(s, id, up) <==> Counter(At(s.totals.value, id), up) == Counter(Component(s, id), up)
  {
    SumIs(At(s.legacy.value, id), queue, At(NewPending(s), id), up);
    NewPendingAt(s, id, up);
  }

  lemma NewPendingAt(s: Store, id: Uid, up: bool)
    ensures Counter(At(NewPending(s), id), up) ==
            if s.pending.Some? && s.pending.value.id.V3? then PendingCounter(s, id, up) else 0
  {
  }

  lemma SumIs(a: Amounts, b: Amounts, c: Amounts, up: bool)
    ensures Counter(Plus(Plus(a, b), c), up) == Counter(a, up) + Counter(b, up) + Counter(c, up)
  {
  }

  /** A ledger of the converted format: no sequence, no partition of the newer format and no tagged report; the panel
      must have no number either. */
  ghost predicate IsOriginal(s: Store, cp: Checkpoint) {
    && s.ledger == None && s.sequence == None && s.legacy == None && s.queued == None && s.users == None
    && (s.pending.Some? ==> s.pending.value.id.Plain?) && cp.id == None
  }

  /** A ledger of the third format that is not behind the checkpoint and whose parts are sound, agree and add up. */
  ghost predicate IsThird(s: Store, cp: Checkpoint) {
    && s.ledger == Some(3) && Present(s)
    && (cp.id.Some? && !cp.id.value.Plain? && !cp.id.value.Other? ==>
          s.sequence.Some? && cp.id.value.n <= s.sequence.value)
    && SoundTable(s.legacy.value) && SoundQueue(s.queued.value, s.users.value, s.sequence)
    && (s.pending.Some? ==> Agrees(s.pending.value, cp, s.legacy.value, s.sequence))
    && forall id, up :: Adds(s, id, up)
  }

  /** What is left to report of an account behind the report that is kept: both counters together. */
  function LaterSum(s: Store, cp: Checkpoint, id: Uid): int
    requires Present(s)
  {
    var owed, kept := Owed(s, cp, id), Retained(s, cp, id);
    (owed.up - kept.up) + (owed.down - kept.down)
  }

  lemma LaterSumIs(s: Store, cp: Checkpoint)
    requires Present(s) && forall id :: OldCovered(s, id)
    ensures InRange(s, cp) <==> forall id :: LaterSum(s, cp, id) <= 0x7fff_ffff_ffff_ffff
  {
    forall id ensures Joint(Minus(Owed(s, cp, id), Retained(s, cp, id))) == LaterSum(s, cp, id) {
      LaterSumAt(s, cp, id, Owed(s, cp, id), Retained(s, cp, id));
    }
  }

  lemma LaterSumAt(s: Store, cp: Checkpoint, id: Uid, owed: Amounts, kept: Amounts)
    requires Present(s) && OldCovered(s, id) && owed == Owed(s, cp, id) && kept == Retained(s, cp, id)
    ensures Joint(Minus(owed, kept)) == LaterSum(s, cp, id)
  {
    OwedRetained(s, cp, id, true);
    OwedRetained(s, cp, id, false);
    RetainedIs(s, cp, id);
    KeptFits(owed, kept);
  }

  lemma ThirdCovers(s: Store, cp: Checkpoint, id: Uid)
    requires IsThird(s, cp)
    ensures OldCovered(s, id)
  {
    if s.pending.Some? && !s.pending.value.id.V3? {
      var rows := Reported(s.pending.value.data, |s.pending.value.data|);
      assert Agrees(s.pending.value, cp, s.legacy.value, s.sequence);
      assert forall up :: Counter(At(s.legacy.value, id), up) >= Counter(At(rows, id), up);
      CoversBoth(At(s.legacy.value, id), At(rows, id));
    }
  }

  lemma KeptFits(owed: Amounts, kept: Amounts)
    requires Counter(owed, true) >= Counter(kept, true) && Counter(owed, false) >= Counter(kept, false)
    ensures Joint(Minus(owed, kept)) == owed.up - kept.up + owed.down - kept.down
  {
    CoversBoth(owed, kept);
    assert Minus(owed, kept) == Amounts(owed.up - kept.up, owed.down - kept.down);
  }

  /** Which ledgers convert, spelled out. */
  lemma ConvertibleMeans(s: Store, cp: Checkpoint)
    ensures Convertible(s, cp) <==>
              && (if cp.id == None then cp.hash == NoDigest
                  else (cp.id.value.V2? || cp.id.value.V3?) && cp.hash.DigestOf?)
              && s.meta && s.totals.Some? && SoundTable(s.totals.value)
              && (s.pending.Some? ==> SoundReport(s.pending.value))
              && (IsOriginal(s, cp) || (IsThird(s, cp) && forall id :: LaterSum(s, cp, id) <= 0x7fff_ffff_ffff_ffff))
  {
    if s.totals.Some? { TableMeans(s.totals.value); }
    if s.legacy.Some? { TableMeans(s.legacy.value); }
    if s.pending.Some? { ReportMeans(s.pending.value); }
    if s.queued.Some? && s.users.Some? { QueueMeans(s.queued.value, s.users.value, s.sequence); }
    if s.pending.Some? && s.legacy.Some? && !s.pending.value.id.Other? {
      PendingMeans(s.pending.value, cp, s.legacy.value, s.sequence);
    }
    if Present(s) && SoundQueue(s.queued.value, s.users.value, s.sequence) { BalancedMeans(s); }
    if IsThird(s, cp) {
      forall id ensures OldCovered(s, id) { ThirdCovers(s, cp, id); }
      LaterSumIs(s, cp);
    }
  }
}
