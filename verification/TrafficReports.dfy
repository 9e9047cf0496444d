/** Traffic reports, the receipts the panel signs for them, and the validity test of a stored report. */
module TrafficReports {
  import opened Wrappers

  /** One account's bytes in a report. */
  datatype Usage = Usage(uid: int, up: int, down: int, identity: string)

  /** What a deferral holds back: the user's own account, the node's, or both. */
  datatype Scope = User | Node | Both | OtherScope(text: string)

  datatype Reason =
    | MissingIdentity | IdentityMismatch | UserMissing | UserNotOnNode
    | ResetBoundaryAmbiguous | ReceiptConflict | OtherReason(text: string)

  datatype Entry = Entry(uid: int, reason: Reason, scope: Scope)

  /** The body of a deferred confirmation. `digest` stands for the hash of the report's data:
      hashing is taken to be injective, so it is the data itself. */
  datatype Ack = Ack(id: string, previous: string, digest: seq<Usage>, metadata: string, entries: seq<Entry>)

  /** A receipt as the node reads it: text without a deferral, a deferral whose body does not decode,
      or a deferred confirmation with its signature. */
  datatype Receipt =
    | Text(text: string)
    | Garbled(text: string)
    | Deferred(ack: Ack, signature: string)

  const NO_RECEIPT: Receipt := Text("")

  datatype Report = Report(id: string, previous: string, data: seq<Usage>, receipt: Receipt, reconcile: Receipt)

  /** How many accounts the panel takes in one report. */
  const MAX_REPORT_USERS: nat := 1000

  /** How many full reports hold that many accounts. */
  function BatchesFor(accounts: nat): (n: nat)
    ensures MAX_REPORT_USERS * (n - 1) < accounts <= MAX_REPORT_USERS * n
  {
    (accounts + MAX_REPORT_USERS - 1) / MAX_REPORT_USERS
  }

  predicate IsHexDigit(c: char) { '0' <= c <= '9' || 'a' <= c <= 'f' }

  /** Sixteen bytes in lower-case hexadecimal. */
  predicate IsReportId(s: string) {
    |s| == 32 && forall i :: 0 <= i < 32 ==> IsHexDigit(s[i])
  }

  function Total(data: seq<Usage>): int {
    if data == [] then 0 else Total(data[..|data| - 1]) + data[|data| - 1].up + data[|data| - 1].down
  }

  predicate ValidUsage(u: Usage) {
    && u.uid > 0
    && |u.identity| <= 40
    && u.up >= 0 && u.down >= 0 && (u.up != 0 || u.down != 0)
    && u.up + u.down <= MAX_INT64
  }

  predicate Increasing(data: seq<Usage>) {
    forall i, j :: 0 <= i < j < |data| ==> data[i].uid < data[j].uid
  }

  predicate ValidHeader(r: Report) {
    && r.reconcile == NO_RECEIPT
    && IsReportId(r.id)
    && 0 < |r.data| <= MAX_REPORT_USERS
    && (r.previous == "" || (IsReportId(r.previous) && r.previous != r.id))
  }

  predicate ValidRows(data: seq<Usage>) {
    && (forall u :: u in data ==> ValidUsage(u))
    && Increasing(data)
    && Total(data) <= MAX_INT64
  }

  /** What `validateReport` accepts. */
  predicate ValidReport(r: Report) {
    ValidHeader(r) && ValidRows(r.data)
  }

  lemma {:induction false} TotalGrows(data: seq<Usage>, n: nat)
    requires n <= |data|
    requires forall u :: u in data ==> u.up >= 0 && u.down >= 0
    ensures 0 <= Total(data[..n]) <= Total(data)
    decreases |data|
  {
    TakeAll(data);
    if n < |data| {
      TotalGrows(data[..|data| - 1], n);
      assert data[..|data| - 1][..n] == data[..n];
    } else if n > 0 {
      TotalGrows(data[..n - 1], n - 1);
      assert data[..n - 1][..n - 1] == data[..n - 1];
    }
  }

  lemma ValidRowsPrefix(data: seq<Usage>, n: nat)
    requires n <= |data| && ValidRows(data)
    ensures ValidRows(data[..n])
  {
    TotalGrows(data, n);
  }

  /** The running test of one more row. */
  lemma ValidRowsSnoc(data: seq<Usage>, u: Usage)
    requires ValidRows(data)
    ensures ValidRows(data + [u]) <==>
              && ValidUsage(u)
              && (data != [] ==> data[|data| - 1].uid < u.uid)
              && Total(data) + u.up + u.down <= MAX_INT64
  {
    TotalSnoc(data, u);
    IncreasingSnoc(data, u);
    UsagesSnoc(data, u);
  }

  lemma TotalSnoc(data: seq<Usage>, u: Usage)
    ensures Total(data + [u]) == Total(data) + u.up + u.down
  {
    InitSnoc(data, u);
  }

  lemma UsagesSnoc(data: seq<Usage>, u: Usage)
    ensures (forall v :: v in data + [u] ==> ValidUsage(v)) <==>
              (forall v :: v in data ==> ValidUsage(v)) && ValidUsage(u)
  {
    assert forall v :: v in data + [u] <==> v in data || v == u;
  }

  lemma IncreasingSnoc(data: seq<Usage>, u: Usage)
    requires Increasing(data)
    ensures Increasing(data + [u]) <==> data != [] ==> data[|data| - 1].uid < u.uid
  {
    var more := data + [u];
    if data != [] { assert more[|data| - 1] == data[|data| - 1] && more[|data|] == u; }
  }

  /** An id as the ledger makes them: thirty-two lower-case hexadecimal digits. */
  predicate Hexadecimal(s: string) {
    |s| == 32 && forall c :: c in s ==>
      '0' <= c <= '9' || c == 'a' || c == 'b' || c == 'c' || c == 'd' || c == 'e' || c == 'f'
  }

  lemma HexadecimalIs(s: string)
    ensures IsReportId(s) <==> Hexadecimal(s)
  {
    assert forall i :: 0 <= i < |s| ==> s[i] in s;
    if IsReportId(s) {
      forall c | c in s ensures IsHexDigit(c) {
        var i :| 0 <= i < |s| && s[i] == c;
      }
    }
  }

  /** A row: a positive user, a short identity, counters that are not negative and not both zero, and an int64 sum. */
  predicate Accountable(u: Usage) {
    u.uid >= 1 && |u.identity| <= 40 && u.up >= 0 && u.down >= 0 && 1 <= u.up + u.down <= 0x7fff_ffff_ffff_ffff
  }

  /** Both counters of every row. */
  function Counters(data: seq<Usage>): (all: int) {
    if data == [] then 0 else data[0].up + data[0].down + Counters(data[1..])
  }

  lemma {:induction false} CountersAre(data: seq<Usage>)
    ensures Counters(data) == Total(data)
    decreases |data|
  {
    if |data| == 1 {
      assert data[..0] == [] && data[1..] == [];
    } else if |data| > 1 {
      var n := |data| - 1;
      assert data[1..][..n - 1] == data[..n][1..] && data[1..][n - 1] == data[n];
      CountersAre(data[1..]);
      CountersAre(data[..n]);
      CountersAre(data[..n][1..]);
    }
  }

  /** Which reports are valid, spelled out: no proof to merge, ids in hexadecimal, the one before it another or none,
      one to a thousand rows in increasing user ids, and all counters together an int64. */
  lemma ValidMeans(r: Report)
    ensures ValidReport(r) <==>
              && r.reconcile == Text("") && Hexadecimal(r.id)
              && (r.previous != "" ==> Hexadecimal(r.previous) && r.previous != r.id)
              && 1 <= |r.data| <= 1000
              && (forall u :: u in r.data ==> Accountable(u))
              && (forall i, j :: 0 <= i < j < |r.data| ==> r.data[i].uid < r.data[j].uid)
              && Counters(r.data) <= 0x7fff_ffff_ffff_ffff
  {
    HexadecimalIs(r.id);
    HexadecimalIs(r.previous);
    CountersAre(r.data);
    assert forall u :: u in r.data ==> (ValidUsage(u) <==> Accountable(u));
  }

  /** `validateReport`: one pass over the rows with a running last user id and a running sum. */
  method ValidateReport(r: Report) returns (ok: bool)
    ensures ok <==> ValidReport(r)
  {
    if !ValidHeader(r) {
      return false;
    }
    var lastUid, total := 0, 0;
    for i := 0 to |r.data|
      invariant ValidRows(r.data[..i])
      invariant lastUid == if i == 0 then 0 else r.data[i - 1].uid
      invariant 0 <= lastUid && 0 <= total == Total(r.data[..i]) <= MAX_INT64
    {
      var u := r.data[i];
      TakeSnoc(r.data, i);
      assert (r.data[..i] + [u])[..i] == r.data[..i];
      ValidRowsSnoc(r.data[..i], u);
      if u.uid <= lastUid || |u.identity| > 40 || u.up < 0 || u.down < 0 || (u.up == 0 && u.down == 0) ||
         u.up > MAX_INT64 - u.down || total > MAX_INT64 - u.up - u.down {
        if ValidRows(r.data) { ValidRowsPrefix(r.data, i + 1); }
        return false;
      }
      total := total + u.up + u.down;
      lastUid := u.uid;
    }
    TakeAll(r.data);
    ok := true;
  }
}
