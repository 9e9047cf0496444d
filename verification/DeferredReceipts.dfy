/** Folding deferred confirmations of one report into a retained record: what the fold computes,
    and why it loses no signed statement. */
module DeferredReceipts {
  import opened Wrappers
  import opened TrafficReports

  datatype Side = UserSide | NodeSide

  /** The two bits a scope stands for. */
  function Mask(scope: Scope): set<Side> {
    match scope
    case User => {UserSide}
    case Node => {NodeSide}
    case Both => {UserSide, NodeSide}
    case OtherScope(_) => {}
  }

  function ScopeOf(mask: set<Side>): Scope {
    if mask == {UserSide} then User
    else if mask == {NodeSide} then Node
    else if mask == {UserSide, NodeSide} then Both
    else OtherScope("")
  }

  lemma ScopeOfMask(a: Scope, b: Scope)
    requires !a.OtherScope? && !b.OtherScope?
    ensures Mask(ScopeOf(Mask(a) + Mask(b))) == Mask(a) + Mask(b)
    ensures !ScopeOf(Mask(a) + Mask(b)).OtherScope?
  {
    assert {UserSide} + {UserSide} == {UserSide} && {NodeSide} + {NodeSide} == {NodeSide};
    assert Mask(a) + Mask(b) == {UserSide, NodeSide} || Mask(a) + Mask(b) == Mask(a);
  }

  /** A retained record: the report, the confirmation in force, the merged entries, the
      confirmations still to be merged, and every confirmation ever accepted. */
  datatype Held = Held(report: Report, confirmation: Receipt, entries: seq<Entry>,
                       proofs: seq<Receipt>, evidence: seq<Receipt>, heldAt: int)

  type Records = map<string, Held>

  /** `readDeferredConfirmation`. */
  function ReadAck(receipt: Receipt): Result<Option<Ack>, string> {
    match receipt
    case Text(_) => Ok(None)
    case Garbled(_) => Err("invalid deferred traffic confirmation")
    case Deferred(ack, _) =>
      if 0 < |ack.entries| <= 1000 then Ok(Some(ack)) else Err("invalid deferred traffic entries")
  }

  predicate HasAck(receipt: Receipt) {
    ReadAck(receipt).Ok? && ReadAck(receipt).value.Some?
  }

  function EntriesOf(receipt: Receipt): seq<Entry> {
    if receipt.Deferred? then receipt.ack.entries else []
  }

  function Uids(data: seq<Usage>): set<int> {
    set u | u in data :: u.uid
  }

  predicate KnownEntry(e: Entry) {
    !e.reason.OtherReason? && !e.scope.OtherScope?
  }

  /** The entries name distinct users of the report, with known reasons and scopes. */
  predicate EntriesOk(entries: seq<Entry>, data: seq<Usage>) {
    && (forall e :: e in entries ==> KnownEntry(e) && e.uid in Uids(data))
    && (forall i, j :: 0 <= i < j < |entries| ==> entries[i].uid != entries[j].uid)
  }

  /** The mask `entries` put on a user; a later entry replaces an earlier one. */
  function MaskAt(entries: seq<Entry>, uid: int): set<Side> {
    if entries == [] then {}
    else if entries[|entries| - 1].uid == uid then Mask(entries[|entries| - 1].scope)
    else MaskAt(entries[..|entries| - 1], uid)
  }

  predicate Covers(values: seq<Entry>, required: seq<Entry>) {
    forall e :: e in required ==> Mask(e.scope) <= MaskAt(values, e.uid)
  }

  /** The statement that every user of the report is in conflict: nothing can add to it. */
  predicate Conflict(entries: seq<Entry>, data: seq<Usage>) {
    && |entries| == |data|
    && forall e :: e in entries ==> e.reason == ReceiptConflict && e.scope == Both
  }

  /** `big` says at least what `small` says, about the same protocol metadata; or `big` is the conflict. */
  predicate Subsumes(big: Receipt, small: Receipt, data: seq<Usage>) {
    && big.Deferred? && small.Deferred?
    && (|| Conflict(big.ack.entries, data)
        || (big.ack.metadata == small.ack.metadata && Covers(big.ack.entries, small.ack.entries)))
  }

  // ---------------------------------------------------------------- masks

  lemma {:induction false} MaskAtMember(entries: seq<Entry>, data: seq<Usage>, e: Entry)
    requires EntriesOk(entries, data) && e in entries
    ensures MaskAt(entries, e.uid) == Mask(e.scope)
  {
    var last := |entries| - 1;
    if entries[last] != e {
      assert e in entries[..last];
      MaskAtMember(entries[..last], data, e);
      assert entries[last].uid != e.uid;
    }
  }

  lemma {:induction false} MaskAtAbsent(entries: seq<Entry>, uid: int)
    requires forall e :: e in entries ==> e.uid != uid
    ensures MaskAt(entries, uid) == {}
  {
    if entries != [] {
      MaskAtAbsent(entries[..|entries| - 1], uid);
    }
  }

  /** Covering is the pointwise order of masks. */
  lemma CoversPointwise(values: seq<Entry>, required: seq<Entry>, data: seq<Usage>)
    requires EntriesOk(required, data)
    ensures Covers(values, required) <==> forall uid :: MaskAt(required, uid) <= MaskAt(values, uid)
  {
    forall e | e in required ensures MaskAt(required, e.uid) == Mask(e.scope) {
      MaskAtMember(required, data, e);
    }
    if Covers(values, required) {
      forall uid ensures MaskAt(required, uid) <= MaskAt(values, uid) {
        if e :| e in required && e.uid == uid {
        } else {
          MaskAtAbsent(required, uid);
        }
      }
    } else {
      var e :| e in required && !(Mask(e.scope) <= MaskAt(values, e.uid));
      assert !(MaskAt(required, e.uid) <= MaskAt(values, e.uid));
    }
  }

  lemma CoversTransitive(a: seq<Entry>, b: seq<Entry>, c: seq<Entry>, data: seq<Usage>)
    requires EntriesOk(b, data) && EntriesOk(c, data)
    requires Covers(a, b) && Covers(b, c)
    ensures Covers(a, c)
  {
    CoversPointwise(a, b, data);
    CoversPointwise(b, c, data);
    CoversPointwise(a, c, data);
  }

  lemma {:induction false} UidCount(data: seq<Usage>)
    requires Increasing(data)
    ensures |Uids(data)| == |data|
  {
    if data != [] {
      var n := |data| - 1;
      UidCount(data[..n]);
      assert Uids(data) == Uids(data[..n]) + {data[n].uid};
    }
  }

  function Named(entries: seq<Entry>): set<int> {
    set e | e in entries :: e.uid
  }

  lemma {:induction false} NamedCount(entries: seq<Entry>)
    requires forall i, j :: 0 <= i < j < |entries| ==> entries[i].uid != entries[j].uid
    ensures |Named(entries)| == |entries|
  {
    if entries != [] {
      var n := |entries| - 1;
      NamedCount(entries[..n]);
      assert Named(entries) == Named(entries[..n]) + {entries[n].uid};
    }
  }

  /** A conflict names every user of the report, with both bits. */
  lemma ConflictMask(entries: seq<Entry>, data: seq<Usage>, uid: int)
    requires EntriesOk(entries, data) && Conflict(entries, data) && Increasing(data)
    ensures MaskAt(entries, uid) == if uid in Uids(data) then {UserSide, NodeSide} else {}
  {
    UidCount(data);
    NamedCount(entries);
    SubsetFull(Named(entries), Uids(data));
    if uid in Named(entries) {
      var e :| e in entries && e.uid == uid;
      MaskAtMember(entries, data, e);
    } else {
      MaskAtAbsent(entries, uid);
    }
  }

  /** An accepted entry never carries a bit for a stranger. */
  lemma MaskAtStranger(entries: seq<Entry>, data: seq<Usage>, uid: int)
    requires EntriesOk(entries, data) && uid !in Uids(data)
    ensures MaskAt(entries, uid) == {}
  {
    MaskAtAbsent(entries, uid);
  }

  lemma AllSides(mask: set<Side>)
    ensures mask <= {UserSide, NodeSide}
  {
    forall s | s in mask ensures s in {UserSide, NodeSide} {
      match s
      case UserSide =>
      case NodeSide =>
    }
  }

  lemma SubsumesMask(big: Receipt, small: Receipt, data: seq<Usage>, uid: int)
    requires Subsumes(big, small, data) && Increasing(data)
    requires EntriesOk(big.ack.entries, data) && EntriesOk(small.ack.entries, data)
    ensures MaskAt(small.ack.entries, uid) <= MaskAt(big.ack.entries, uid)
  {
    if Conflict(big.ack.entries, data) {
      ConflictMask(big.ack.entries, data, uid);
      if uid !in Uids(data) { MaskAtStranger(small.ack.entries, data, uid); }
      AllSides(MaskAt(small.ack.entries, uid));
    } else {
      CoversPointwise(big.ack.entries, small.ack.entries, data);
    }
  }

  // ---------------------------------------------------------------- what subsuming means

  /** Every user of the report is named as being in conflict, with both scopes. */
  ghost predicate AllInConflict(r: Receipt, data: seq<Usage>) {
    forall uid :: uid in Uids(data) ==> Entry(uid, ReceiptConflict, Both) in EntriesOf(r)
  }

  /** `big` puts every user in conflict; or it is about the same protocol metadata and puts at least the scopes on
      every user that `small` does. */
  ghost predicate SaysAsMuch(big: Receipt, small: Receipt, data: seq<Usage>) {
    || AllInConflict(big, data)
    || (&& big.Deferred? && small.Deferred? && big.ack.metadata == small.ack.metadata
        && forall uid :: MaskAt(EntriesOf(small), uid) <= MaskAt(EntriesOf(big), uid))
  }

  lemma ConflictIsAll(r: Receipt, data: seq<Usage>)
    requires Accepted(r, data) && Increasing(data)
    ensures Conflict(EntriesOf(r), data) <==> AllInConflict(r, data)
  {
    var entries := EntriesOf(r);
    UidCount(data);
    NamedCount(entries);
    if Conflict(entries, data) {
      SubsetFull(Named(entries), Uids(data));
      forall uid | uid in Uids(data) ensures Entry(uid, ReceiptConflict, Both) in entries {
        assert uid in Named(entries);
      }
    }
    if AllInConflict(r, data) {
      assert Named(entries) == Uids(data);
      forall e | e in entries ensures e.reason == ReceiptConflict && e.scope == Both {
        OneEntry(entries, e, Entry(e.uid, ReceiptConflict, Both));
      }
    }
  }

  lemma OneEntry(entries: seq<Entry>, d: Entry, e: Entry)
    requires forall i, j :: 0 <= i < j < |entries| ==> entries[i].uid != entries[j].uid
    requires d in entries && e in entries && d.uid == e.uid
    ensures d == e
  {
  }

  /** Subsumption is saying as much, user by user. */
  lemma SubsumesMeans(big: Receipt, small: Receipt, data: seq<Usage>)
    requires Accepted(big, data) && Accepted(small, data) && Increasing(data)
    ensures Subsumes(big, small, data) <==> SaysAsMuch(big, small, data)
  {
    ConflictIsAll(big, data);
    AreDeferred(big, small, data);
    CoversPointwise(big.ack.entries, small.ack.entries, data);
    if Subsumes(big, small, data) && !Conflict(big.ack.entries, data) {
      assert forall uid :: MaskAt(small.ack.entries, uid) <= MaskAt(big.ack.entries, uid);
    }
  }

  lemma AreDeferred(big: Receipt, small: Receipt, data: seq<Usage>)
    requires Accepted(big, data) && Accepted(small, data)
    ensures big.Deferred? && EntriesOf(big) == big.ack.entries
    ensures small.Deferred? && EntriesOf(small) == small.ack.entries && EntriesOk(small.ack.entries, data)
  {
  }

  // ---------------------------------------------------------------- the fold

  /** The last entry naming `uid`. */
  function Find(entries: seq<Entry>, uid: int): (e: Option<Entry>)
    ensures e.Some? ==> e.value in entries && e.value.uid == uid
    ensures e == None ==> forall x :: x in entries ==> x.uid != uid
  {
    if entries == [] then None
    else if entries[|entries| - 1].uid == uid then Some(entries[|entries| - 1])
    else Find(entries[..|entries| - 1], uid)
  }

  /** One user's merged entry: the new entry with the scopes or-ed. */
  function Merged(held: seq<Entry>, newer: seq<Entry>, uid: int): Option<Entry> {
    match (Find(held, uid), Find(newer, uid))
    case (_, None) => Find(held, uid)
    case (None, Some(e)) => Some(e)
    case (Some(prior), Some(e)) => Some(e.(scope := ScopeOf(Mask(prior.scope) + Mask(e.scope))))
  }

  /** The merged entries, in the order of the report. */
  function Union(held: seq<Entry>, newer: seq<Entry>, data: seq<Usage>): seq<Entry> {
    if data == [] then []
    else
      var last := data[|data| - 1].uid;
      var rest := Union(held, newer, data[..|data| - 1]);
      match Merged(held, newer, last)
      case None => rest
      case Some(e) => rest + [e]
  }

  /** Which outstanding confirmations the new one does not make redundant. */
  function Surviving(proofs: seq<Receipt>, newer: Receipt, data: seq<Usage>): seq<Receipt> {
    if proofs == [] then []
    else
      var rest := Surviving(proofs[..|proofs| - 1], newer, data);
      var last := proofs[|proofs| - 1];
      if Subsumes(newer, last, data) then rest else rest + [last]
  }

  function Remembered(evidence: seq<Receipt>, newer: Receipt): seq<Receipt> {
    if newer in evidence then evidence else evidence + [newer]
  }

  /** The heart of `rememberDeferred`: a confirmation meets the record already held for its report. */
  function Fold(held: Held, report: Report, newer: Receipt): Result<Held, string>
    requires newer.Deferred?
  {
    if !HasAck(held.confirmation) then Err("invalid retained traffic confirmation")
    else
      var data := report.data;
      var prior := EntriesOf(held.confirmation);
      var next := held.(
        report := if held.report.receipt == NO_RECEIPT then held.report.(receipt := newer) else held.report,
        evidence := Remembered(held.evidence, newer));
      if Conflict(prior, data) then Ok(next.(proofs := []))
      else
        var merged := next.(entries := Union(held.entries, newer.ack.entries, data));
        if Subsumes(newer, held.confirmation, data) then
          if exists p :: p in held.proofs && !HasAck(p) then Err("invalid retained traffic proof")
          else Ok(merged.(confirmation := newer, proofs := Surviving(held.proofs, newer, data)))
        else if Subsumes(held.confirmation, newer, data) || newer == held.confirmation || newer in held.proofs then
          Ok(merged)
        else
          Ok(merged.(proofs := held.proofs + [newer]))
  }

  /** The record a first confirmation opens. */
  function Opened(report: Report, newer: Receipt, heldAt: int): Held
    requires newer.Deferred?
  {
    Held(if report.receipt == NO_RECEIPT then report.(receipt := newer) else report,
         newer, newer.ack.entries, [], [newer], heldAt)
  }

  /** A confirmation `rememberDeferred` accepts for this report. */
  predicate Matches(newer: Receipt, report: Report) {
    && HasAck(newer)
    && newer.ack.id == report.id && newer.ack.previous == report.previous && newer.ack.digest == report.data
    && EntriesOk(newer.ack.entries, report.data)
  }

  // ---------------------------------------------------------------- no proof is lost

  predicate Accepted(r: Receipt, data: seq<Usage>) {
    HasAck(r) && EntriesOk(EntriesOf(r), data)
  }

  /** Some confirmation still in force or outstanding says at least what `e` says. */
  ghost predicate Kept(e: Receipt, held: Held) {
    || Subsumes(held.confirmation, e, held.report.data)
    || exists p :: p in held.proofs && Subsumes(p, e, held.report.data)
  }

  /** Some receipt in the list puts this bit on this user. */
  ghost predicate Says(receipts: seq<Receipt>, uid: int, side: Side) {
    exists r :: r in receipts && side in MaskAt(EntriesOf(r), uid)
  }

  ghost predicate Distinct(receipts: seq<Receipt>) {
    forall i, j :: 0 <= i < j < |receipts| ==> receipts[i] != receipts[j]
  }

  /** Neither receipt says as much as the other. */
  predicate Apart(a: Receipt, b: Receipt, data: seq<Usage>) {
    !Subsumes(a, b, data) && !Subsumes(b, a, data)
  }

  /** What lets `Lean` be read, and is always true. */
  ghost predicate LookAtHeld(held: Held) { true }

  /** Nothing is retained twice, and nothing is outstanding that the confirmation in force makes redundant or that
      would make the confirmation redundant. */
  ghost predicate Lean(held: Held) {
    forall h: Held {:trigger LookAtHeld(h)} :: LookAtHeld(h) && h == held ==>
      && Distinct(h.proofs) && Distinct(h.evidence)
      && forall p :: p in h.proofs ==> Apart(h.confirmation, p, h.report.data)
  }

  ghost predicate HeldInv(held: Held) {
    var data := held.report.data;
    && ValidRows(data) && Lean(held)
    && Accepted(held.confirmation, data)
    && held.confirmation in held.evidence
    && (forall p :: p in held.proofs ==>
         Accepted(p, data) && p in held.evidence && !Conflict(EntriesOf(p), data))
    && (forall e :: e in held.evidence ==> Accepted(e, data) && Kept(e, held))
    && (Conflict(EntriesOf(held.confirmation), data) ==> held.proofs == [])
    && EntriesOk(held.entries, data)
    && (forall uid, side :: side in MaskAt(held.entries, uid) <==> Says(held.evidence, uid, side))
  }

  lemma {:induction false} SurvivingIs(proofs: seq<Receipt>, newer: Receipt, data: seq<Usage>)
    ensures forall p :: p in Surviving(proofs, newer, data) <==> p in proofs && !Subsumes(newer, p, data)
    ensures |Surviving(proofs, newer, data)| <= |proofs|
    ensures |Surviving(proofs, newer, data)| < |proofs| <==> exists p :: p in proofs && Subsumes(newer, p, data)
  {
    if proofs != [] {
      var n := |proofs| - 1;
      SurvivingIs(proofs[..n], newer, data);
      Unsnoc(proofs);
    }
  }

  lemma {:induction false} SurvivingDistinct(proofs: seq<Receipt>, newer: Receipt, data: seq<Usage>)
    requires Distinct(proofs)
    ensures Distinct(Surviving(proofs, newer, data))
  {
    if proofs != [] {
      var n := |proofs| - 1;
      SurvivingDistinct(proofs[..n], newer, data);
      SurvivingIs(proofs[..n], newer, data);
    }
  }

  lemma SubsumesTransitive(a: Receipt, b: Receipt, c: Receipt, data: seq<Usage>)
    requires Accepted(a, data) && Accepted(b, data) && Accepted(c, data)
    requires Subsumes(a, b, data) && Subsumes(b, c, data)
    requires Conflict(b.ack.entries, data) ==> Conflict(a.ack.entries, data)
    ensures Subsumes(a, c, data)
  {
    if !Conflict(a.ack.entries, data) {
      CoversTransitive(a.ack.entries, b.ack.entries, c.ack.entries, data);
    }
  }

  lemma SubsumesReflexive(a: Receipt, data: seq<Usage>)
    requires Accepted(a, data)
    ensures Subsumes(a, a, data)
  {
    CoversPointwise(a.ack.entries, a.ack.entries, data);
  }

  lemma {:induction false} FindMask(entries: seq<Entry>, uid: int)
    ensures MaskAt(entries, uid) == (match Find(entries, uid) case None => {} case Some(e) => Mask(e.scope))
  {
    if entries != [] && entries[|entries| - 1].uid != uid {
      FindMask(entries[..|entries| - 1], uid);
    }
  }

  lemma MergedIs(held: seq<Entry>, newer: seq<Entry>, data: seq<Usage>, uid: int)
    requires EntriesOk(held, data) && EntriesOk(newer, data)
    ensures match Merged(held, newer, uid)
            case None => MaskAt(held, uid) + MaskAt(newer, uid) == {}
            case Some(e) => KnownEntry(e) && e.uid == uid && Mask(e.scope) == MaskAt(held, uid) + MaskAt(newer, uid)
  {
    FindMask(held, uid);
    FindMask(newer, uid);
    if Find(held, uid).Some? && Find(newer, uid).Some? {
      ScopeOfMask(Find(held, uid).value.scope, Find(newer, uid).value.scope);
    }
  }

  lemma {:induction false} UnionUids(held: seq<Entry>, newer: seq<Entry>, data: seq<Usage>)
    requires forall uid :: Merged(held, newer, uid).Some? ==>
                             Merged(held, newer, uid).value.uid == uid && KnownEntry(Merged(held, newer, uid).value)
    requires Increasing(data)
    ensures EntriesOk(Union(held, newer, data), data)
    ensures forall uid :: Find(Union(held, newer, data), uid) ==
                            if uid in Uids(data) then Merged(held, newer, uid) else None
  {
    if data != [] {
      var n := |data| - 1;
      UnionUids(held, newer, data[..n]);
      UidsSnoc(data);
      var all, rest := Union(held, newer, data), Union(held, newer, data[..n]);
      if Merged(held, newer, data[n].uid).Some? {
        assert all == rest + [Merged(held, newer, data[n].uid).value] && all[..|all| - 1] == rest;
      }
    }
  }

  lemma UidsSnoc(data: seq<Usage>)
    requires data != [] && Increasing(data)
    ensures var n := |data| - 1; Uids(data) == Uids(data[..n]) + {data[n].uid} && data[n].uid !in Uids(data[..n])
  {
    var n := |data| - 1;
    Unsnoc(data);
  }

  /** Merging entries or-s the masks of every user. */
  lemma UnionMask(held: seq<Entry>, newer: seq<Entry>, data: seq<Usage>)
    requires EntriesOk(held, data) && EntriesOk(newer, data) && Increasing(data)
    ensures EntriesOk(Union(held, newer, data), data)
    ensures forall uid :: MaskAt(Union(held, newer, data), uid) == MaskAt(held, uid) + MaskAt(newer, uid)
  {
    forall uid
      ensures match Merged(held, newer, uid)
              case None => MaskAt(held, uid) + MaskAt(newer, uid) == {}
              case Some(e) => KnownEntry(e) && e.uid == uid && Mask(e.scope) == MaskAt(held, uid) + MaskAt(newer, uid)
    {
      MergedIs(held, newer, data, uid);
    }
    UnionUids(held, newer, data);
    forall uid ensures MaskAt(Union(held, newer, data), uid) == MaskAt(held, uid) + MaskAt(newer, uid) {
      FindMask(Union(held, newer, data), uid);
      if uid !in Uids(data) {
        MaskAtStranger(held, data, uid);
        MaskAtStranger(newer, data, uid);
      }
    }
  }

  /** The reason on a user is that of the newer entry, if it names the user. */
  lemma UnionReasons(held: seq<Entry>, newer: seq<Entry>, data: seq<Usage>, uid: int)
    requires EntriesOk(held, data) && EntriesOk(newer, data) && Increasing(data)
    ensures var merged := Find(Union(held, newer, data), uid);
            if Find(newer, uid).Some? then merged.Some? && merged.value.reason == Find(newer, uid).value.reason
            else merged == Find(held, uid)
  {
    forall u ensures Merged(held, newer, u).Some? ==>
                       Merged(held, newer, u).value.uid == u && KnownEntry(Merged(held, newer, u).value)
    {
      MergedIs(held, newer, data, u);
    }
    UnionUids(held, newer, data);
  }

  /** The merged entries are in the order of the report. */
  lemma {:induction false} UnionOrdered(held: seq<Entry>, newer: seq<Entry>, data: seq<Usage>)
    requires Increasing(data)
    ensures var all := Union(held, newer, data);
            && (forall i, j :: 0 <= i < j < |all| ==> all[i].uid < all[j].uid)
            && (forall e :: e in all ==> e.uid in Uids(data))
  {
    if data != [] {
      var n := |data| - 1;
      UnionOrdered(held, newer, data[..n]);
      UidsSnoc(data);
      MergedUid(held, newer, data[n].uid);
      assert forall uid :: uid in Uids(data[..n]) ==> uid < data[n].uid;
    }
  }

  lemma MergedUid(held: seq<Entry>, newer: seq<Entry>, uid: int)
    ensures Merged(held, newer, uid).Some? ==> Merged(held, newer, uid).value.uid == uid
  {
  }

  lemma SaysMore(evidence: seq<Receipt>, newer: Receipt, uid: int, side: Side)
    ensures Says(Remembered(evidence, newer), uid, side) <==>
            Says(evidence, uid, side) || side in MaskAt(EntriesOf(newer), uid)
  {
    var more := Remembered(evidence, newer);
    assert newer in more;
    if Says(evidence, uid, side) {
      var r :| r in evidence && side in MaskAt(EntriesOf(r), uid);
      assert r in more;
    }
  }

  /** What a fold does to entries and evidence. */
  lemma FoldParts(held: Held, report: Report, newer: Receipt)
    requires newer.Deferred? && Fold(held, report, newer).Ok?
    ensures var next := Fold(held, report, newer).value;
            && HasAck(held.confirmation) && next.evidence == Remembered(held.evidence, newer)
            && next.entries == if Conflict(EntriesOf(held.confirmation), report.data) then held.entries
                               else Union(held.entries, newer.ack.entries, report.data)
  {
  }

  /** Under a conflict nothing new can be said: it already says everything. */
  lemma ConflictSaysAll(held: Held, newer: Receipt, uid: int, side: Side)
    requires HeldInv(held) && Accepted(newer, held.report.data) &&
             Conflict(EntriesOf(held.confirmation), held.report.data)
    requires side in MaskAt(EntriesOf(newer), uid)
    ensures Says(held.evidence, uid, side)
  {
    SubsumesMaskOf(held.confirmation, newer, held.report.data, uid);
  }

  /** The merged entries of the next record or the masks of all evidence so far. */
  lemma FoldEntries(held: Held, report: Report, newer: Receipt)
    requires HeldInv(held) && Accepted(newer, held.report.data) && report.data == held.report.data
    requires Fold(held, report, newer).Ok?
    ensures var next := Fold(held, report, newer).value;
            && EntriesOk(next.entries, held.report.data)
            && forall uid, side :: side in MaskAt(next.entries, uid) <==> Says(next.evidence, uid, side)
  {
    FoldParts(held, report, newer);
    if Conflict(EntriesOf(held.confirmation), held.report.data) {
      ConflictEntries(held, newer);
    } else {
      UnionEntries(held, newer);
    }
  }

  lemma ConflictEntries(held: Held, newer: Receipt)
    requires HeldInv(held) && Accepted(newer, held.report.data) &&
             Conflict(EntriesOf(held.confirmation), held.report.data)
    ensures forall uid, side :: side in MaskAt(held.entries, uid) <==> Says(Remembered(held.evidence, newer), uid, side)
  {
    forall uid, side
      ensures side in MaskAt(held.entries, uid) <==> Says(Remembered(held.evidence, newer), uid, side)
    {
      SaysMore(held.evidence, newer, uid, side);
      if side in MaskAt(EntriesOf(newer), uid) { ConflictSaysAll(held, newer, uid, side); }
    }
  }

  lemma UnionEntries(held: Held, newer: Receipt)
    requires HeldInv(held) && Accepted(newer, held.report.data)
    ensures var all := Union(held.entries, newer.ack.entries, held.report.data);
            && EntriesOk(all, held.report.data)
            && forall uid, side :: side in MaskAt(all, uid) <==> Says(Remembered(held.evidence, newer), uid, side)
  {
    var all := Union(held.entries, newer.ack.entries, held.report.data);
    UnionMask(held.entries, newer.ack.entries, held.report.data);
    forall uid, side
      ensures side in MaskAt(all, uid) <==> Says(Remembered(held.evidence, newer), uid, side)
    {
      SaysMore(held.evidence, newer, uid, side);
    }
  }

  lemma SubsumesMaskOf(big: Receipt, small: Receipt, data: seq<Usage>, uid: int)
    requires Accepted(big, data) && Accepted(small, data) && Increasing(data)
    requires Conflict(big.ack.entries, data)
    ensures MaskAt(EntriesOf(small), uid) <= MaskAt(EntriesOf(big), uid)
  {
    SubsumesMask(big, small, data, uid);
  }

  /** Nothing held becomes uncovered: what was kept before stays kept, and so does the newcomer. */
  lemma FoldKeeps(held: Held, report: Report, newer: Receipt, e: Receipt)
    requires HeldInv(held) && Accepted(newer, held.report.data) && report.data == held.report.data
    requires Fold(held, report, newer).Ok?
    requires e in held.evidence || e == newer
    ensures Kept(e, Fold(held, report, newer).value)
  {
    var data := held.report.data;
    var next := Fold(held, report, newer).value;
    SubsumesReflexive(newer, data);
    SubsumesReflexive(held.confirmation, data);
    if Conflict(EntriesOf(held.confirmation), data) {
    } else if Subsumes(newer, held.confirmation, data) {
      SurvivingIs(held.proofs, newer, data);
      if e != newer {
        var via := if Subsumes(held.confirmation, e, data) then held.confirmation
                  else var p :| p in held.proofs && Subsumes(p, e, data); p;
        if Subsumes(newer, via, data) {
          SubsumesTransitive(newer, via, e, data);
        } else {
          assert via in next.proofs;
        }
      }
    } else if e == newer {
      assert newer in next.proofs || newer == next.confirmation || Subsumes(next.confirmation, newer, data);
    } else if !Subsumes(held.confirmation, e, data) {
      var p :| p in held.proofs && Subsumes(p, e, data);
      assert p in next.proofs;
    }
  }

  /** What stays in force or outstanding is accepted evidence, and nothing is outstanding under a conflict. */
  lemma FoldRetains(held: Held, report: Report, newer: Receipt)
    requires HeldInv(held) && Accepted(newer, held.report.data) && report.data == held.report.data
    ensures Fold(held, report, newer).Ok?
    ensures var next, data := Fold(held, report, newer).value, held.report.data;
            && Accepted(next.confirmation, data) && next.confirmation in next.evidence
            && (forall p :: p in next.proofs ==>
                  Accepted(p, data) && p in next.evidence && !Conflict(EntriesOf(p), data))
            && (Conflict(EntriesOf(next.confirmation), data) ==> next.proofs == [])
  {
    var data := held.report.data;
    assert forall r :: r in held.evidence || r == newer ==> r in Remembered(held.evidence, newer);
    if Conflict(EntriesOf(held.confirmation), data) {
    } else if Subsumes(newer, held.confirmation, data) {
      SurvivingIs(held.proofs, newer, data);
      var rest := Surviving(held.proofs, newer, data);
      assert Fold(held, report, newer).value.proofs == rest;
      if Conflict(EntriesOf(newer), data) {
        assert forall p :: p in held.proofs ==> Subsumes(newer, p, data);
        if rest != [] { SomeMember(rest); }
      }
    } else {
      assert !Conflict(EntriesOf(newer), data);
    }
  }

  lemma SomeMember(s: seq<Receipt>)
    requires s != []
    ensures exists r :: r in s
  {
    assert s[0] in s;
  }

  /** A fold never touches the retained report but to note a first receipt. */
  lemma FoldReport(held: Held, report: Report, newer: Receipt)
    requires newer.Deferred? && Fold(held, report, newer).Ok?
    ensures var next := Fold(held, report, newer).value;
            next.report == held.report.(receipt := if held.report.receipt == NO_RECEIPT then newer
                                                   else held.report.receipt)
  {
  }

  lemma FoldLean(held: Held, report: Report, newer: Receipt)
    requires HeldInv(held) && Accepted(newer, held.report.data) && report.data == held.report.data
    requires Fold(held, report, newer).Ok?
    ensures Lean(Fold(held, report, newer).value)
  {
    var data, next := held.report.data, Fold(held, report, newer).value;
    assert LookAtHeld(held);
    FoldParts(held, report, newer);
    FoldReport(held, report, newer);
    FoldProofs(held, report, newer);
    if Conflict(EntriesOf(held.confirmation), data) {
      IsLean(next);
    } else if Subsumes(newer, held.confirmation, data) {
      SurvivorsApart(held.confirmation, held.proofs, newer, data);
      IsLean(next);
    } else {
      IsLean(next);
    }
  }

  lemma IsLean(held: Held)
    requires Distinct(held.proofs) && Distinct(held.evidence)
    requires forall p :: p in held.proofs ==> Apart(held.confirmation, p, held.report.data)
    ensures Lean(held)
  {
  }

  /** What a fold does to the confirmation in force and to what is outstanding. */
  lemma FoldProofs(held: Held, report: Report, newer: Receipt)
    requires newer.Deferred? && Fold(held, report, newer).Ok?
    ensures var next, data := Fold(held, report, newer).value, report.data;
            if Conflict(EntriesOf(held.confirmation), data) then
              next.confirmation == held.confirmation && next.proofs == []
            else if Subsumes(newer, held.confirmation, data) then
              next.confirmation == newer && next.proofs == Surviving(held.proofs, newer, data)
            else
              && next.confirmation == held.confirmation
              && next.proofs == if Subsumes(held.confirmation, newer, data) || newer == held.confirmation ||
                                   newer in held.proofs then held.proofs else held.proofs + [newer]
  {
  }

  lemma SurvivorsApart(confirmation: Receipt, proofs: seq<Receipt>, newer: Receipt, data: seq<Usage>)
    requires Accepted(confirmation, data) && Accepted(newer, data) && Subsumes(newer, confirmation, data)
    requires Distinct(proofs) && forall p :: p in proofs ==> Accepted(p, data) && Apart(confirmation, p, data)
    ensures Distinct(Surviving(proofs, newer, data))
    ensures forall p :: p in Surviving(proofs, newer, data) ==> Apart(newer, p, data)
  {
    SurvivingIs(proofs, newer, data);
    SurvivingDistinct(proofs, newer, data);
    forall p | p in Surviving(proofs, newer, data) ensures Apart(newer, p, data) {
      if Subsumes(p, newer, data) { SubsumesTransitive(p, newer, confirmation, data); }
    }
  }

  lemma FoldEvidence(held: Held, report: Report, newer: Receipt)
    requires newer.Deferred? && Fold(held, report, newer).Ok?
    ensures var next := Fold(held, report, newer).value;
            && next.report.data == held.report.data && next.heldAt == held.heldAt
            && forall e :: e in next.evidence <==> e in held.evidence || e == newer
  {
    FoldParts(held, report, newer);
    FoldReport(held, report, newer);
  }

  /** No proof is lost: the fold of an accepted confirmation into a good record succeeds, gives a
      good record, and only adds the newcomer to the evidence. */
  lemma FoldInv(held: Held, report: Report, newer: Receipt)
    requires HeldInv(held) && Accepted(newer, held.report.data) && report.data == held.report.data
    ensures Fold(held, report, newer).Ok?
    ensures var next := Fold(held, report, newer).value;
            && HeldInv(next)
            && next.report.data == held.report.data
            && next.heldAt == held.heldAt
            && forall e :: e in next.evidence <==> e in held.evidence || e == newer
  {
    FoldRetains(held, report, newer);
    FoldEntries(held, report, newer);
    FoldEvidence(held, report, newer);
    FoldLean(held, report, newer);
    var next := Fold(held, report, newer).value;
    forall e | e in next.evidence ensures Accepted(e, held.report.data) && Kept(e, next) {
      FoldKeeps(held, report, newer, e);
    }
  }

  lemma OpenedInv(report: Report, newer: Receipt, heldAt: int)
    requires ValidRows(report.data) && Accepted(newer, report.data)
    ensures HeldInv(Opened(report, newer, heldAt))
  {
    SubsumesReflexive(newer, report.data);
    var held := Opened(report, newer, heldAt);
    forall uid, side ensures side in MaskAt(held.entries, uid) <==> Says(held.evidence, uid, side) {
    }
  }

  // ---------------------------------------------------------------- whole runs for one report

  /** The record after a sequence of confirmations of one report. */
  ghost function After(report: Report, receipts: seq<Receipt>, heldAt: int): Result<Held, string>
    requires receipts != [] && forall r :: r in receipts ==> r.Deferred?
  {
    var n := |receipts| - 1;
    if n == 0 then Ok(Opened(report, receipts[0], heldAt))
    else
      match After(report, receipts[..n], heldAt)
      case Err(e) => Err(e)
      case Ok(held) => Fold(held, report, receipts[n])
  }

  ghost predicate AllAccepted(receipts: seq<Receipt>, data: seq<Usage>) {
    forall r :: r in receipts ==> Accepted(r, data)
  }

  /** Every run ends in a good record whose evidence is exactly what was received. */
  lemma {:induction false} RunInv(report: Report, receipts: seq<Receipt>, heldAt: int)
    requires receipts != [] && ValidRows(report.data) && AllAccepted(receipts, report.data)
    ensures After(report, receipts, heldAt).Ok?
    ensures var held := After(report, receipts, heldAt).value;
            HeldInv(held) && held.report.data == report.data && forall r :: r in held.evidence <==> r in receipts
  {
    var n := |receipts| - 1;
    if n == 0 {
      OpenedInv(report, receipts[0], heldAt);
    } else {
      var init := receipts[..n];
      assert receipts == init + [receipts[n]];
      assert forall r :: r in receipts <==> r in init || r == receipts[n];
      RunInv(report, init, heldAt);
      FoldInv(After(report, init, heldAt).value, report, receipts[n]);
    }
  }

  /** Order and repetition of confirmations do not matter: two runs over the same confirmations put the
      same scopes on every user, namely the union of all the scopes stated. */
  lemma OrderInsensitive(report: Report, a: seq<Receipt>, b: seq<Receipt>, heldAt: int, heldAt': int)
    requires a != [] && b != [] && ValidRows(report.data)
    requires AllAccepted(a, report.data) && AllAccepted(b, report.data)
    requires forall r :: r in a <==> r in b
    ensures After(report, a, heldAt).Ok? && After(report, b, heldAt').Ok?
    ensures forall uid :: MaskAt(After(report, a, heldAt).value.entries, uid) ==
                          MaskAt(After(report, b, heldAt').value.entries, uid)
    ensures forall uid, side :: side in MaskAt(After(report, a, heldAt).value.entries, uid) <==> Says(a, uid, side)
  {
    RunInv(report, a, heldAt);
    RunInv(report, b, heldAt');
    var x, y := After(report, a, heldAt).value, After(report, b, heldAt').value;
    forall uid ensures MaskAt(x.entries, uid) == MaskAt(y.entries, uid) {
      forall side ensures side in MaskAt(x.entries, uid) <==> side in MaskAt(y.entries, uid) {
        assert side in MaskAt(x.entries, uid) <==> Says(x.evidence, uid, side);
        assert side in MaskAt(y.entries, uid) <==> Says(y.evidence, uid, side);
      }
    }
    forall uid, side ensures side in MaskAt(x.entries, uid) <==> Says(a, uid, side) {
      assert Says(x.evidence, uid, side) <==> Says(a, uid, side);
    }
  }

  /** The confirmation in force and the outstanding ones alone already say everything ever said. */
  lemma JoinOfRetained(held: Held, uid: int, side: Side)
    requires HeldInv(held)
    ensures side in MaskAt(held.entries, uid) <==> Says([held.confirmation] + held.proofs, uid, side)
  {
    var data := held.report.data;
    var retained := [held.confirmation] + held.proofs;
    if Says(retained, uid, side) {
      var r :| r in retained && side in MaskAt(EntriesOf(r), uid);
      assert r in held.evidence;
      assert Says(held.evidence, uid, side);
    } else if Says(held.evidence, uid, side) {
      var e :| e in held.evidence && side in MaskAt(EntriesOf(e), uid);
      assert Kept(e, held);
      var via :| via in retained && Subsumes(via, e, data);
      SubsumesMask(via, e, data, uid);
    }
  }

  /** A conflict is absorbing: once it is in force nothing replaces it, joins it or stays outstanding. */
  lemma ConflictAbsorbs(held: Held, report: Report, newer: Receipt)
    requires HeldInv(held) && Accepted(newer, held.report.data) && report.data == held.report.data
    requires Conflict(newer.ack.entries, report.data) || Conflict(EntriesOf(held.confirmation), report.data)
    ensures Fold(held, report, newer).Ok?
    ensures var next := Fold(held, report, newer).value;
            Conflict(EntriesOf(next.confirmation), report.data) && next.proofs == []
  {
    FoldRetains(held, report, newer);
  }

  /** Exactly what is in force and what is outstanding after a fold. A receipt becomes outstanding if and only if
      neither it nor the confirmation in force says as much as the other; it takes over from a confirmation that it
      says as much as, and then from every outstanding one it says as much as; and nothing else is lost. */
  lemma FoldDisposes(held: Held, report: Report, newer: Receipt, p: Receipt)
    requires HeldInv(held) && Accepted(newer, held.report.data) && report.data == held.report.data
    ensures Fold(held, report, newer).Ok?
    ensures var next, data := Fold(held, report, newer).value, report.data;
            && (newer in next.proofs <==>
                  !SaysAsMuch(newer, held.confirmation, data) && !SaysAsMuch(held.confirmation, newer, data))
            && (p != newer ==> (p in next.proofs <==>
                  p in held.proofs &&
                  !(SaysAsMuch(newer, held.confirmation, data) && SaysAsMuch(newer, p, data))))
            && next.confirmation ==
               if SaysAsMuch(newer, held.confirmation, data) && !AllInConflict(held.confirmation, data) then newer
               else held.confirmation
  {
    var data := report.data;
    FoldInv(held, report, newer);
    FoldProofs(held, report, newer);
    assert LookAtHeld(held);
    SubsumesMeans(newer, held.confirmation, data);
    SubsumesMeans(held.confirmation, newer, data);
    ConflictIsAll(held.confirmation, data);
    SubsumesReflexive(newer, data);
    SurvivingIs(held.proofs, newer, data);
    if p in held.proofs { SubsumesMeans(newer, p, data); }
  }

  /** Whatever was received, in any order: what is retained says as much as each receipt, nothing is retained twice,
      and nothing outstanding is made redundant by the confirmation in force, or makes it redundant. */
  lemma RunRetains(report: Report, receipts: seq<Receipt>, heldAt: int)
    requires receipts != [] && ValidRows(report.data) && AllAccepted(receipts, report.data)
    ensures After(report, receipts, heldAt).Ok?
    ensures var held := After(report, receipts, heldAt).value;
            && (forall e :: e in receipts ==>
                  exists r :: r in [held.confirmation] + held.proofs && SaysAsMuch(r, e, report.data))
            && Distinct(held.proofs) && Distinct(held.evidence)
            && (forall p :: p in held.proofs ==>
                  && p in receipts && !SaysAsMuch(held.confirmation, p, report.data)
                  && !SaysAsMuch(p, held.confirmation, report.data))
            && held.confirmation in receipts
  {
    RunInv(report, receipts, heldAt);
    var held, data := After(report, receipts, heldAt).value, report.data;
    assert LookAtHeld(held);
    forall e | e in receipts
      ensures exists r :: r in [held.confirmation] + held.proofs && SaysAsMuch(r, e, data)
    {
      assert Kept(e, held);
      var r :| r in [held.confirmation] + held.proofs && Subsumes(r, e, data);
      SubsumesMeans(r, e, data);
    }
    forall p | p in held.proofs
      ensures !SaysAsMuch(held.confirmation, p, data) && !SaysAsMuch(p, held.confirmation, data)
    {
      assert Apart(held.confirmation, p, data);
      SubsumesMeans(held.confirmation, p, data);
      SubsumesMeans(p, held.confirmation, data);
    }
  }

  /** Exactly when a fold leaves fewer confirmations outstanding: a conflict, or a confirmation that
      subsumes the one in force and at least one of the outstanding ones. */
  lemma FoldShrinks(held: Held, report: Report, newer: Receipt)
    requires HeldInv(held) && Accepted(newer, held.report.data) && report.data == held.report.data
    requires held.proofs != []
    ensures Fold(held, report, newer).Ok?
    ensures |Fold(held, report, newer).value.proofs| < |held.proofs| <==>
              && Subsumes(newer, held.confirmation, report.data)
              && exists p :: p in held.proofs && Subsumes(newer, p, report.data)
  {
    FoldInv(held, report, newer);
    SurvivingIs(held.proofs, newer, report.data);
  }
}
