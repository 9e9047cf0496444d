/** Who loses a slot in the shared ledger, and to whom. */
module GlobalEviction {
  import opened Wrappers
  import opened GlobalLimit
  import opened GlobalLimitProofs

  /** Some lease on the slot is neither idle too long nor past its authorization. */
  predicate Live(a: Account, s: Slot, panelNow: int, cutoffMs: int) {
    s in a.hash && exists o :: o in a.hash[s].leases && !Stale(a.hash[s].leases[o], panelNow, cutoffMs)
  }

  predicate LiveTo(a: Account, s: Slot, args: Args) {
    Live(a, s, args.panelNow, args.nowMs + args.offset)
  }

  /** A touched slot is live until it has been idle for the caller's allowance or its authorization ends, however
      its other leases fare; no other slot becomes live or stale by it. */
  lemma TouchedLives(a: Account, args: Args, expires: int, s: Slot, panelNow: int, cutoffMs: int)
    ensures s != args.slot ==>
              (Live(Touch(a, args, expires), s, panelNow, cutoffMs) <==> Live(a, s, panelNow, cutoffMs))
    ensures s == args.slot && panelNow - args.panelNow <= args.expiry && (expires == 0 || cutoffMs < expires) ==>
              Live(Touch(a, args, expires), s, panelNow, cutoffMs)
  {
    if s == args.slot {
      assert args.scope in Touch(a, args, expires).hash[s].leases;
    }
  }

  /** The devices the caller competes with. */
  function Others(a: Account, args: Args): set<Slot> {
    set s | s in a.hash && s != args.slot && LiveTo(a, s, args)
  }

  lemma SweepIsLive(hash: Ledger, a: Account, s: Slot, panelNow: int, cutoffMs: int)
    requires a.hash == hash
    ensures s in Sweep(hash, panelNow, cutoffMs) <==> Live(a, s, panelNow, cutoffMs)
    ensures s in Sweep(hash, panelNow, cutoffMs) ==>
              Sweep(hash, panelNow, cutoffMs)[s] == Fresh(hash[s], panelNow, cutoffMs)
  {
    if s in hash {
      var kept := Fresh(hash[s], panelNow, cutoffMs).leases;
      if o :| o in hash[s].leases && !Stale(hash[s].leases[o], panelNow, cutoffMs) {
        assert o in kept;
      } else {
        assert kept == map[];
      }
    }
  }

  lemma OpenOther(a: Account, args: Args, s: Slot)
    requires AccountInv(a) && s != args.slot
    ensures var ledger := Open(a, args).0;
            (s in ledger.hash <==> s in a.hash) && (s in a.hash ==> ledger.hash[s] == a.hash[s])
  {
    OpenIs(a, args);
    PresentKeeps(a, args.slot, args.version, args.validUntil, args.offset, false);
  }

  lemma LiveSame(a: Account, b: Account, s: Slot, panelNow: int, cutoffMs: int)
    requires (s in a.hash <==> s in b.hash) && (s in a.hash ==> a.hash[s] == b.hash[s])
    ensures Live(a, s, panelNow, cutoffMs) <==> Live(b, s, panelNow, cutoffMs)
  {
  }

  /** What an authorized script finds of the other devices: the live ones, less their stale leases. */
  lemma SweptOther(a: Account, args: Args, s: Slot)
    requires AccountInv(a) && s != args.slot
    ensures var swept := Swept(Open(a, args).0, args).hash;
            && (s in swept <==> s in Others(a, args))
            && (s in swept ==> swept[s] == Fresh(a.hash[s], args.panelNow, args.nowMs + args.offset))
  {
    OpenOther(a, args, s);
    SweptAt(Open(a, args).0, a, args, s);
  }

  lemma SweptAt(ledger: Account, a: Account, args: Args, s: Slot)
    requires s != args.slot
    requires (s in ledger.hash <==> s in a.hash) && (s in a.hash ==> ledger.hash[s] == a.hash[s])
    ensures var swept := Swept(ledger, args).hash;
            && (s in swept <==> s in Others(a, args))
            && (s in swept ==> swept[s] == Fresh(a.hash[s], args.panelNow, args.nowMs + args.offset))
  {
    SweepIsLive(ledger.hash, ledger, s, args.panelNow, args.nowMs + args.offset);
    LiveSame(ledger, a, s, args.panelNow, args.nowMs + args.offset);
  }

  lemma AdmitSweptSpares(swept: Account, view: View, args: Args, s: Slot)
    requires s != args.slot
    ensures var after := AdmitSwept(swept, view, args).0;
            && (s in after.hash <==> s in swept.hash) && (s in swept.hash ==> after.hash[s] == swept.hash[s])
            && after.policies == swept.policies
  {
  }

  /** Admission and verification never take another device's live slot or any live lease of it. */
  lemma AdmitSpares(a: Account, args: Args, s: Slot)
    requires AccountInv(a) && s in Others(a, args)
    ensures s in Admit(a, args).0.hash && s in Verify(a, args).0.hash
    ensures Admit(a, args).0.hash[s] in {a.hash[s], Fresh(a.hash[s], args.panelNow, args.nowMs + args.offset)}
    ensures Verify(a, args).0.hash[s] in {a.hash[s], Fresh(a.hash[s], args.panelNow, args.nowMs + args.offset)}
  {
    var (ledger, view, authorized) := Open(a, args);
    OpenOther(a, args, s);
    SweptOther(a, args, s);
    AdmitSweptSpares(Swept(ledger, args), view, args, s);
  }

  // ---------------------------------------------------------------- eviction

  ghost predicate NoYounger(order: seq<Slot>, hash: Ledger)
    requires forall s :: s in order ==> s in hash
  {
    forall i, j, t, u :: 0 <= i < j < |order| && IsLastSeen(t, hash[order[i]]) && IsLastSeen(u, hash[order[j]]) ==>
        t <= u
  }

  lemma {:induction false} WithoutByAge(order: seq<Slot>, slot: Slot, hash: Ledger)
    requires Distinct(order) && (forall s :: s in order ==> s in hash) && NoYounger(order, hash)
    ensures (forall s :: s in Without(order, slot) ==> s in hash) && NoYounger(Without(order, slot), hash)
  {
    WithoutIs(order, slot);
    if order != [] && order[0] != slot {
      var rest := Without(order[1..], slot);
      WithoutByAge(order[1..], slot, hash);
      WithoutIs(order[1..], slot);
      forall s, t, u | s in rest && IsLastSeen(t, hash[order[0]]) && IsLastSeen(u, hash[s])
        ensures t <= u
      {
        var k :| 0 <= k < |order[1..]| && order[1..][k] == s;
        assert order[k + 1] == s;
      }
      NoYoungerCons(order[0], rest, hash);
    }
  }

  lemma NoYoungerCons(first: Slot, rest: seq<Slot>, hash: Ledger)
    requires first in hash && (forall s :: s in rest ==> s in hash) && NoYounger(rest, hash)
    requires forall s, t, u :: s in rest && IsLastSeen(t, hash[first]) && IsLastSeen(u, hash[s]) ==> t <= u
    ensures NoYounger([first] + rest, hash)
  {
  }

  predicate Chosen(hash: Ledger, args: Args) {
    args.target != "" && args.target != args.slot && args.target in hash
  }

  lemma PrefixIsOldest(rest: seq<Slot>, count: nat, hash: Ledger, v: Slot, s: Slot, t: int, u: int)
    requires count <= |rest| && (forall x :: x in rest ==> x in hash) && NoYounger(rest, hash)
    requires v in rest[..count] && s in rest && s !in rest[..count]
    requires IsLastSeen(t, hash[v]) && IsLastSeen(u, hash[s])
    ensures t <= u
  {
    var i :| 0 <= i < count && rest[..count][i] == v;
    var j :| 0 <= j < |rest| && rest[j] == s;
    assert forall k :: 0 <= k < count ==> rest[k] == rest[..count][k];
    assert rest[i] == v && i < j;
  }

  lemma RemainingByAge(hash: Ledger, args: Args, order: seq<Slot>)
    requires IsByAge(order, hash)
    ensures var rest := Remaining(hash, args, order);
            && (forall s :: s in rest <==> s in hash && !(Chosen(hash, args) && s == args.target))
            && NoYounger(rest, hash)
  {
    WithoutIs(order, args.target);
    assert NoYounger(order, hash);
    WithoutByAge(order, args.target, hash);
  }

  /** Apart from the chosen target, no victim was seen more recently than any slot that stays. */
  lemma VictimsAreOldest(hash: Ledger, args: Args, order: seq<Slot>, v: Slot, s: Slot, t: int, u: int)
    requires IsByAge(order, hash) && args.limit > 0 && |hash| >= args.limit
    requires v in Victims(hash, args, order) && !(Chosen(hash, args) && v == args.target)
    requires s in hash && s !in Victims(hash, args, order)
    requires v in hash && IsLastSeen(t, hash[v]) && IsLastSeen(u, hash[s])
    ensures t <= u
  {
    RemainingIs(hash, args, order);
    RemainingByAge(hash, args, order);
    var rest := Remaining(hash, args, order);
    PrefixIsOldest(rest, |rest| - args.limit + 1, hash, v, s, t, u);
  }

  function LiveEntry(a: Account, s: Slot, args: Args): Entry
    requires s in a.hash
  {
    Fresh(a.hash[s], args.panelNow, args.nowMs + args.offset)
  }

  /** What an evict that removed anybody did. */
  ghost predicate EvictedExactly(a: Account, args: Args, after: Account, victims: seq<Slot>) {
    var others := Others(a, args);
    var chosen := args.target != "" && args.target in others;
    && args.confirmed && |others| >= args.limit
    && Distinct(victims) && (forall v :: v in victims ==> v in others)
    && |victims| == |others| - args.limit + 1
    && after.hash.Keys == (others - set v | v in victims) + {args.slot}
    && (chosen ==> victims[0] == args.target)
    && OldestGo(a, args, victims)
  }

  /** No victim but the chosen target was seen more recently than a slot that stays. */
  ghost predicate OldestGo(a: Account, args: Args, victims: seq<Slot>) {
    var others := Others(a, args);
    forall v, s, t, u ::
      (v in victims && v in others && !(args.target != "" && v == args.target) && s in others && s !in victims
       && IsLastSeen(t, LiveEntry(a, v, args)) && IsLastSeen(u, LiveEntry(a, s, args)))
      ==> t <= u
  }

  lemma SweptOthers(a: Account, args: Args)
    requires AccountInv(a)
    ensures var swept := Swept(Open(a, args).0, args);
            && swept.hash.Keys - {args.slot} == Others(a, args)
            && (forall s :: s in Others(a, args) ==> swept.hash[s] == LiveEntry(a, s, args))
  {
    var swept := Swept(Open(a, args).0, args);
    forall s | s != args.slot
      ensures s in swept.hash <==> s in Others(a, args)
      ensures s in Others(a, args) ==> swept.hash[s] == LiveEntry(a, s, args)
    {
      SweptOther(a, args, s);
    }
  }

  lemma OldestGone(a: Account, hash: Ledger, args: Args, order: seq<Slot>)
    requires IsByAge(order, hash) && args.limit > 0 && |hash| >= args.limit && hash.Keys == Others(a, args)
    requires forall s :: s in Others(a, args) ==> hash[s] == LiveEntry(a, s, args)
    ensures OldestGo(a, args, Victims(hash, args, order))
  {
    var victims, others := Victims(hash, args, order), Others(a, args);
    forall v, s, t, u | v in victims && v in others && !(args.target != "" && v == args.target) && s in others &&
      s !in victims
      && IsLastSeen(t, LiveEntry(a, v, args)) && IsLastSeen(u, LiveEntry(a, s, args))
      ensures t <= u
    {
      VictimsAreOldest(hash, args, order, v, s, t, u);
    }
  }

  /** The removal itself, seen from the swept ledger. */
  lemma FullEvict(a: Account, swept: Account, args: Args, order: seq<Slot>, expires: int)
    requires IsByAge(order, swept.hash) && args.limit > 0 && |swept.hash| >= args.limit
    requires args.slot !in swept.hash && args.confirmed && swept.hash.Keys == Others(a, args)
    requires OldestGo(a, args, Victims(swept.hash, args, order))
    ensures var victims := Victims(swept.hash, args, order);
            EvictedExactly(a, args, Touch(swept.(hash := RemoveSlots(swept.hash, victims)), args, expires), victims)
  {
    var victims := Victims(swept.hash, args, order);
    VictimsAre(swept.hash, args, order);
    assert |swept.hash.Keys| == |swept.hash|;
    KeysLeft(swept, victims, args, expires);
  }

  lemma KeysLeft(swept: Account, victims: seq<Slot>, args: Args, expires: int)
    ensures Touch(swept.(hash := RemoveSlots(swept.hash, victims)), args, expires).hash.Keys ==
              (swept.hash.Keys - set v | v in victims) + {args.slot}
  {
  }

  /** An evict that removes somebody acts on a full account, with the confirmation, and removes exactly the
      victims it returns; one that removes nobody leaves every other live device in place. */
  lemma EvictIsExact(a: Account, args: Args, order: seq<Slot>)
    requires AccountInv(a) && Legal(a, DoEvict(args, order))
    ensures var (after, result) := Evict(a, args, order);
            && (result.Some? && result.value != [] ==> EvictedExactly(a, args, after, result.value))
            && (result == None || result.value == [] ==> Others(a, args) <= after.hash.Keys)
            && (result.Some? ==> args.slot in after.hash)
  {
    var (ledger, view, authorized) := Open(a, args);
    SweptOthers(a, args);
    var swept := Swept(ledger, args);
    assert Others(a, args) <= ledger.hash.Keys by {
      forall s | s in Others(a, args) ensures s in ledger.hash { OpenOther(a, args, s); }
    }
    if Evict(a, args, order).1.Some? && Evict(a, args, order).1.value != [] {
      assert args.slot !in swept.hash && swept.hash.Keys == swept.hash.Keys - {args.slot};
      OldestGone(a, swept.hash, args, order);
      FullEvict(a, swept, args, order, ScopeExpiry(view, args));
    }
  }

  /** The caller's own slot is live, and the version presented does not supersede it. */
  predicate Holds(a: Account, args: Args) {
    args.slot in a.hash && args.version <= a.hash[args.slot].v && LiveTo(a, args.slot, args)
  }

  lemma OwnHeld(a: Account, args: Args)
    requires AccountInv(a)
    ensures args.slot in Swept(Open(a, args).0, args).hash <==> Holds(a, args)
  {
    OpenIs(a, args);
    PresentKeeps(a, args.slot, args.version, args.validUntil, args.offset, false);
    var ledger := Open(a, args).0;
    SweepIsLive(ledger.hash, ledger, args.slot, args.panelNow, args.nowMs + args.offset);
  }

  /** An evict refuses if and only if the slot is revoked, or presented with an old version or after its
      authorization ended, or the limit is not the one last synced; or the slot is not held, other live devices fill
      the limit, and the confirmation is missing or may come too late. */
  lemma EvictRefuses(a: Account, args: Args, order: seq<Slot>)
    requires AccountInv(a)
    ensures var view := Open(a, args).1;
            Evict(a, args, order).1 == None <==>
              || IsRevoked(a, args.slot) || args.version < Known(a, args.slot) || PastDeadline(view, args)
              || (view.synced.Some? && view.synced.value != args.limit)
              || (!Holds(a, args) && |Others(a, args)| >= args.limit && (!args.confirmed || Expiring(view, args)))
  {
    PresentKeeps(a, args.slot, args.version, args.validUntil, args.offset, false);
    OwnHeld(a, args);
    OthersCount(a, args);
  }

  lemma AdmitSweptVerdict(swept: Account, view: View, args: Args)
    ensures var limit := OnlineLimit(view, args);
            AdmitSwept(swept, view, args).1 ==
                if limit <= 0 || args.slot in swept.hash || |swept.hash| < limit then 1 else 0
    ensures AdmitSwept(swept, view, args).1 == 1 && OnlineLimit(view, args) > 0 ==>
              args.slot in AdmitSwept(swept, view, args).0.hash
  {
  }

  /** Verify answers what admit would answer, and admit registers whom it admits under a limit. */
  lemma VerifyAgrees(a: Account, args: Args)
    ensures Verify(a, args).1 == Admit(a, args).1
    ensures Admit(a, args).1 == 1 && OnlineLimit(Open(a, args).1, args) > 0 ==> args.slot in Admit(a, args).0.hash
  {
    var (ledger, view, authorized) := Open(a, args);
    AdmitSweptVerdict(Swept(ledger, args), view, args);
  }

  /** Admission is refused for want of room exactly when the slot is not live itself and other live devices
      fill the limit. */
  lemma FullMeansOthers(a: Account, args: Args)
    requires AccountInv(a)
    ensures Admit(a, args).1 == 0 <==>
              && Open(a, args).2 && OnlineLimit(Open(a, args).1, args) > 0
              && !Holds(a, args)
              && |Others(a, args)| >= OnlineLimit(Open(a, args).1, args)
  {
    OwnHeld(a, args);
    var (ledger, view, authorized) := Open(a, args);
    AdmitSweptVerdict(Swept(ledger, args), view, args);
    OthersCount(a, args);
  }

  lemma OthersCount(a: Account, args: Args)
    requires AccountInv(a)
    ensures var hash := Swept(Open(a, args).0, args).hash; args.slot !in hash ==> |hash| == |Others(a, args)|
  {
    SweptOthers(a, args);
    var hash := Swept(Open(a, args).0, args).hash;
    if args.slot !in hash {
      assert hash.Keys == hash.Keys - {args.slot};
      assert |hash| == |hash.Keys|;
    }
  }

  // ---------------------------------------------------------------- sync and cleanup

  /** A sync touches no other device, and takes its own slot exactly when it revokes it, brings a newer
      version, or detaches the last scope holding it. */
  lemma SyncTakesExactly(a: Account, sync: SyncArgs)
    requires AccountInv(a)
    ensures forall s :: s != sync.slot ==> (s in Sync(a, sync).hash <==> s in a.hash)
    ensures forall s :: s != sync.slot && s in a.hash ==> Sync(a, sync).hash[s] == a.hash[s]
    ensures sync.slot !in a.hash ==> sync.slot !in Sync(a, sync).hash
    ensures sync.slot in a.hash ==>
              (sync.slot !in Sync(a, sync).hash <==>
                 sync.revoke || sync.version > a.hash[sync.slot].v
                 || (sync.detached && a.hash[sync.slot].leases.Keys == {sync.scope}))
  {
    PresentKeeps(a, sync.slot, sync.version, sync.validUntil, sync.offset, sync.revoke);
    var next := Present(a, sync.slot, sync.version, sync.validUntil, sync.offset, sync.revoke).0;
    if sync.slot in next.hash && sync.scope in next.hash[sync.slot].leases {
      var leases := next.hash[sync.slot].leases;
      assert (leases - {sync.scope}).Keys == leases.Keys - {sync.scope};
      assert leases - {sync.scope} == map[] <==> (leases - {sync.scope}).Keys == {};
    }
  }

  /** A device's slot that is in the ledger before any step and gone after it. */
  predicate Loses(a: Account, step: Step, s: Slot) {
    s in a.hash && s !in Apply(a, step).hash
  }

  /** The only ways another device's live slot is lost in a slot script or a cleanup: a confirmed evict names it. */
  lemma OnlyEvictTakes(a: Account, step: Step, s: Slot)
    requires AccountInv(a) && Legal(a, step) && Loses(a, step, s)
    ensures match step
            case DoAdmit(args) => s != args.slot ==> !LiveTo(a, s, args)
            case DoVerify(args) => s != args.slot ==> !LiveTo(a, s, args)
            case DoEvict(args, order) =>
              s != args.slot && LiveTo(a, s, args) ==>
                args.confirmed && Evict(a, args, order).1.Some? && s in Evict(a, args, order).1.value
            case DoSync(sync) => s == sync.slot
            case DoCleanLedger(_, nowMs) => !Live(a, s, nowMs / 1000, nowMs)
            case _ => false
  {
    match step
    case DoAdmit(args) => if s in Others(a, args) { AdmitSpares(a, args, s); }
    case DoVerify(args) => if s in Others(a, args) { AdmitSpares(a, args, s); }
    case DoEvict(args, order) => EvictIsExact(a, args, order);
    case DoSync(sync) => SyncTakesExactly(a, sync);
    case DoCleanLedger(_, nowMs) => SweepIsLive(a.hash, a, s, nowMs / 1000, nowMs);
    case _ =>
  }

  /** The own live slot of a caller outlives every script that presents no version newer than it carries. */
  lemma OwnSlotStays(a: Account, args: Args, order: seq<Slot>)
    requires AccountInv(a) && Holds(a, args)
    ensures args.slot in Admit(a, args).0.hash && args.slot in Verify(a, args).0.hash
    ensures args.slot in Evict(a, args, order).0.hash
  {
    OwnHeld(a, args);
    var (ledger, view, _) := Open(a, args);
    assert args.slot in AdmitSwept(Swept(ledger, args), view, args).0.hash;
  }
}
