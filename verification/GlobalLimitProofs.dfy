/** What every script keeps of an account's ledger, over any interleaving of nodes and clocks. */
module GlobalLimitProofs {
  import opened Wrappers
  import opened GlobalLimit

  datatype Step =
    | DoAdmit(args: Args)
    | DoVerify(args: Args)
    | DoEvict(args: Args, order: seq<Slot>)
    | DoSync(sync: SyncArgs)
    | DoCleanKick(slot: Slot, expiry: int, nowMs: int)
    | DoCleanPolicy(slot: Slot, scope: Scope)
    | DoCleanLedger(expiry: int, nowMs: int)

  /** Callers ask to evict only under a positive limit; the sort order is any age order of the live slots. */
  ghost predicate Legal(a: Account, step: Step) {
    step.DoEvict? ==> step.args.limit > 0 && IsByAge(step.order, Swept(Open(a, step.args).0, step.args).hash)
  }

  function Apply(a: Account, step: Step): Account {
    match step
    case DoAdmit(args) => Admit(a, args).0
    case DoVerify(args) => Verify(a, args).0
    case DoEvict(args, order) => Evict(a, args, order).0
    case DoSync(sync) => Sync(a, sync)
    case DoCleanKick(slot, expiry, nowMs) => CleanKick(a, slot, expiry, nowMs)
    case DoCleanPolicy(slot, scope) => CleanPolicy(a, slot, scope)
    case DoCleanLedger(expiry, nowMs) => CleanLedger(a, expiry, nowMs)
  }

  /** No slot without a lease; a slot carries exactly the version its kick record holds; entries exist
      only under the panel clock. */
  ghost predicate AccountInv(a: Account) {
    && (forall s :: s in a.hash ==> a.hash[s].leases != map[])
    && (forall s :: s in a.hash && s in a.kicks ==> a.kicks[s].Version? && a.kicks[s].v == a.hash[s].v)
    && (a.hash != map[] ==> a.panelClock)
  }

  // ---------------------------------------------------------------- pieces of the scripts

  lemma PresentKeeps(a: Account, slot: Slot, version: nat, validUntil: int, offset: int, revoke: bool)
    requires AccountInv(a)
    ensures var (next, authorized) := Present(a, slot, version, validUntil, offset, revoke);
            && AccountInv(next) && slot in next.kicks && next.hash.Keys <= a.hash.Keys
            && next.policies == a.policies
            && (forall s :: s != slot ==> (s in next.hash <==> s in a.hash) && (s in next.kicks <==> s in a.kicks))
            && (forall s :: s != slot && s in a.hash ==> next.hash[s] == a.hash[s])
            && (forall s :: s != slot && s in a.kicks ==> next.kicks[s] == a.kicks[s])
            && (authorized ==> next.kicks[slot].Version? && next.kicks[slot].v == version)
            && (authorized <==> !revoke && !IsRevoked(a, slot) && version >= Known(a, slot))
            && (slot in next.hash ==> slot in a.hash && next.hash[slot] == a.hash[slot])
            && (slot in a.hash ==> (slot in next.hash <==> !revoke && version <= a.hash[slot].v))
  {
  }

  lemma SweepKeeps(a: Account, panelNow: int, cutoffMs: int)
    requires AccountInv(a)
    ensures AccountInv(a.(hash := Sweep(a.hash, panelNow, cutoffMs)))
    ensures Sweep(a.hash, panelNow, cutoffMs).Keys <= a.hash.Keys
  {
  }

  /** Under the invariant the clock step changes at most the flag: nothing is ever restarted. */
  lemma ClockIsIdle(a: Account, panelNow: int)
    requires AccountInv(a)
    ensures OnPanelClock(a, panelNow) == a.(panelClock := a.panelClock || a.hash != map[]) == a
  {
  }

  /** The slot's kick record holds exactly the version presented. */
  ghost predicate Presented(a: Account, args: Args) {
    args.slot in a.kicks && a.kicks[args.slot].Version? && a.kicks[args.slot].v == args.version
  }

  lemma OpenIs(a: Account, args: Args)
    requires AccountInv(a)
    ensures var (ledger, view, authorized) := Open(a, args);
            && AccountInv(ledger) && ledger.hash.Keys <= a.hash.Keys
            && ledger == Present(a, args.slot, args.version, args.validUntil, args.offset, false).0
            && (authorized ==> Presented(ledger, args))
  {
    PresentKeeps(a, args.slot, args.version, args.validUntil, args.offset, false);
    ClockIsIdle(Present(a, args.slot, args.version, args.validUntil, args.offset, false).0, args.panelNow);
  }

  lemma TouchKeeps(a: Account, args: Args, expires: int)
    requires AccountInv(a) && Presented(a, args)
    ensures AccountInv(Touch(a, args, expires))
    ensures Touch(a, args, expires).hash.Keys == a.hash.Keys + {args.slot}
    ensures forall s :: s in a.hash && s != args.slot ==> Touch(a, args, expires).hash[s] == a.hash[s]
  {
    assert args.scope in Touch(a, args, expires).hash[args.slot].leases;
  }

  /** The state an authorized script sweeps, and what it may touch there. */
  lemma SweptIs(ledger: Account, args: Args)
    requires AccountInv(ledger) && Presented(ledger, args)
    ensures AccountInv(Swept(ledger, args)) && Presented(Swept(ledger, args), args)
    ensures Swept(ledger, args).hash.Keys <= ledger.hash.Keys && |Swept(ledger, args).hash| <= |ledger.hash|
  {
    SweepKeeps(ledger, args.panelNow, args.nowMs + args.offset);
    SubsetSize(Swept(ledger, args).hash.Keys, ledger.hash.Keys);
  }

  // ---------------------------------------------------------------- evicting

  lemma {:induction false} WithoutIs(order: seq<Slot>, slot: Slot)
    requires forall i, j :: 0 <= i < j < |order| ==> order[i] != order[j]
    ensures var rest := Without(order, slot);
            && |rest| == |order| - (if slot in order then 1 else 0)
            && (forall s :: s in rest <==> s in order && s != slot)
            && (forall i, j :: 0 <= i < j < |rest| ==> rest[i] != rest[j])
  {
    if order != [] && order[0] != slot {
      var rest := Without(order[1..], slot);
      WithoutIs(order[1..], slot);
      assert order == [order[0]] + order[1..];
      assert order[0] !in order[1..];
      assert forall i :: 0 <= i < |rest| ==> rest[i] in rest && rest[i] in order[1..];
    }
  }

  lemma OrderSize(order: seq<Slot>, hash: Ledger)
    requires IsByAge(order, hash)
    ensures |order| == |hash|
  {
    DistinctCount(order);
    assert (set x | x in order) == hash.Keys;
  }

  ghost predicate Distinct(s: seq<Slot>) {
    forall i, j :: 0 <= i < j < |s| ==> s[i] != s[j]
  }

  /** The part of an age order that an evict chooses its oldest from. */
  function Remaining(hash: Ledger, args: Args, order: seq<Slot>): seq<Slot> {
    if args.target != "" && args.target != args.slot && args.target in hash then Without(order, args.target) else order
  }

  lemma RemainingIs(hash: Ledger, args: Args, order: seq<Slot>)
    requires IsByAge(order, hash) && args.limit > 0 && |hash| >= args.limit
    ensures var rest, count := Remaining(hash, args, order), |Remaining(hash, args, order)| - args.limit + 1;
            && Distinct(rest) && 0 <= count <= |rest|
            && (forall s :: s in rest ==> s in hash)
            && Victims(hash, args, order) ==
               (if args.target != "" && args.target != args.slot && args.target in hash then [args.target] else []) +
                 rest[..count]
            && (args.target != "" && args.target != args.slot && args.target in hash ==>
                  args.target !in rest && |rest| == |hash| - 1)
            && (!(args.target != "" && args.target != args.slot && args.target in hash) ==> |rest| == |hash|)
  {
    OrderSize(order, hash);
    WithoutIs(order, args.target);
  }

  lemma RemoveSize(hash: Ledger, victims: seq<Slot>)
    requires Distinct(victims) && forall v :: v in victims ==> v in hash
    ensures |RemoveSlots(hash, victims)| == |hash| - |victims|
  {
    DistinctCount(victims);
    var gone := set v | v in victims;
    assert RemoveSlots(hash, victims).Keys == hash.Keys - gone;
    assert hash.Keys == (hash.Keys - gone) + gone;
  }

  /** An evict on a full account removes exactly as many slots as bring it one below the limit, the chosen
      target first, all of them live. */
  lemma VictimsAre(hash: Ledger, args: Args, order: seq<Slot>)
    requires IsByAge(order, hash) && args.limit > 0 && |hash| >= args.limit && args.slot !in hash
    ensures var victims := Victims(hash, args, order);
            && Distinct(victims) && (forall v :: v in victims ==> v in hash)
            && |victims| == |hash| - args.limit + 1
            && (args.target != "" && args.target in hash ==> victims[0] == args.target)
            && |RemoveSlots(hash, victims)| == args.limit - 1
  {
    RemainingIs(hash, args, order);
    RemoveSize(hash, Victims(hash, args, order));
  }

  lemma EvictedIs(swept: Account, args: Args, order: seq<Slot>)
    requires AccountInv(swept) && IsByAge(order, swept.hash) && args.limit > 0
    requires |swept.hash| >= args.limit && args.slot !in swept.hash
    ensures var left := swept.(hash := RemoveSlots(swept.hash, Victims(swept.hash, args, order)));
            AccountInv(left) && |left.hash| == args.limit - 1 && left.hash.Keys <= swept.hash.Keys
  {
    VictimsAre(swept.hash, args, order);
  }

  // ---------------------------------------------------------------- every script keeps the ledger sound

  lemma AdmitSweptKeeps(swept: Account, view: View, args: Args)
    requires AccountInv(swept) && Presented(swept, args)
    ensures var (after, _) := AdmitSwept(swept, view, args);
            AccountInv(after) && |after.hash| <= Max(|swept.hash|, OnlineLimit(view, args))
  {
    var touched := Touch(swept, args, ScopeExpiry(view, args));
    TouchKeeps(swept, args, ScopeExpiry(view, args));
    TouchSize(swept, args, ScopeExpiry(view, args));
    assert AdmitSwept(swept, view, args).0 in {swept, touched};
  }

  lemma AdmitKeeps(a: Account, args: Args)
    requires AccountInv(a)
    ensures AccountInv(Admit(a, args).0)
    ensures |Admit(a, args).0.hash| <= Max(|a.hash|, OnlineLimit(Open(a, args).1, args))
  {
    var (ledger, view, authorized) := Open(a, args);
    OpenIs(a, args);
    SubsetSize(ledger.hash.Keys, a.hash.Keys);
    if authorized {
      SweptIs(ledger, args);
      AdmitSweptKeeps(Swept(ledger, args), view, args);
    }
  }

  lemma TouchSize(a: Account, args: Args, expires: int)
    ensures |Touch(a, args, expires).hash| == if args.slot in a.hash then |a.hash| else |a.hash| + 1
  {
    assert Touch(a, args, expires).hash.Keys == a.hash.Keys + {args.slot};
    assert args.slot in a.hash ==> a.hash.Keys + {args.slot} == a.hash.Keys;
  }

  lemma VerifyKeeps(a: Account, args: Args)
    requires AccountInv(a)
    ensures AccountInv(Verify(a, args).0)
    ensures Verify(a, args).0.hash.Keys <= a.hash.Keys
  {
    OpenIs(a, args);
    if Open(a, args).2 {
      SweptIs(Open(a, args).0, args);
    }
  }

  lemma EvictSweptKeeps(swept: Account, view: View, args: Args, order: seq<Slot>)
    requires AccountInv(swept) && Presented(swept, args) && IsByAge(order, swept.hash) && args.limit > 0
    ensures var (after, _) := EvictSwept(swept, view, args, order);
            AccountInv(after) && |after.hash| <= Max(|swept.hash|, args.limit)
  {
    var expires := ScopeExpiry(view, args);
    if args.slot in swept.hash || |swept.hash| < args.limit {
      TouchKeeps(swept, args, expires);
      TouchSize(swept, args, expires);
    } else if args.confirmed && !Expiring(view, args) {
      EvictedIs(swept, args, order);
      var left := swept.(hash := RemoveSlots(swept.hash, Victims(swept.hash, args, order)));
      TouchKeeps(left, args, expires);
      TouchSize(left, args, expires);
    }
  }

  lemma EvictKeeps(a: Account, args: Args, order: seq<Slot>)
    requires AccountInv(a) && Legal(a, DoEvict(args, order))
    ensures AccountInv(Evict(a, args, order).0)
    ensures |Evict(a, args, order).0.hash| <= Max(|a.hash|, args.limit)
  {
    var (ledger, view, authorized) := Open(a, args);
    OpenIs(a, args);
    SubsetSize(ledger.hash.Keys, a.hash.Keys);
    if authorized {
      SweptIs(ledger, args);
      EvictSweptKeeps(Swept(ledger, args), view, args, order);
    }
  }

  lemma SyncKeeps(a: Account, sync: SyncArgs)
    requires AccountInv(a)
    ensures AccountInv(Sync(a, sync))
    ensures Sync(a, sync).hash.Keys <= a.hash.Keys
    ensures forall s :: s != sync.slot && s in a.hash ==> s in Sync(a, sync).hash && Sync(a, sync).hash[s] == a.hash[s]
  {
    PresentKeeps(a, sync.slot, sync.version, sync.validUntil, sync.offset, sync.revoke);
  }

  lemma CleanKeeps(a: Account, step: Step)
    requires AccountInv(a) && (step.DoCleanKick? || step.DoCleanPolicy? || step.DoCleanLedger?)
    ensures AccountInv(Apply(a, step)) && Apply(a, step).hash.Keys <= a.hash.Keys
  {
    if step.DoCleanLedger? {
      SweepKeeps(a, step.nowMs / 1000, step.nowMs);
    }
  }

  /** The limit a step may fill the ledger up to: admission goes by the larger of caller's and synced
      limit, eviction by the caller's; the other scripts register nothing. */
  function EffectiveLimit(a: Account, step: Step): int {
    match step
    case DoAdmit(args) => OnlineLimit(Open(a, args).1, args)
    case DoEvict(args, _) => args.limit
    case _ => 0
  }

  /** Each script leaves at most max(what was there, the effective limit) slots. */
  lemma StepKeeps(a: Account, step: Step)
    requires AccountInv(a) && Legal(a, step)
    ensures AccountInv(Apply(a, step))
    ensures |Apply(a, step).hash| <= Max(|a.hash|, EffectiveLimit(a, step))
  {
    match step
    case DoAdmit(args) => AdmitKeeps(a, args);
    case DoVerify(args) =>
      VerifyKeeps(a, args);
      SubsetSize(Apply(a, step).hash.Keys, a.hash.Keys);
    case DoEvict(args, order) => EvictKeeps(a, args, order);
    case DoSync(sync) =>
      SyncKeeps(a, sync);
      SubsetSize(Apply(a, step).hash.Keys, a.hash.Keys);
    case _ =>
      CleanKeeps(a, step);
      SubsetSize(Apply(a, step).hash.Keys, a.hash.Keys);
  }

  // ---------------------------------------------------------------- the bound over whole runs

  /** Every limit stored in the account is at most `bound`. */
  ghost predicate LimitsAtMost(a: Account, bound: int) {
    && (forall k :: k in a.policies ==> a.policies[k].limit <= bound)
    && (forall s, o :: s in a.hash && o in a.hash[s].leases ==> a.hash[s].leases[o].limit <= bound)
  }

  ghost predicate StepAtMost(step: Step, bound: int) {
    && (step.DoAdmit? || step.DoVerify? || step.DoEvict? ==> step.args.limit <= bound)
    && (step.DoSync? ==> step.sync.policy.limit <= bound)
  }

  lemma PresentAtMost(a: Account, slot: Slot, version: nat, validUntil: int, offset: int, revoke: bool, bound: int)
    requires AccountInv(a) && LimitsAtMost(a, bound)
    ensures LimitsAtMost(Present(a, slot, version, validUntil, offset, revoke).0, bound)
  {
    PresentKeeps(a, slot, version, validUntil, offset, revoke);
    var next := Present(a, slot, version, validUntil, offset, revoke).0;
    assert forall s :: s in next.hash ==> s in a.hash && next.hash[s] == a.hash[s];
  }

  lemma OpenAtMost(a: Account, args: Args, bound: int)
    requires AccountInv(a) && LimitsAtMost(a, bound) && args.limit <= bound && bound >= 0
    ensures LimitsAtMost(Open(a, args).0, bound)
    ensures OnlineLimit(Open(a, args).1, args) <= bound
  {
    OpenIs(a, args);
    PresentAtMost(a, args.slot, args.version, args.validUntil, args.offset, false, bound);
  }

  lemma SweptAtMost(ledger: Account, args: Args, bound: int)
    requires LimitsAtMost(ledger, bound)
    ensures LimitsAtMost(Swept(ledger, args), bound)
  {
  }

  lemma TouchAtMost(a: Account, args: Args, expires: int, bound: int)
    requires LimitsAtMost(a, bound) && args.limit <= bound
    ensures LimitsAtMost(Touch(a, args, expires), bound)
  {
  }

  lemma AdmitAtMost(a: Account, args: Args, bound: int)
    requires AccountInv(a) && LimitsAtMost(a, bound) && args.limit <= bound && bound >= 0
    ensures LimitsAtMost(Admit(a, args).0, bound)
    ensures LimitsAtMost(Verify(a, args).0, bound)
  {
    OpenAtMost(a, args, bound);
    var (ledger, view, _) := Open(a, args);
    SweptAtMost(ledger, args, bound);
    TouchAtMost(Swept(ledger, args), args, ScopeExpiry(view, args), bound);
  }

  lemma EvictAtMost(a: Account, args: Args, order: seq<Slot>, bound: int)
    requires AccountInv(a) && LimitsAtMost(a, bound) && args.limit <= bound && bound >= 0
    ensures LimitsAtMost(Evict(a, args, order).0, bound)
  {
    OpenAtMost(a, args, bound);
    var (ledger, view, _) := Open(a, args);
    SweptAtMost(ledger, args, bound);
    var swept := Swept(ledger, args);
    TouchAtMost(swept, args, ScopeExpiry(view, args), bound);
    TouchAtMost(swept.(hash := RemoveSlots(swept.hash, Victims(swept.hash, args, order))), args,
                ScopeExpiry(view, args), bound);
  }

  lemma SyncAtMost(a: Account, sync: SyncArgs, bound: int)
    requires AccountInv(a) && LimitsAtMost(a, bound) && sync.policy.limit <= bound
    ensures LimitsAtMost(Sync(a, sync), bound)
  {
    PresentAtMost(a, sync.slot, sync.version, sync.validUntil, sync.offset, sync.revoke, bound);
  }

  lemma StepLimits(a: Account, step: Step, bound: int)
    requires AccountInv(a) && LimitsAtMost(a, bound) && StepAtMost(step, bound) && bound >= 0
    ensures LimitsAtMost(Apply(a, step), bound) && EffectiveLimit(a, step) <= bound
  {
    match step
    case DoAdmit(args) =>
      AdmitAtMost(a, args, bound);
      OpenAtMost(a, args, bound);
    case DoVerify(args) => AdmitAtMost(a, args, bound);
    case DoEvict(args, order) => EvictAtMost(a, args, order, bound);
    case DoSync(sync) => SyncAtMost(a, sync, bound);
    case _ =>
  }

  ghost predicate Run(accounts: seq<Account>, steps: seq<Step>) {
    && |accounts| == |steps| + 1
    && forall i :: 0 <= i < |steps| ==> Legal(accounts[i], steps[i]) && accounts[i + 1] == Apply(accounts[i], steps[i])
  }

  ghost predicate Bounded(a: Account, bound: int) {
    AccountInv(a) && LimitsAtMost(a, bound) && |a.hash| <= bound
  }

  lemma StepBounded(a: Account, step: Step, bound: int)
    requires Bounded(a, bound) && Legal(a, step) && StepAtMost(step, bound)
    ensures Bounded(Apply(a, step), bound)
  {
    StepKeeps(a, step);
    StepLimits(a, step, bound);
  }

  /** If every limit anybody uses is at most `bound`, an account that starts empty never holds more than
      `bound` slots, whatever nodes and clocks do. */
  lemma NeverMoreThanTheLimit(accounts: seq<Account>, steps: seq<Step>, bound: int, j: nat)
    requires Run(accounts, steps) && accounts[0] == EMPTY_ACCOUNT && bound >= 0 && j <= |steps|
    requires forall step :: step in steps ==> StepAtMost(step, bound)
    ensures Bounded(accounts[j], bound)
  {
    EmptyIsBounded(bound);
    StaysBounded(accounts, steps, bound, j);
  }

  lemma {:induction false} StaysBounded(accounts: seq<Account>, steps: seq<Step>, bound: int, j: nat)
    requires Run(accounts, steps) && Bounded(accounts[0], bound) && j <= |steps|
    requires forall step :: step in steps ==> StepAtMost(step, bound)
    ensures Bounded(accounts[j], bound)
  {
    if j > 0 {
      StaysBounded(accounts, steps, bound, j - 1);
      RunStep(accounts, steps, j - 1);
      StepBounded(accounts[j - 1], steps[j - 1], bound);
    }
  }

  lemma EmptyIsBounded(bound: int)
    requires bound >= 0
    ensures Bounded(EMPTY_ACCOUNT, bound)
  {
  }

  lemma RunStep(accounts: seq<Account>, steps: seq<Step>, i: nat)
    requires Run(accounts, steps) && i < |steps|
    ensures Legal(accounts[i], steps[i]) && accounts[i + 1] == Apply(accounts[i], steps[i]) && steps[i] in steps
  {
  }
}
