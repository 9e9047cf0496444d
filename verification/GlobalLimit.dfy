/** The cross-node device ledger of one account in Redis: what each script computes. Every script runs
    atomically; nodes call them in any order with clocks of their own. */
module GlobalLimit {
  import opened Wrappers

  type Slot = string
  type Scope = string

  /** One node's claim on a slot: when it was last active (panel seconds), when the authorization ends
      (milliseconds, 0 for never), its idle allowance and the limit it was granted under. */
  datatype Lease = Lease(seen: int, expires: int, idle: int, limit: int)

  datatype Entry = Entry(v: nat, leases: map<Scope, Lease>)

  /** The kick record of a slot: the newest version presented, or revoked; and until when it is kept. */
  datatype Kick = Revoked(retained: int) | Version(v: nat, retained: int)

  datatype Policy = Policy(limit: int, until: int)

  type Ledger = map<Slot, Entry>

  datatype Account = Account(hash: Ledger, kicks: map<Slot, Kick>, policies: map<(Slot, Scope), Policy>,
                             panelClock: bool)

  const EMPTY_ACCOUNT: Account := Account(map[], map[], map[], false)

  /** The arguments of the admit, verify and evict scripts. Times in seconds unless they say Ms. */
  datatype Args = Args(now: int, expiry: int, slot: Slot, limit: int, touch: int, target: Slot, version: nat,
                       validUntil: int, confirmed: bool, nowMs: int, timeoutMs: int, scope: Scope,
                       panelNow: int, offset: int)

  function Max(a: int, b: int): int { if a >= b then a else b }

  function Min(a: int, b: int): int { if a <= b then a else b }

  // ---------------------------------------------------------------- kick versions

  function RetainUntil(validUntil: int, offset: int): int {
    if validUntil == 0 then 0 else validUntil * 1000 + offset
  }

  function KeepLonger(retained: int, stored: int): int {
    if stored == 0 || retained == 0 then 0 else Max(retained, stored)
  }

  /** The newest version known of a slot, from its kick record or its entry. */
  function Known(a: Account, slot: Slot): nat {
    var recorded := if slot in a.kicks && a.kicks[slot].Version? then a.kicks[slot].v else 0;
    if slot in a.hash && a.hash[slot].v > recorded then a.hash[slot].v else recorded
  }

  predicate IsRevoked(a: Account, slot: Slot) {
    slot in a.kicks && a.kicks[slot].Revoked?
  }

  /** `kickPrelude`: note the version presented; drop a slot that is revoked or superseded by it. */
  function Present(a: Account, slot: Slot, version: nat, validUntil: int, offset: int, revoke: bool): (Account, bool) {
    var asked := RetainUntil(validUntil, offset);
    var retained := if slot in a.kicks then KeepLonger(asked, a.kicks[slot].retained) else asked;
    if revoke || IsRevoked(a, slot) then
      (a.(kicks := a.kicks[slot := Revoked(retained)], hash := if revoke then a.hash - {slot} else a.hash), false)
    else
      var previous := Known(a, slot);
      var newer := version > previous;
      var next := a.(kicks := a.kicks[slot := Version(if newer then version else previous, retained)]);
      (if newer && (slot in a.kicks || slot in a.hash) then next.(hash := a.hash - {slot}) else next,
       version >= previous)
  }

  // ---------------------------------------------------------------- clock, policy

  /** `ledgerPrelude`: entries from before the panel clock restart at the panel's now. */
  function OnPanelClock(a: Account, panelNow: int): Account {
    var hash := if a.panelClock then a.hash else Restarted(a.hash, panelNow);
    a.(hash := hash, panelClock := a.panelClock || a.hash != map[])
  }

  function RestartedEntry(e: Entry, panelNow: int): Entry {
    Entry(e.v, map o | o in e.leases :: e.leases[o].(seen := panelNow))
  }

  function Restarted(hash: Ledger, panelNow: int): Ledger {
    map s | s in hash :: RestartedEntry(hash[s], panelNow)
  }

  /** The limit a node was last synced to for this slot, and the end of the authorization in milliseconds. */
  datatype View = View(synced: Option<int>, deadlineMs: int)

  /** `policyPrelude`: the synced policy, else the slot's own lease, else the caller's word. */
  function Seen(a: Account, args: Args): View {
    if (args.slot, args.scope) in a.policies then
      var p := a.policies[(args.slot, args.scope)];
      View(Some(p.limit), p.until * 1000)
    else if args.slot in a.hash && args.scope in a.hash[args.slot].leases then
      var lease := a.hash[args.slot].leases[args.scope];
      View(Some(lease.limit), if lease.expires == 0 then 0 else lease.expires - args.offset)
    else View(None, args.validUntil * 1000)
  }

  predicate PastDeadline(view: View, args: Args) {
    view.deadlineMs != 0 && view.deadlineMs <= args.now * 1000
  }

  predicate Expiring(view: View, args: Args) {
    view.deadlineMs != 0 && view.deadlineMs <= args.nowMs + args.timeoutMs
  }

  function ScopeExpiry(view: View, args: Args): int {
    if view.deadlineMs == 0 then 0 else view.deadlineMs + args.offset
  }

  /** `onlineLimit`: the larger of the caller's and the synced limit; 0 or less means unlimited. */
  function OnlineLimit(view: View, args: Args): int {
    match view.synced
    case None => args.limit
    case Some(synced) => if synced <= 0 then 0 else Max(args.limit, synced)
  }

  // ---------------------------------------------------------------- sweep, touch

  predicate Stale(lease: Lease, panelNow: int, cutoffMs: int) {
    panelNow - lease.seen > lease.idle || (lease.expires != 0 && lease.expires <= cutoffMs)
  }

  function Fresh(e: Entry, panelNow: int, cutoffMs: int): Entry {
    Entry(e.v, map o | o in e.leases && !Stale(e.leases[o], panelNow, cutoffMs) :: e.leases[o])
  }

  /** `sweepPrelude`: stale leases go, and with its last lease a slot. */
  function Sweep(hash: Ledger, panelNow: int, cutoffMs: int): Ledger {
    map s | s in hash && Fresh(hash[s], panelNow, cutoffMs).leases != map[] :: Fresh(hash[s], panelNow, cutoffMs)
  }

  predicate IsLastSeen(t: int, e: Entry) {
    (exists o :: o in e.leases && e.leases[o].seen == t) && forall o :: o in e.leases ==> e.leases[o].seen <= t
  }

  /** `touchSlot`: register or renew the caller's lease on its slot. */
  function Touch(a: Account, args: Args, scopeExpiry: int): Account {
    var leases := if args.slot in a.hash then a.hash[args.slot].leases else map[];
    var lease := Lease(args.panelNow, scopeExpiry, args.expiry, args.limit);
    a.(hash := a.hash[args.slot := Entry(args.version, leases[args.scope := lease])], panelClock := true)
  }

  // ---------------------------------------------------------------- the scripts

  /** What the three slot scripts share: present the version, then read clock and policy. */
  function Open(a: Account, args: Args): (Account, View, bool) {
    var (presented, current) := Present(a, args.slot, args.version, args.validUntil, args.offset, false);
    var ledger := OnPanelClock(presented, args.panelNow);
    var view := Seen(ledger, args);
    (ledger, view, current && !PastDeadline(view, args))
  }

  function Swept(a: Account, args: Args): Account {
    a.(hash := Sweep(a.hash, args.panelNow, args.nowMs + args.offset))
  }

  function TouchAfter(args: Args): int {
    Min(args.touch, Max(1, args.expiry / 2))
  }

  /** Does a slot that is already online need its lease renewed? */
  predicate NeedsTouch(a: Account, args: Args, scopeExpiry: int)
    requires args.slot in a.hash
  {
    var leases := a.hash[args.slot].leases;
    || args.scope !in leases
    || leases[args.scope].expires != scopeExpiry
    || args.panelNow - leases[args.scope].seen >= TouchAfter(args)
  }

  /** `admitScript` once authorized and swept: 1 admitted, 0 full. */
  function AdmitSwept(swept: Account, view: View, args: Args): (Account, int) {
    var limit, expires := OnlineLimit(view, args), ScopeExpiry(view, args);
    if limit <= 0 then (swept, 1)
    else if args.slot in swept.hash then
      (if NeedsTouch(swept, args, expires) then Touch(swept, args, expires) else swept, 1)
    else if |swept.hash| < limit then (Touch(swept, args, expires), 1)
    else (swept, 0)
  }

  /** `admitScript`: -1 not authorized. */
  function Admit(a: Account, args: Args): (Account, int) {
    var (ledger, view, authorized) := Open(a, args);
    if !authorized then (ledger, -1) else AdmitSwept(Swept(ledger, args), view, args)
  }

  /** `verifyScript`: like admit, but registering nothing. */
  function Verify(a: Account, args: Args): (Account, int) {
    var (ledger, view, authorized) := Open(a, args);
    if !authorized then (ledger, -1)
    else
      var swept := Swept(ledger, args);
      var limit := OnlineLimit(view, args);
      (swept, if limit <= 0 || args.slot in swept.hash || |swept.hash| < limit then 1 else 0)
  }

  /** A listing of the live slots from the longest to the least inactive, as `table.sort` leaves it:
      which of equally old slots comes first is not fixed. */
  ghost predicate IsByAge(order: seq<Slot>, hash: Ledger) {
    && (forall s :: s in order <==> s in hash)
    && (forall i, j :: 0 <= i < j < |order| ==> order[i] != order[j])
    && (forall i, j, t, u :: 0 <= i < j < |order| && IsLastSeen(t, hash[order[i]]) && IsLastSeen(u, hash[order[j]]) ==>
          t <= u)
  }

  function Without(order: seq<Slot>, slot: Slot): seq<Slot> {
    if order == [] then []
    else if order[0] == slot then order[1..]
    else [order[0]] + Without(order[1..], slot)
  }

  /** The victims of an evict on a full account: the chosen target if it is online, then the oldest. */
  function Victims(hash: Ledger, args: Args, order: seq<Slot>): seq<Slot> {
    var chosen := args.target != "" && args.target != args.slot && args.target in hash;
    var rest := if chosen then Without(order, args.target) else order;
    var count := |rest| - args.limit + 1;
    (if chosen then [args.target] else []) + (if 0 <= count <= |rest| then rest[..count] else [])
  }

  function RemoveSlots(hash: Ledger, victims: seq<Slot>): Ledger {
    hash - set s | s in victims
  }

  /** `evictScript` once authorized and swept. */
  function EvictSwept(swept: Account, view: View, args: Args, order: seq<Slot>): (Account, Option<seq<Slot>>) {
    var expires := ScopeExpiry(view, args);
    if args.slot in swept.hash || |swept.hash| < args.limit then (Touch(swept, args, expires), Some([]))
    else if !args.confirmed || Expiring(view, args) then (swept, None)
    else
      var victims := Victims(swept.hash, args, order);
      (Touch(swept.(hash := RemoveSlots(swept.hash, victims)), args, expires), Some(victims))
  }

  /** `evictScript`: None when refused, else who was evicted. `order` is the age order it sorted. */
  function Evict(a: Account, args: Args, order: seq<Slot>): (Account, Option<seq<Slot>>) {
    var (ledger, view, authorized) := Open(a, args);
    if !authorized || (view.synced.Some? && view.synced.value != args.limit) then (ledger, None)
    else EvictSwept(Swept(ledger, args), view, args, order)
  }

  /** One user of a sync: the merged authorization end, the policy to store, and whether this scope lost the device. */
  datatype SyncArgs = SyncArgs(slot: Slot, version: nat, validUntil: int, revoke: bool, policy: Policy,
                               detached: bool, scope: Scope, offset: int)

  /** `syncKickScript`, for one user. */
  function Sync(a: Account, args: SyncArgs): Account {
    var (next, authorized) := Present(a, args.slot, args.version, args.validUntil, args.offset, args.revoke);
    var hash :=
      if args.slot !in next.hash || args.scope !in next.hash[args.slot].leases then next.hash
      else
        var e := next.hash[args.slot];
        var leases :=
          if args.detached then e.leases - {args.scope}
          else if authorized then
            e.leases[args.scope := e.leases[args.scope].(expires := RetainUntil(args.policy.until, args.offset),
                                                         limit := args.policy.limit)]
          else e.leases;
        if leases == map[] then next.hash - {args.slot} else next.hash[args.slot := Entry(e.v, leases)];
    var key := (args.slot, args.scope);
    next.(hash := hash,
          policies := if args.detached then next.policies - {key}
                      else if authorized then next.policies[key := args.policy]
                      else next.policies)
  }

  /** `cleanupScript` on a kick record, on a policy, and on the ledger. */
  function CleanKick(a: Account, slot: Slot, expiry: int, nowMs: int): Account {
    if slot in a.kicks && a.kicks[slot].retained > 0 && a.kicks[slot].retained + expiry * 1000 <= nowMs then
      a.(kicks := a.kicks - {slot})
    else a
  }

  function CleanPolicy(a: Account, slot: Slot, scope: Scope): Account {
    if slot !in a.kicks then a.(policies := a.policies - {(slot, scope)}) else a
  }

  /** What the cleanup passes to the sweep: panel time for every clock. */
  function CleanupArgs(expiry: int, nowMs: int): Args {
    Args(nowMs / 1000, expiry, "", 0, 0, "", 0, 0, false, nowMs, 0, "", nowMs / 1000, 0)
  }

  function CleanLedger(a: Account, expiry: int, nowMs: int): Account {
    if !a.panelClock then a
    else
      var swept := Swept(a, CleanupArgs(expiry, nowMs));
      swept.(panelClock := swept.hash != map[])
  }
}
