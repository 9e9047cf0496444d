/** What the slot scripts do to leases, policies and kick records, read off the account before and after a script:
    which limit and deadline a caller goes by, when a lease is renewed, and when one goes. */
module GlobalLeases {
  import opened Wrappers
  import opened GlobalLimit
  import opened GlobalLimitProofs
  import opened GlobalEviction

  // ---------------------------------------------------------------- limit and deadline

  /** The caller may admit up to the larger of the two limits; a synced limit of 0 or less lifts them. */
  function Larger(asked: int, synced: int): int {
    if synced <= 0 then 0 else if asked > synced then asked else synced
  }

  /** The lease of the calling scope on its slot, unless the version presented takes the slot away. */
  predicate HasLease(a: Account, args: Args) {
    args.slot in a.hash && args.version <= a.hash[args.slot].v && args.scope in a.hash[args.slot].leases
  }

  /** The limit and the end of the authorization a caller goes by: those last synced for its slot and scope; else those
      of its own lease; else its own word. The end is in milliseconds, 0 for never. */
  predicate GoesBy(a: Account, args: Args, limit: int, deadlineMs: int) {
    if (args.slot, args.scope) in a.policies then
      var policy := a.policies[(args.slot, args.scope)];
      limit == Larger(args.limit, policy.limit) && deadlineMs == policy.until * 1000
    else if HasLease(a, args) then
      var lease := a.hash[args.slot].leases[args.scope];
      && limit == Larger(args.limit, lease.limit)
      && deadlineMs == if lease.expires == 0 then 0 else lease.expires - args.offset
    else limit == args.limit && deadlineMs == args.validUntil * 1000
  }

  lemma OpenGoesBy(a: Account, args: Args)
    requires AccountInv(a)
    ensures var view := Open(a, args).1; GoesBy(a, args, OnlineLimit(view, args), view.deadlineMs)
  {
    OpenIs(a, args);
    PresentKeeps(a, args.slot, args.version, args.validUntil, args.offset, false);
  }

  /** A revocation, or a version newer than the one presented, stands in the ledger. */
  predicate Outdated(a: Account, slot: Slot, version: nat) {
    || (slot in a.kicks && (a.kicks[slot].Revoked? || a.kicks[slot].v > version))
    || (slot in a.hash && a.hash[slot].v > version)
  }

  predicate Over(deadlineMs: int, args: Args) {
    deadlineMs != 0 && deadlineMs <= args.now * 1000
  }

  lemma OpenAuthorizes(a: Account, args: Args)
    requires AccountInv(a)
    ensures var (_, view, authorized) := Open(a, args);
            authorized <==> !Outdated(a, args.slot, args.version) && !Over(view.deadlineMs, args)
  {
    OpenIs(a, args);
    PresentKeeps(a, args.slot, args.version, args.validUntil, args.offset, false);
  }

  // ---------------------------------------------------------------- leases and the sweep

  /** Active within its idle allowance, and not past the end of its authorization. */
  predicate InUse(lease: Lease, panelNow: int, cutoffMs: int) {
    panelNow - lease.seen <= lease.idle && (lease.expires == 0 || cutoffMs < lease.expires)
  }

  predicate Leased(hash: Ledger, s: Slot, o: Scope) {
    s in hash && o in hash[s].leases
  }

  /** A sweep takes exactly the leases idle beyond their allowance or past their authorization, and with its last
      lease a slot; what stays is as it was. */
  lemma SweepExactly(hash: Ledger, panelNow: int, cutoffMs: int, s: Slot, o: Scope)
    ensures var swept := Sweep(hash, panelNow, cutoffMs);
            && (Leased(swept, s, o) <==> Leased(hash, s, o) && InUse(hash[s].leases[o], panelNow, cutoffMs))
            && (Leased(swept, s, o) ==> swept[s].leases[o] == hash[s].leases[o])
            && (s in swept ==> s in hash && swept[s].v == hash[s].v && swept[s].leases != map[])
  {
    if Leased(hash, s, o) && InUse(hash[s].leases[o], panelNow, cutoffMs) {
      assert o in Fresh(hash[s], panelNow, cutoffMs).leases;
    }
  }

  /** A slot is live exactly while one of its leases is in use. */
  lemma LiveMeans(a: Account, s: Slot, panelNow: int, cutoffMs: int)
    ensures Live(a, s, panelNow, cutoffMs) <==>
              exists o :: Leased(a.hash, s, o) && InUse(a.hash[s].leases[o], panelNow, cutoffMs)
  {
    if o :| Leased(a.hash, s, o) && InUse(a.hash[s].leases[o], panelNow, cutoffMs) {
      assert o in a.hash[s].leases && !Stale(a.hash[s].leases[o], panelNow, cutoffMs);
    } else if Live(a, s, panelNow, cutoffMs) {
      var o :| o in a.hash[s].leases && !Stale(a.hash[s].leases[o], panelNow, cutoffMs);
      assert Leased(a.hash, s, o) && InUse(a.hash[s].leases[o], panelNow, cutoffMs);
    }
  }

  // ---------------------------------------------------------------- admission renews

  /** When the authorization in force ends on the ledger's clock. */
  function EndOf(deadlineMs: int, args: Args): int {
    if deadlineMs == 0 then 0 else deadlineMs + args.offset
  }

  /** How long a lease may go without renewal: at most `touch` seconds and half the idle allowance, but a second. */
  function RenewAfter(args: Args): int {
    var half := if args.expiry < 4 then 1 else args.expiry / 2;
    if args.touch < half then args.touch else half
  }

  /** The calling scope's lease after a touch. */
  predicate Touched(lease: Lease, deadlineMs: int, args: Args) {
    && lease.seen == args.panelNow && lease.idle == args.expiry && lease.limit == args.limit
    && lease.expires == EndOf(deadlineMs, args)
  }

  lemma TouchIs(a: Account, args: Args, expires: int)
    ensures var next := Touch(a, args, expires);
            && Leased(next.hash, args.slot, args.scope) && next.hash[args.slot].v == args.version && next.panelClock
            && next.hash[args.slot].leases[args.scope] == Lease(args.panelNow, expires, args.expiry, args.limit)
            && (forall s :: s != args.slot ==>
                  && (s in next.hash <==> s in a.hash) && (s in next.hash ==> next.hash[s] == a.hash[s]))
            && (forall o :: o != args.scope ==>
                  && (Leased(next.hash, args.slot, o) <==> Leased(a.hash, args.slot, o))
                  && (Leased(next.hash, args.slot, o) ==>
                        next.hash[args.slot].leases[o] == a.hash[args.slot].leases[o]))
            && next.kicks == a.kicks && next.policies == a.policies
  {
  }

  /** An admission either registers the caller now, or finds its lease in use, younger than it may go without renewal
      and with the right end. */
  lemma AdmitSweptRenews(swept: Account, view: View, args: Args)
    requires AdmitSwept(swept, view, args).1 == 1 && OnlineLimit(view, args) > 0
    ensures var hash := AdmitSwept(swept, view, args).0.hash;
            && Leased(hash, args.slot, args.scope)
            && var lease := hash[args.slot].leases[args.scope];
               || Touched(lease, view.deadlineMs, args)
               || (&& Leased(swept.hash, args.slot, args.scope) && lease == swept.hash[args.slot].leases[args.scope]
                   && lease.expires == EndOf(view.deadlineMs, args)
                   && args.panelNow - lease.seen < RenewAfter(args))
  {
    TouchIs(swept, args, ScopeExpiry(view, args));
  }

  /** Whom an admission lets in under a limit, it renews when due: its lease ends with the authorization in force and
      is of now, or younger than it may go without renewal. So the slot stays live for the rest of the allowance,
      whatever happens to its other leases. */
  lemma AdmitRenews(a: Account, args: Args, limit: int, deadlineMs: int, t: int, c: int)
    requires AccountInv(a) && GoesBy(a, args, limit, deadlineMs) && limit > 0 && Admit(a, args).1 == 1
    ensures var next := Admit(a, args).0;
            && Leased(next.hash, args.slot, args.scope)
            && var lease := next.hash[args.slot].leases[args.scope];
               && lease.expires == EndOf(deadlineMs, args)
               && (|| (lease.seen == args.panelNow && lease.idle == args.expiry && lease.limit == args.limit)
                   || (&& args.panelNow - lease.seen < RenewAfter(args)
                       && Leased(a.hash, args.slot, args.scope)
                       && lease == a.hash[args.slot].leases[args.scope]))
               && (InUse(lease, t, c) ==> Live(next, args.slot, t, c))
  {
    var (ledger, view, _) := Open(a, args);
    OpenGoesBy(a, args);
    OpenIs(a, args);
    PresentKeeps(a, args.slot, args.version, args.validUntil, args.offset, false);
    SweepExactly(ledger.hash, args.panelNow, args.nowMs + args.offset, args.slot, args.scope);
    AdmitSweptRenews(Swept(ledger, args), view, args);
    LiveMeans(Admit(a, args).0, args.slot, t, c);
  }

  /** How an admission decides: -1 for an outdated version, a revoked slot or an authorization that is over; 0 when the
      slot is not held and other live devices fill the limit; else 1. */
  lemma AdmitDecides(a: Account, args: Args, limit: int, deadlineMs: int)
    requires AccountInv(a) && GoesBy(a, args, limit, deadlineMs)
    ensures Admit(a, args).1 ==
              if Outdated(a, args.slot, args.version) || Over(deadlineMs, args) then -1
              else if limit > 0 && !Holds(a, args) && |Others(a, args)| >= limit then 0 else 1
  {
    OpenGoesBy(a, args);
    OpenAuthorizes(a, args);
    FullMeansOthers(a, args);
    var (ledger, view, _) := Open(a, args);
    AdmitSweptVerdict(Swept(ledger, args), view, args);
  }

  // ---------------------------------------------------------------- the other scripts

  /** The newest version the ledger knows of a slot: that of its kick record or that of its entry. */
  predicate IsNewest(a: Account, slot: Slot, v: nat) {
    && (slot in a.kicks && a.kicks[slot].Version? ==> a.kicks[slot].v <= v)
    && (slot in a.hash ==> a.hash[slot].v <= v)
    && (|| v == 0 || (slot in a.kicks && a.kicks[slot].Version? && a.kicks[slot].v == v)
        || (slot in a.hash && a.hash[slot].v == v))
  }

  /** Until when a kick record is kept that was kept until `stored` and is asked for until `asked`; 0 is for ever. */
  function Until(asked: int, stored: int): int {
    if asked == 0 || stored == 0 then 0 else if asked > stored then asked else stored
  }

  /** What presenting a version leaves in the kick record: the newer of the versions known and presented, or the
      revocation; kept until the later of the two times, and for ever if one of them says so. */
  lemma PresentRecords(a: Account, slot: Slot, version: nat, validUntil: int, offset: int, revoke: bool, known: nat)
    requires IsNewest(a, slot, known)
    ensures var kicks := Present(a, slot, version, validUntil, offset, revoke).0.kicks;
            var asked := if validUntil == 0 then 0 else validUntil * 1000 + offset;
            var until := if slot in a.kicks then Until(asked, a.kicks[slot].retained) else asked;
            && kicks - {slot} == a.kicks - {slot} && slot in kicks
            && kicks[slot] == if revoke || (slot in a.kicks && a.kicks[slot].Revoked?) then Revoked(until)
                              else Version(if version > known then version else known, until)
  {
  }

  /** A verification registers nothing: of an authorized caller's ledger it only sweeps. */
  lemma VerifyOnlySweeps(a: Account, args: Args, s: Slot, o: Scope)
    requires AccountInv(a) && Verify(a, args).1 != -1
    ensures var next := Verify(a, args).0;
            && (Leased(next.hash, s, o) <==>
                  && Leased(a.hash, s, o) && InUse(a.hash[s].leases[o], args.panelNow, args.nowMs + args.offset)
                  && (s == args.slot ==> args.version <= a.hash[s].v))
            && (Leased(next.hash, s, o) ==> next.hash[s].leases[o] == a.hash[s].leases[o])
            && next.policies == a.policies
  {
    OpenLeases(a, args, s, o);
    SweptExactly(Open(a, args).0, args, s, o);
    VerifyIs(a, args, s);
  }

  lemma SweptExactly(ledger: Account, args: Args, s: Slot, o: Scope)
    ensures var swept := Swept(ledger, args).hash;
            && (Leased(swept, s, o) <==>
                  Leased(ledger.hash, s, o) && InUse(ledger.hash[s].leases[o], args.panelNow, args.nowMs + args.offset))
            && (Leased(swept, s, o) ==> swept[s].leases[o] == ledger.hash[s].leases[o])
  {
    SweepExactly(ledger.hash, args.panelNow, args.nowMs + args.offset, s, o);
  }

  lemma VerifyIs(a: Account, args: Args, s: Slot)
    requires Verify(a, args).1 != -1
    ensures var ledger, next := Open(a, args).0, Verify(a, args).0;
            && (s in next.hash <==> s in Swept(ledger, args).hash)
            && (s in next.hash ==> next.hash[s] == Swept(ledger, args).hash[s])
            && next.policies == ledger.policies
  {
  }

  /** Presenting a version takes at most the own slot, and changes no lease that stays. */
  lemma OpenLeases(a: Account, args: Args, s: Slot, o: Scope)
    requires AccountInv(a)
    ensures var ledger := Open(a, args).0;
            && (Leased(ledger.hash, s, o) <==> Leased(a.hash, s, o) && (s == args.slot ==> args.version <= a.hash[s].v))
            && (Leased(ledger.hash, s, o) ==> ledger.hash[s].leases[o] == a.hash[s].leases[o])
            && ledger.policies == a.policies
  {
    OpenIs(a, args);
    PresentKeeps(a, args.slot, args.version, args.validUntil, args.offset, false);
  }

  /** No lease but the caller's changes in an admission: it stays exactly if it is in use, and, on the caller's own
      slot, if the version presented is not a newer one. */
  lemma AdmitLeavesOthers(a: Account, args: Args, s: Slot, o: Scope)
    requires AccountInv(a) && Admit(a, args).1 != -1 && (s, o) != (args.slot, args.scope)
    ensures var next := Admit(a, args).0;
            && (Leased(next.hash, s, o) <==>
                  && Leased(a.hash, s, o) && InUse(a.hash[s].leases[o], args.panelNow, args.nowMs + args.offset)
                  && (s == args.slot ==> args.version <= a.hash[s].v))
            && (Leased(next.hash, s, o) ==> next.hash[s].leases[o] == a.hash[s].leases[o])
            && next.policies == a.policies
  {
    OpenLeases(a, args, s, o);
    SweptExactly(Open(a, args).0, args, s, o);
    AdmitIs(a, args, s, o);
  }

  /** An unauthorized admission or verification only notes the version: at most the own slot goes, for a newer one. */
  lemma UnauthorizedLeaves(a: Account, args: Args, s: Slot, o: Scope)
    requires AccountInv(a) && Admit(a, args).1 == -1
    ensures Verify(a, args) == Admit(a, args)
    ensures var next := Admit(a, args).0;
            && (Leased(next.hash, s, o) <==> Leased(a.hash, s, o) && (s == args.slot ==> args.version <= a.hash[s].v))
            && (Leased(next.hash, s, o) ==> next.hash[s].leases[o] == a.hash[s].leases[o])
            && next.policies == a.policies
  {
    OpenLeases(a, args, s, o);
    VerifyAgrees(a, args);
  }

  lemma AdmitIs(a: Account, args: Args, s: Slot, o: Scope)
    requires Admit(a, args).1 != -1 && (s, o) != (args.slot, args.scope)
    ensures var ledger, next := Open(a, args).0, Admit(a, args).0;
            var swept := Swept(ledger, args).hash;
            && (Leased(next.hash, s, o) <==> Leased(swept, s, o))
            && (Leased(swept, s, o) ==> next.hash[s].leases[o] == swept[s].leases[o])
            && next.policies == ledger.policies
  {
    var (ledger, view, _) := Open(a, args);
    AdmitSweptLeaves(Swept(ledger, args), view, args, s, o);
  }

  lemma AdmitSweptLeaves(swept: Account, view: View, args: Args, s: Slot, o: Scope)
    requires (s, o) != (args.slot, args.scope)
    ensures var next := AdmitSwept(swept, view, args).0;
            && (Leased(next.hash, s, o) <==> Leased(swept.hash, s, o))
            && (Leased(swept.hash, s, o) ==> next.hash[s].leases[o] == swept.hash[s].leases[o])
            && next.policies == swept.policies
  {
    TouchIs(swept, args, ScopeExpiry(view, args));
  }

  /** An evict that is not refused registers the caller, with the end of the authorization in force. */
  lemma EvictRegisters(a: Account, args: Args, order: seq<Slot>, limit: int, deadlineMs: int)
    requires AccountInv(a) && GoesBy(a, args, limit, deadlineMs) && Evict(a, args, order).1.Some?
    ensures var next := Evict(a, args, order).0;
            && Leased(next.hash, args.slot, args.scope) && next.hash[args.slot].v == args.version
            && Touched(next.hash[args.slot].leases[args.scope], deadlineMs, args)
  {
    OpenGoesBy(a, args);
    var (ledger, view, _) := Open(a, args);
    var swept := Swept(ledger, args);
    TouchIs(swept, args, ScopeExpiry(view, args));
    TouchIs(swept.(hash := RemoveSlots(swept.hash, Victims(swept.hash, args, order))), args, ScopeExpiry(view, args));
  }

  /** An evict that is not refused changes no lease of a device it does not return but the caller's: it stays exactly
      if it is in use. */
  lemma EvictLeavesOthers(a: Account, args: Args, order: seq<Slot>, s: Slot, o: Scope)
    requires AccountInv(a) && Evict(a, args, order).1.Some? && (s, o) != (args.slot, args.scope)
    requires s !in Evict(a, args, order).1.value
    ensures var next := Evict(a, args, order).0;
            && (Leased(next.hash, s, o) <==>
                  && Leased(a.hash, s, o) && InUse(a.hash[s].leases[o], args.panelNow, args.nowMs + args.offset)
                  && (s == args.slot ==> args.version <= a.hash[s].v))
            && (Leased(next.hash, s, o) ==> next.hash[s].leases[o] == a.hash[s].leases[o])
            && next.policies == a.policies
  {
    var (ledger, view, _) := Open(a, args);
    OpenLeases(a, args, s, o);
    SweptExactly(ledger, args, s, o);
    EvictSweptLeaves(Swept(ledger, args), view, args, order, s, o);
  }

  lemma EvictSweptLeaves(swept: Account, view: View, args: Args, order: seq<Slot>, s: Slot, o: Scope)
    requires (s, o) != (args.slot, args.scope) && EvictSwept(swept, view, args, order).1.Some?
    requires s !in EvictSwept(swept, view, args, order).1.value
    ensures var next := EvictSwept(swept, view, args, order).0;
            && (Leased(next.hash, s, o) <==> Leased(swept.hash, s, o))
            && (Leased(swept.hash, s, o) ==> next.hash[s].leases[o] == swept.hash[s].leases[o])
            && next.policies == swept.policies
  {
    var fewer := swept.(hash := RemoveSlots(swept.hash, Victims(swept.hash, args, order)));
    TouchIs(swept, args, ScopeExpiry(view, args));
    TouchIs(fewer, args, ScopeExpiry(view, args));
  }

  /** The limit a node was last told for a slot and scope, if any. */
  predicate Told(a: Account, args: Args, limit: int) {
    if (args.slot, args.scope) in a.policies then limit == a.policies[(args.slot, args.scope)].limit
    else HasLease(a, args) && limit == a.hash[args.slot].leases[args.scope].limit
  }

  /** An evict is refused to an outdated or revoked caller and after the authorization in force; where another limit
      was synced than the caller's; and for want of room without a confirmation, or with one that may come too late. */
  lemma EvictDecides(a: Account, args: Args, order: seq<Slot>, limit: int, deadlineMs: int)
    requires AccountInv(a) && GoesBy(a, args, limit, deadlineMs)
    ensures Evict(a, args, order).1 == None <==>
              || Outdated(a, args.slot, args.version) || Over(deadlineMs, args)
              || (exists told :: Told(a, args, told) && told != args.limit)
              || (&& !Holds(a, args) && |Others(a, args)| >= args.limit
                  && (!args.confirmed || (deadlineMs != 0 && deadlineMs <= args.nowMs + args.timeoutMs)))
  {
    EvictRefuses(a, args, order);
    OpenGoesBy(a, args);
    OpenAuthorizes(a, args);
    OpenTells(a, args);
    PresentKeeps(a, args.slot, args.version, args.validUntil, args.offset, false);
    var view := Open(a, args).1;
    if view.synced.Some? { assert Told(a, args, view.synced.value); }
  }

  lemma OpenTells(a: Account, args: Args)
    requires AccountInv(a)
    ensures forall told :: Told(a, args, told) <==> Open(a, args).1.synced == Some(told)
  {
    OpenIs(a, args);
    PresentKeeps(a, args.slot, args.version, args.validUntil, args.offset, false);
  }

  // ---------------------------------------------------------------- sync

  /** What a sync leaves of a policy: deleted for a detached device, stored for an authorized one, else as it was. */
  lemma SyncStores(a: Account, sync: SyncArgs)
    requires AccountInv(a)
    ensures var next, key := Sync(a, sync), (sync.slot, sync.scope);
            && next.policies - {key} == a.policies - {key}
            && (sync.detached ==> key !in next.policies)
            && (!sync.detached && !sync.revoke && !Outdated(a, sync.slot, sync.version) ==>
                  key in next.policies && next.policies[key] == sync.policy)
            && (!sync.detached && (sync.revoke || Outdated(a, sync.slot, sync.version)) ==>
                  next.policies == a.policies)
  {
    PresentKeeps(a, sync.slot, sync.version, sync.validUntil, sync.offset, sync.revoke);
  }

  /** What a sync leaves of the leases of its slot, where the slot stays: its own scope's lease goes if the device is
      detached, and gets the new limit and end if the sync is authorized; nothing else of it changes, and no other
      lease. */
  lemma SyncLeases(a: Account, sync: SyncArgs, o: Scope)
    requires AccountInv(a) && sync.slot in Sync(a, sync).hash
    ensures var next := Sync(a, sync);
            && sync.slot in a.hash && next.hash[sync.slot].v == a.hash[sync.slot].v
            && (Leased(next.hash, sync.slot, o) <==>
                  Leased(a.hash, sync.slot, o) && !(sync.detached && o == sync.scope))
            && (Leased(next.hash, sync.slot, o) ==>
                  next.hash[sync.slot].leases[o] ==
                    var lease := a.hash[sync.slot].leases[o];
                    if o != sync.scope || sync.revoke || Outdated(a, sync.slot, sync.version) then lease
                    else lease.(limit := sync.policy.limit,
                                expires := if sync.policy.until == 0 then 0
                                           else sync.policy.until * 1000 + sync.offset))
  {
    PresentKeeps(a, sync.slot, sync.version, sync.validUntil, sync.offset, sync.revoke);
  }

  // ---------------------------------------------------------------- cleanup, clock

  /** A kick record goes exactly when it is not for ever and an idle allowance has passed since its end. */
  lemma CleanKickExactly(a: Account, slot: Slot, expiry: int, nowMs: int)
    ensures var next := CleanKick(a, slot, expiry, nowMs);
            && next.kicks - {slot} == a.kicks - {slot}
            && (slot in next.kicks <==>
                  slot in a.kicks && (a.kicks[slot].retained <= 0 || nowMs < a.kicks[slot].retained + expiry * 1000))
            && (slot in next.kicks ==> next.kicks[slot] == a.kicks[slot])
            && next == a.(kicks := next.kicks)
  {
  }

  /** A policy goes exactly when its slot has no kick record. */
  lemma CleanPolicyExactly(a: Account, slot: Slot, scope: Scope)
    ensures var next, key := CleanPolicy(a, slot, scope), (slot, scope);
            && next.policies - {key} == a.policies - {key}
            && (key in next.policies <==> key in a.policies && slot in a.kicks)
            && (key in next.policies ==> next.policies[key] == a.policies[key])
            && next == a.(policies := next.policies)
  {
  }

  /** The cleanup of a ledger keeps exactly the leases in use at the panel's time. */
  lemma CleanLedgerExactly(a: Account, expiry: int, nowMs: int, s: Slot, o: Scope)
    requires AccountInv(a)
    ensures var next := CleanLedger(a, expiry, nowMs);
            && (Leased(next.hash, s, o) <==> Leased(a.hash, s, o) && InUse(a.hash[s].leases[o], nowMs / 1000, nowMs))
            && (Leased(next.hash, s, o) ==> next.hash[s].leases[o] == a.hash[s].leases[o])
            && next.kicks == a.kicks && next.policies == a.policies
            && (next.panelClock <==> a.panelClock && next.hash != map[])
  {
    SweepExactly(a.hash, nowMs / 1000, nowMs, s, o);
  }

  /** A ledger from before the panel clock restarts every lease at the panel's time and changes nothing else of it. */
  lemma ClockRestarts(a: Account, panelNow: int, s: Slot, o: Scope)
    ensures var next := OnPanelClock(a, panelNow);
            && (Leased(next.hash, s, o) <==> Leased(a.hash, s, o))
            && (s in next.hash <==> s in a.hash) && (s in next.hash ==> next.hash[s].v == a.hash[s].v)
            && (Leased(a.hash, s, o) ==>
                  next.hash[s].leases[o] ==
                    if a.panelClock then a.hash[s].leases[o] else a.hash[s].leases[o].(seen := panelNow))
            && (next.panelClock <==> a.panelClock || a.hash != map[])
            && next.kicks == a.kicks && next.policies == a.policies
  {
  }
}
