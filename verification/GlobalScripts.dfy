/** The Redis scripts as they run, statement by statement, on the keys of one account. Redis runs a script
    to its end before the next, so each method is one step of `GlobalLimitProofs.Step`. */
module GlobalScripts {
  import opened Wrappers
  import opened GlobalLimit
  import P = GlobalLimitProofs
  import V = GlobalVersions
  import E = GlobalEviction
  import L = GlobalLeases

  /** A live slot and when it was last seen, as the sweep lists them. */
  type Aged = (Slot, int)

  ghost predicate Sorted(live: seq<Aged>) {
    forall i, j :: 0 <= i < j < |live| ==> live[i].1 <= live[j].1
  }

  ghost predicate DistinctSlots(live: seq<Aged>) {
    forall i, j :: 0 <= i < j < |live| ==> live[i].0 != live[j].0
  }

  /** The list names exactly the slots of the hash, each with its latest activity. */
  ghost predicate Lists(live: seq<Aged>, hash: Ledger) {
    && DistinctSlots(live)
    && (forall i :: 0 <= i < |live| ==> live[i].0 in hash && IsLastSeen(live[i].1, hash[live[i].0]))
    && (forall s :: s in hash ==> exists i :: 0 <= i < |live| && live[i].0 == s)
  }

  /** What lets `Listing` be read, and is always true. */
  ghost predicate LookAtList(live: seq<Aged>) { true }

  /** `Lists`, for those who only pass it on. */
  ghost predicate Listing(live: seq<Aged>, hash: Ledger) {
    forall x: seq<Aged> {:trigger LookAtList(x)} :: LookAtList(x) && x == live ==> Lists(x, hash)
  }

  function Slots(live: seq<Aged>): (order: seq<Slot>)
    ensures |order| == |live| && forall i :: 0 <= i < |live| ==> order[i] == live[i].0
  {
    seq(|live|, i requires 0 <= i < |live| => live[i].0)
  }

  ghost predicate ByAge(live: seq<Aged>, hash: Ledger) {
    |live| == |hash| && IsByAge(Slots(live), hash)
  }

  lemma LastSeenIsOne(t: int, u: int, e: Entry)
    requires IsLastSeen(t, e) && IsLastSeen(u, e)
    ensures t == u
  {
  }

  lemma ListNames(live: seq<Aged>, hash: Ledger)
    requires Lists(live, hash)
    ensures forall s :: s in Slots(live) <==> s in hash
  {
    forall s | s in hash ensures s in Slots(live) {
      var i :| 0 <= i < |live| && live[i].0 == s;
      assert Slots(live)[i] == s;
    }
  }

  lemma ListIsByAge(live: seq<Aged>, hash: Ledger)
    requires Lists(live, hash) && Sorted(live)
    ensures ByAge(live, hash)
  {
    ListNames(live, hash);
    forall i, j, t, u | 0 <= i < j < |live| && IsLastSeen(t, hash[live[i].0]) && IsLastSeen(u, hash[live[j].0])
      ensures t <= u
    {
      ListedAt(live, hash, i, t);
      ListedAt(live, hash, j, u);
    }
    OrderIsByAge(live, Slots(live), hash);
  }

  lemma ListedAt(live: seq<Aged>, hash: Ledger, i: nat, t: int)
    requires Lists(live, hash) && i < |live| && live[i].0 in hash && IsLastSeen(t, hash[live[i].0])
    ensures live[i].1 == t
  {
    LastSeenIsOne(t, live[i].1, hash[live[i].0]);
  }

  lemma OrderIsByAge(live: seq<Aged>, order: seq<Slot>, hash: Ledger)
    requires |order| == |live| && (forall i :: 0 <= i < |order| ==> order[i] == live[i].0) && DistinctSlots(live)
    requires forall s :: s in order <==> s in hash
    requires forall i, j, t, u ::
               0 <= i < j < |live| && IsLastSeen(t, hash[live[i].0]) && IsLastSeen(u, hash[live[j].0]) ==> t <= u
    ensures IsByAge(order, hash) && |live| == |hash|
  {
    P.OrderSize(order, hash);
  }

  /** One lease after the other: what of an entry survives the sweep, and when it was last seen. */
  method SweepEntry(e: Entry, panelNow: int, cutoffMs: int) returns (kept: Entry, seen: Option<int>)
    ensures kept == Fresh(e, panelNow, cutoffMs)
    ensures seen.None? <==> kept.leases == map[]
    ensures seen.Some? ==> IsLastSeen(seen.value, kept)
  {
    var leases, todo := e.leases, e.leases.Keys;
    seen := None;
    while todo != {}
      invariant todo <= e.leases.Keys
      invariant forall o :: o in leases <==> o in e.leases && (o in todo || !Stale(e.leases[o], panelNow, cutoffMs))
      invariant forall o :: o in leases ==> leases[o] == e.leases[o]
      invariant seen.None? ==> leases.Keys <= todo
      invariant seen.Some? ==> (exists o :: o in leases && o !in todo && leases[o].seen == seen.value)
      invariant seen.Some? ==> forall o :: o in leases && o !in todo ==> leases[o].seen <= seen.value
      decreases |todo|
    {
      var owner :| owner in todo;
      todo := todo - {owner};
      if Stale(e.leases[owner], panelNow, cutoffMs) {
        leases := leases - {owner};
      } else {
        seen := Some(if seen.None? then e.leases[owner].seen else Max(seen.value, e.leases[owner].seen));
      }
    }
    kept := Entry(e.v, leases);
    assert leases == Fresh(e, panelNow, cutoffMs).leases;
  }

  method RestartLeases(e: Entry, panelNow: int) returns (r: Entry)
    ensures r == RestartedEntry(e, panelNow)
  {
    var leases, todo := e.leases, e.leases.Keys;
    while todo != {}
      invariant todo <= e.leases.Keys == leases.Keys
      invariant forall o :: o in leases ==>
                  leases[o] == if o in todo then e.leases[o] else e.leases[o].(seen := panelNow)
      decreases |todo|
    {
      var owner :| owner in todo;
      todo := todo - {owner};
      leases := leases[owner := leases[owner].(seen := panelNow)];
    }
    r := Entry(e.v, leases);
    assert leases == RestartedEntry(e, panelNow).leases;
  }

  function Inserted(done: seq<Aged>, x: Aged, p: nat): (more: seq<Aged>)
    requires p <= |done|
    ensures |more| == |done| + 1 &&
            forall i :: 0 <= i < |more| ==> more[i] == if i < p then done[i] else if i == p then x else done[i - 1]
  {
    done[..p] + [x] + done[p..]
  }

  lemma InsertHas(done: seq<Aged>, x: Aged, p: nat)
    requires p <= |done|
    ensures forall y :: y in Inserted(done, x, p) <==> y in done || y == x
  {
    assert done == done[..p] + done[p..];
  }

  lemma InsertSorts(done: seq<Aged>, x: Aged, p: nat)
    requires Sorted(done) && p <= |done|
    requires (forall i :: 0 <= i < p ==> done[i].1 <= x.1) && (p < |done| ==> x.1 <= done[p].1)
    ensures Sorted(Inserted(done, x, p))
  {
  }

  lemma InsertDistinct(done: seq<Aged>, x: Aged, p: nat)
    requires DistinctSlots(done) && p <= |done| && forall i :: 0 <= i < |done| ==> done[i].0 != x.0
    ensures DistinctSlots(Inserted(done, x, p))
  {
  }

  /** Stands for `table.sort`: some arrangement by activity. */
  method SortByAge(live: seq<Aged>) returns (sorted: seq<Aged>)
    requires DistinctSlots(live)
    ensures Sorted(sorted) && DistinctSlots(sorted) && forall x :: x in sorted <==> x in live
  {
    sorted := [];
    var n := 0;
    while n < |live|
      invariant n <= |live|
      invariant Sorted(sorted) && DistinctSlots(sorted)
      invariant forall x :: x in sorted <==> x in live[..n]
    {
      var x, p := live[n], 0;
      while p < |sorted| && sorted[p].1 <= x.1
        invariant p <= |sorted|
        invariant forall i :: 0 <= i < p ==> sorted[i].1 <= x.1
      {
        p := p + 1;
      }
      assert forall i :: 0 <= i < |sorted| ==> sorted[i] in live[..n];
      InsertHas(sorted, x, p);
      InsertSorts(sorted, x, p);
      InsertDistinct(sorted, x, p);
      TakeSnoc(live, n);
      sorted := Inserted(sorted, x, p);
      n := n + 1;
    }
    assert live[..n] == live;
  }

  /** The sorted listing of the live slots. */
  method SortLive(unsorted: seq<Aged>, hash: Ledger) returns (live: seq<Aged>)
    requires Listing(unsorted, hash)
    ensures ByAge(live, hash)
  {
    assert LookAtList(unsorted);
    live := SortByAge(unsorted);
    ListsSorted(unsorted, live, hash);
    ListIsByAge(live, hash);
  }

  lemma ListsSorted(live: seq<Aged>, sorted: seq<Aged>, hash: Ledger)
    requires Lists(live, hash) && DistinctSlots(sorted) && forall x :: x in sorted <==> x in live
    ensures Lists(sorted, hash)
  {
    forall i | 0 <= i < |sorted| ensures sorted[i].0 in hash && IsLastSeen(sorted[i].1, hash[sorted[i].0]) {
      assert sorted[i] in live;
    }
    forall s | s in hash ensures exists i :: 0 <= i < |sorted| && sorted[i].0 == s {
      var k :| 0 <= k < |live| && live[k].0 == s;
      assert live[k] in sorted;
    }
  }

  lemma AdmitUnfolds(a: Account, args: Args, ledger: Account, swept: Account, view: View, after: Account, verdict: int)
    requires (ledger, view, true) == Open(a, args) && swept == Swept(ledger, args)
    requires (after, verdict) == AdmitSwept(swept, view, args)
    ensures (after, verdict) == Admit(a, args)
  {
  }

  lemma SweptUnfolds(a: Account, after: Account, args: Args)
    requires after.hash == Sweep(a.hash, args.panelNow, args.nowMs + args.offset)
    requires after.kicks == a.kicks && after.policies == a.policies && after.panelClock == a.panelClock
    ensures after == Swept(a, args)
  {
    OtherHash(a, after, Sweep(a.hash, args.panelNow, args.nowMs + args.offset));
  }

  lemma OtherHash(a: Account, after: Account, hash: Ledger)
    requires after.hash == hash
    requires after.kicks == a.kicks && after.policies == a.policies && after.panelClock == a.panelClock
    ensures after == a.(hash := hash)
  {
  }

  lemma HashSwept(hash: Ledger, entries: Ledger, panelNow: int, cutoffMs: int)
    requires HalfSwept(hash, entries, {}, panelNow, cutoffMs)
    ensures hash == Sweep(entries, panelNow, cutoffMs)
  {
  }

  lemma VerifyUnfolds(a: Account, args: Args, ledger: Account, swept: Account, view: View, verdict: int)
    requires (ledger, view, true) == Open(a, args) && swept == Swept(ledger, args)
    requires verdict ==
               if OnlineLimit(view, args) <= 0 || args.slot in swept.hash || |swept.hash| < OnlineLimit(view, args)
               then 1 else 0
    ensures (swept, verdict) == Verify(a, args)
  {
  }

  lemma EvictUnfolds(a: Account, args: Args, order: seq<Slot>, ledger: Account, swept: Account, view: View,
                     after: Account, kicked: Option<seq<Slot>>)
    requires (ledger, view, true) == Open(a, args) && swept == Swept(ledger, args)
    requires !(view.synced.Some? && view.synced.value != args.limit)
    requires (after, kicked) == EvictSwept(swept, view, args, order)
    ensures (after, kicked) == Evict(a, args, order)
  {
  }

  /** The keys of one account. */
  class AccountKeys {
    var hash: Ledger
    var kicks: map<Slot, Kick>
    var policies: map<(Slot, Scope), Policy>
    var panelClock: bool

    constructor ()
      ensures State() == EMPTY_ACCOUNT
    {
      hash, kicks, policies, panelClock := map[], map[], map[], false;
    }

    function State(): Account
      reads this
    {
      Account(hash, kicks, policies, panelClock)
    }

    /** `kickPrelude`. */
    method NoteVersion(slot: Slot, version: nat, validUntil: int, offset: int, revoke: bool) returns (authorized: bool)
      modifies this
      ensures (State(), authorized) == Present(old(State()), slot, version, validUntil, offset, revoke)
    {
      var retained := if validUntil == 0 then 0 else validUntil * 1000 + offset;
      var stored, revoked, previous := slot in kicks, false, 0;
      if stored {
        var untilAt := kicks[slot].retained;
        match kicks[slot] {
          case Revoked(_) => revoked := true;
          case Version(v, _) => previous := v;
        }
        if untilAt == 0 || retained == 0 {
          retained := 0;
        } else {
          retained := Max(retained, untilAt);
        }
      }
      var online := slot in hash;
      if revoke || revoked {
        kicks := kicks[slot := Revoked(retained)];
        if revoke { hash := hash - {slot}; }
        authorized := false;
      } else {
        if online && hash[slot].v > previous { previous := hash[slot].v; }
        var newer := version > previous;
        authorized := version == previous || newer;
        kicks := kicks[slot := Version(if newer then version else previous, retained)];
        if (stored || online) && newer { hash := hash - {slot}; }
      }
    }

    /** `ledgerPrelude`. */
    method MoveToPanelClock(panelNow: int)
      modifies this
      ensures State() == OnPanelClock(old(State()), panelNow)
    {
      if !panelClock {
        var todo := hash.Keys;
        while todo != {}
          invariant todo <= hash.Keys == old(hash).Keys
          invariant forall s :: s in hash ==>
                      hash[s] == if s in todo then old(hash)[s] else RestartedEntry(old(hash)[s], panelNow)
          invariant kicks == old(kicks) && policies == old(policies) && panelClock == old(panelClock)
          decreases |todo|
        {
          var s :| s in todo;
          todo := todo - {s};
          var entry := RestartLeases(hash[s], panelNow);
          hash := hash[s := entry];
        }
        assert hash == Restarted(old(hash), panelNow);
      }
      if hash != map[] { panelClock := true; }
      assert hash == map[] <==> old(hash) == map[] by {
        assert hash.Keys == old(hash).Keys;
      }
    }

    /** `sweepPrelude`: what is live stays, and is listed from the longest to the least inactive. */
    method SweepStale(args: Args) returns (live: seq<Aged>)
      modifies `hash
      ensures State() == Swept(old(State()), args)
      ensures ByAge(live, hash)
    {
      live := SweepLive(args);
      live := SortLive(live, hash);
    }

    method SweepLive(args: Args) returns (unsorted: seq<Aged>)
      modifies `hash
      ensures State() == Swept(old(State()), args)
      ensures Listing(unsorted, hash)
    {
      unsorted := DropStale(args.panelNow, args.nowMs + args.offset);
      SweptUnfolds(old(State()), State(), args);
    }

    /** The loop of `sweepPrelude`, which lists the live slots as it meets them. */
    method DropStale(panelNow: int, cutoffMs: int) returns (unsorted: seq<Aged>)
      modifies `hash
      ensures hash == Sweep(old(hash), panelNow, cutoffMs) && Listing(unsorted, hash)
    {
      var entries := hash;
      var todo := entries.Keys;
      unsorted := [];
      while todo != {}
        invariant todo <= entries.Keys
        invariant HalfSwept(hash, entries, todo, panelNow, cutoffMs)
        invariant Lists(unsorted, hash - todo)
        decreases |todo|
      {
        var s :| s in todo;
        ghost var before := hash;
        var kept, seen := SweepEntry(entries[s], panelNow, cutoffMs);
        SweepStep(before, entries, todo, panelNow, cutoffMs, s);
        if seen == None {
          hash := hash - {s};
        } else {
          hash := hash[s := kept];
          ListsMore(unsorted, before - todo, s, seen.value, kept);
          unsorted := unsorted + [(s, seen.value)];
        }
        todo := todo - {s};
      }
      assert hash - todo == hash;
      HashSwept(hash, old(hash), panelNow, cutoffMs);
    }

    /** `touchSlot`: the caller's scope gets a lease as of now on its slot, which then carries the version presented;
        other scopes keep their leases, other slots their entries. */
    method TouchSlot(args: Args, scopeExpiry: int)
      modifies this
      ensures State() == Touch(old(State()), args, scopeExpiry)
      ensures forall t, c :: t - args.panelNow <= args.expiry && (scopeExpiry == 0 || c < scopeExpiry) ==>
                E.Live(State(), args.slot, t, c)
      ensures forall s, t, c :: s != args.slot ==> (E.Live(State(), s, t, c) <==> E.Live(old(State()), s, t, c))
      ensures forall o :: o != args.scope ==>
                (o in hash[args.slot].leases <==> args.slot in old(hash) && o in old(hash)[args.slot].leases)
                && (o in hash[args.slot].leases ==> hash[args.slot].leases[o] == old(hash)[args.slot].leases[o])
      ensures kicks == old(kicks) && policies == old(policies) && panelClock
    {
      var leases := if args.slot in hash then hash[args.slot].leases else map[];
      leases := leases[args.scope := Lease(args.panelNow, scopeExpiry, args.expiry, args.limit)];
      hash := hash[args.slot := Entry(args.version, leases)];
      panelClock := true;
      ghost var before := old(State());
      forall s, t, c
        ensures s != args.slot ==> (E.Live(State(), s, t, c) <==> E.Live(before, s, t, c))
        ensures s == args.slot && t - args.panelNow <= args.expiry && (scopeExpiry == 0 || c < scopeExpiry) ==>
                  E.Live(State(), s, t, c)
      {
        E.TouchedLives(before, args, scopeExpiry, s, t, c);
      }
    }

    /** The preludes every slot script begins with. */
    method Prelude(args: Args) returns (view: View, authorized: bool)
      modifies this
      ensures (State(), view, authorized) == Open(old(State()), args)
    {
      authorized := NoteVersion(args.slot, args.version, args.validUntil, args.offset, false);
      MoveToPanelClock(args.panelNow);
      var deadlineMs, synced := args.validUntil * 1000, None;
      if (args.slot, args.scope) in policies {
        var policy := policies[(args.slot, args.scope)];
        synced := Some(policy.limit);
        deadlineMs := policy.until * 1000;
      } else if args.slot in hash && args.scope in hash[args.slot].leases {
        var lease := hash[args.slot].leases[args.scope];
        deadlineMs := if lease.expires == 0 then 0 else lease.expires - args.offset;
        synced := Some(lease.limit);
      }
      view := View(synced, deadlineMs);
      if deadlineMs != 0 && deadlineMs <= args.now * 1000 { authorized := false; }
    }

    /** `admitScript`. */
    method RunAdmit(args: Args) returns (verdict: int)
      modifies this
      ensures (State(), verdict) == Admit(old(State()), args)
    {
      var view, authorized := Prelude(args);
      if !authorized { return -1; }
      ghost var ledger := State();
      var live := SweepStale(args);
      ghost var swept := State();
      verdict := AdmitLive(args, view, |live|);
      AdmitUnfolds(old(State()), args, ledger, swept, view, State(), verdict);
    }

    /** What `admitScript` does after the sweep. */
    method AdmitLive(args: Args, view: View, live: nat) returns (verdict: int)
      requires live == |hash|
      modifies this
      ensures (State(), verdict) == AdmitSwept(old(State()), view, args)
      ensures verdict == 1 && OnlineLimit(view, args) > 0 ==>
                && L.Leased(hash, args.slot, args.scope)
                && var lease := hash[args.slot].leases[args.scope];
                   && lease.expires == L.EndOf(view.deadlineMs, args)
                   && (lease.seen == args.panelNow || args.panelNow - lease.seen < L.RenewAfter(args))
    {
      ghost var swept := State();
      if AdmitSwept(swept, view, args).1 == 1 && OnlineLimit(view, args) > 0 {
        L.AdmitSweptRenews(swept, view, args);
      }
      var limit, expires := OnlineLimit(view, args), ScopeExpiry(view, args);
      if limit <= 0 { return 1; }
      var touch := Min(args.touch, Max(1, args.expiry / 2));
      if args.slot in hash {
        var leases := hash[args.slot].leases;
        if args.scope !in leases || leases[args.scope].expires != expires ||
          args.panelNow - leases[args.scope].seen >= touch {
          TouchSlot(args, expires);
        }
        return 1;
      }
      if live < limit {
        TouchSlot(args, expires);
        return 1;
      }
      return 0;
    }

    /** `verifyScript`. */
    method RunVerify(args: Args) returns (verdict: int)
      modifies this
      ensures (State(), verdict) == Verify(old(State()), args)
    {
      var view, authorized := Prelude(args);
      if !authorized { return -1; }
      ghost var ledger := State();
      var live := SweepStale(args);
      var limit := OnlineLimit(view, args);
      verdict := if limit <= 0 || args.slot in hash || |live| < limit then 1 else 0;
      VerifyUnfolds(old(State()), args, ledger, State(), view, verdict);
    }

    /** `evictScript`, with the age order its sort arrived at. Only its victims depend on that order. */
    method RunEvict(args: Args) returns (kicked: Option<seq<Slot>>, ghost order: seq<Slot>)
      requires args.limit > 0
      modifies this
      ensures (State(), kicked) == Evict(old(State()), args, order)
      ensures kicked.Some? ==> IsByAge(order, Swept(Open(old(State()), args).0, args).hash)
    {
      order := [];
      var view, authorized := Prelude(args);
      if !authorized { return None, order; }
      if view.synced.Some? && view.synced.value != args.limit { return None, order; }
      ghost var ledger := State();
      var live := SweepStale(args);
      order := Slots(live);
      ghost var swept := State();
      kicked := EvictLive(args, view, live);
      EvictUnfolds(old(State()), args, order, ledger, swept, view, State(), kicked);
    }

    /** What `evictScript` does after the sweep. */
    method EvictLive(args: Args, view: View, live: seq<Aged>) returns (kicked: Option<seq<Slot>>)
      requires args.limit > 0 && |live| == |hash| && IsByAge(Slots(live), hash)
      modifies this
      ensures (State(), kicked) == EvictSwept(old(State()), view, args, Slots(live))
    {
      var gone: seq<Slot> := [];
      if args.slot !in hash && |live| >= args.limit {
        if !args.confirmed || Expiring(view, args) { return None; }
        gone := RemoveVictims(args, live);
      }
      TouchSlot(args, ScopeExpiry(view, args));
      kicked := Some(gone);
    }

    /** The two removal loops of `evictScript`. */
    method RemoveVictims(args: Args, live: seq<Aged>) returns (kicked: seq<Slot>)
      requires args.limit > 0 && args.limit <= |live| == |hash| && IsByAge(Slots(live), hash)
      modifies `hash
      ensures kicked == Victims(old(hash), args, Slots(live)) && hash == RemoveSlots(old(hash), kicked)
    {
      VictimsFit(hash, args, Slots(live));
      var left;
      kicked, left := RemoveTarget(args, live);
      var oldest := RemoveOldest(left, |left| - args.limit + 1);
      VictimsAre(old(hash), args, Slots(live), kicked, oldest);
      RemoveBoth(old(hash), kicked, oldest);
      kicked := kicked + oldest;
    }

    /** A chosen target that is online goes first. */
    method RemoveTarget(args: Args, live: seq<Aged>) returns (kicked: seq<Slot>, left: seq<Aged>)
      modifies `hash
      ensures kicked == if args.target != "" && args.target != args.slot && args.target in old(hash) then [args.target]
                        else []
      ensures Slots(left) == P.Remaining(old(hash), args, Slots(live)) && hash == RemoveSlots(old(hash), kicked)
    {
      RemoveNone(hash);
      RemoveOneMore(hash, [], args.target);
      kicked, left := [], live;
      if args.target != "" && args.target != args.slot && args.target in hash {
        hash := hash - {args.target};
        kicked := [args.target];
        left := RemoveListed(live, args.target);
      }
    }

    method RemoveOldest(left: seq<Aged>, count: nat) returns (kicked: seq<Slot>)
      requires count <= |left|
      modifies `hash
      ensures kicked == Slots(left)[..count] && hash == RemoveSlots(old(hash), kicked)
    {
      kicked := [];
      for i := 0 to count
        invariant kicked == Slots(left)[..i] && hash == RemoveSlots(old(hash), kicked)
      {
        RemoveOneMore(old(hash), kicked, left[i].0);
        hash := hash - {left[i].0};
        kicked := kicked + [left[i].0];
      }
    }

    /** One user of `syncKickScript`. */
    method RunSync(args: SyncArgs)
      modifies this
      ensures State() == Sync(old(State()), args)
    {
      var authorized := NoteVersion(args.slot, args.version, args.validUntil, args.offset, args.revoke);
      if args.slot in hash && args.scope in hash[args.slot].leases {
        var entry := hash[args.slot];
        if args.detached {
          entry := entry.(leases := entry.leases - {args.scope});
        } else if authorized {
          var expires := if args.policy.until == 0 then 0 else args.policy.until * 1000 + args.offset;
          entry := entry.(leases := entry.leases[args.scope := entry.leases[args.scope].(expires := expires,
                limit := args.policy.limit)]);
        }
        if entry.leases != map[] {
          hash := hash[args.slot := entry];
        } else {
          hash := hash - {args.slot};
        }
      }
      if args.detached {
        policies := policies - {(args.slot, args.scope)};
      } else if authorized {
        policies := policies[(args.slot, args.scope) := args.policy];
      }
    }

    /** `cleanupScript` on a kick record. */
    method RunCleanKick(slot: Slot, expiry: int, nowMs: int)
      modifies this
      ensures State() == CleanKick(old(State()), slot, expiry, nowMs)
      ensures forall s, v, revoked, until ::
                V.Barred(old(State()), s, v, revoked) && V.Retains(old(State()), s, until) &&
                (s == slot && until != 0 ==> nowMs < until + expiry * 1000) ==>
                V.Barred(State(), s, v, revoked) && V.Retains(State(), s, until)
      ensures kicks.Keys <= old(kicks).Keys && forall s :: s in kicks ==> kicks[s] == old(kicks)[s]
      ensures hash == old(hash) && policies == old(policies) && panelClock == old(panelClock)
    {
      if slot in kicks {
        var retained := kicks[slot].retained;
        if retained > 0 && retained + expiry * 1000 <= nowMs { kicks := kicks - {slot}; }
      }
    }

    /** `cleanupScript` on a policy, which goes once the kick record is gone. */
    method RunCleanPolicy(slot: Slot, scope: Scope)
      modifies this
      ensures State() == CleanPolicy(old(State()), slot, scope)
      ensures forall args: Args :: args.slot in kicks ==> Seen(State(), args) == Seen(old(State()), args)
      ensures forall p :: p in policies ==> p in old(policies) && policies[p] == old(policies)[p]
      ensures hash == old(hash) && kicks == old(kicks) && panelClock == old(panelClock)
    {
      if slot !in kicks { policies := policies - {(slot, scope)}; }
    }

    /** `cleanupScript` on the ledger. */
    method RunCleanLedger(expiry: int, nowMs: int) returns (live: nat)
      modifies this
      ensures State() == CleanLedger(old(State()), expiry, nowMs)
    {
      if !panelClock { return 0; }
      var left := SweepStale(CleanupArgs(expiry, nowMs));
      if |left| == 0 { panelClock := false; }
      live := |left|;
    }
  }

  lemma VictimsFit(hash: Ledger, args: Args, order: seq<Slot>)
    requires IsByAge(order, hash) && args.limit > 0 && |hash| >= args.limit
    ensures 0 <= |P.Remaining(hash, args, order)| - args.limit + 1 <= |P.Remaining(hash, args, order)|
  {
    P.RemainingIs(hash, args, order);
  }

  lemma VictimsAre(hash: Ledger, args: Args, order: seq<Slot>, kicked: seq<Slot>, oldest: seq<Slot>)
    requires IsByAge(order, hash) && args.limit > 0 && |hash| >= args.limit
    requires kicked ==
               if args.target != "" && args.target != args.slot && args.target in hash then [args.target] else []
    requires 0 <= |P.Remaining(hash, args, order)| - args.limit + 1 <= |P.Remaining(hash, args, order)|
    requires oldest == P.Remaining(hash, args, order)[..|P.Remaining(hash, args, order)| - args.limit + 1]
    ensures kicked + oldest == Victims(hash, args, order)
  {
    P.RemainingIs(hash, args, order);
  }

  lemma RemoveNone(hash: Ledger)
    ensures RemoveSlots(hash, []) == hash
  {
  }

  lemma RemoveOneMore(hash: Ledger, gone: seq<Slot>, s: Slot)
    ensures RemoveSlots(hash, gone + [s]) == RemoveSlots(hash, gone) - {s}
  {
  }

  lemma RemoveBoth(hash: Ledger, first: seq<Slot>, second: seq<Slot>)
    ensures RemoveSlots(hash, first + second) == RemoveSlots(RemoveSlots(hash, first), second)
  {
  }

  /** `table.remove` of the first entry naming the slot. */
  method RemoveListed(live: seq<Aged>, slot: Slot) returns (left: seq<Aged>)
    ensures Slots(left) == Without(Slots(live), slot)
  {
    var i := 0;
    ghost var order := Slots(live);
    while i < |live| && live[i].0 != slot
      invariant i <= |live| && forall k :: 0 <= k < i ==> order[k] != slot
    {
      i := i + 1;
    }
    WithoutAt(order, slot, i);
    if i == |live| { return live; }
    left := live[..i] + live[i + 1..];
    assert Slots(left) == order[..i] + order[i + 1..];
  }

  lemma {:induction false} WithoutAt(order: seq<Slot>, slot: Slot, i: nat)
    requires i <= |order| && (forall k :: 0 <= k < i ==> order[k] != slot) && (i < |order| ==> order[i] == slot)
    ensures Without(order, slot) == if i < |order| then order[..i] + order[i + 1..] else order
  {
    if i > 0 {
      WithoutAt(order[1..], slot, i - 1);
      assert order[..i] == [order[0]] + order[1..][..i - 1];
      assert order == [order[0]] + order[1..];
    }
  }

  /** The entries still to do are as they were, the others swept. */
  ghost predicate HalfSwept(hash: Ledger, entries: Ledger, todo: set<Slot>, panelNow: int, cutoffMs: int) {
    && (forall s :: s in hash <==> s in entries && (s in todo || Fresh(entries[s], panelNow, cutoffMs).leases != map[]))
    && (forall s :: s in hash ==> hash[s] == if s in todo then entries[s] else Fresh(entries[s], panelNow, cutoffMs))
  }

  lemma SweepStep(hash: Ledger, entries: Ledger, todo: set<Slot>, panelNow: int, cutoffMs: int, s: Slot)
    requires HalfSwept(hash, entries, todo, panelNow, cutoffMs) && s in todo && s in entries
    ensures var kept := Fresh(entries[s], panelNow, cutoffMs);
            if kept.leases == map[] then
              HalfSwept(hash - {s}, entries, todo - {s}, panelNow, cutoffMs) &&
                (hash - {s}) - (todo - {s}) == hash - todo
            else
              && HalfSwept(hash[s := kept], entries, todo - {s}, panelNow, cutoffMs)
              && hash[s := kept] - (todo - {s}) == (hash - todo)[s := kept] && s !in hash - todo
  {
  }

  lemma ListsMore(live: seq<Aged>, hash: Ledger, s: Slot, seen: int, e: Entry)
    requires Lists(live, hash) && s !in hash && IsLastSeen(seen, e)
    ensures Lists(live + [(s, seen)], hash[s := e])
  {
    var more := live + [(s, seen)];
    var after := hash[s := e];
    forall x | x in after ensures exists i :: 0 <= i < |more| && more[i].0 == x {
      if x == s {
        assert more[|live|].0 == x;
      } else {
        var i :| 0 <= i < |live| && live[i].0 == x;
        assert more[i].0 == x;
      }
    }
  }
}
