/** A node's own ledger of online slots: admission, re-checks and eviction on the books that the auth keys
    of an account share. */
module DeviceSlots {
  import opened Wrappers

  type Slot = string

  /** Nanoseconds, as `time.Duration` counts them. */
  const SECOND: int := 1_000_000_000
  const SLOT_EXPIRY: int := 60 * SECOND
  const ONLINE_TOUCH: int := 10 * SECOND

  /** Go maps are shared by reference, so each is an object of its own. */
  class SlotSet {
    var s: set<Slot>

    constructor ()
      ensures s == {}
    {
      s := {};
    }
  }

  class ActiveMap {
    var m: map<Slot, int>

    constructor ()
      ensures m == map[]
    {
      m := map[];
    }
  }

  /** `time.Now`: any instant not before the last one read. */
  class Clock {
    var now: int

    method Now() returns (t: int)
      modifies this
      ensures old(now) <= t == now
    {
      t :| t >= now;
      now := t;
    }
  }

  /** Both halves of a book name the same slots, and never the empty one. */
  ghost predicate Paired(slots: SlotSet, active: ActiveMap)
    reads slots, active
  {
    slots.s == active.m.Keys && "" !in active.m
  }

  /** In the two tables of a service, keys have both halves of a book or neither, and share both or neither. */
  ghost predicate Aligned(slots: map<string, SlotSet>, active: map<string, ActiveMap>) {
    && slots.Keys == active.Keys
    && (forall j, k :: j in slots && k in slots ==> (slots[j] == slots[k] <==> active[j] == active[k]))
    && (forall j, k :: j in slots && k in active ==> (slots[j] as object) != active[k])
  }

  ghost predicate AllPaired(slots: map<string, SlotSet>, active: map<string, ActiveMap>)
    requires slots.Keys == active.Keys
    reads slots.Values, active.Values
  {
    forall k :: k in slots ==> Paired(slots[k], active[k])
  }

  // ---------------------------------------------------------------- what the operations compute

  predicate IsFresh(m: map<Slot, int>, slot: Slot, t: int) {
    slot in m && t - m[slot] <= SLOT_EXPIRY
  }

  function FreshSlots(m: map<Slot, int>, t: int): set<Slot> {
    set k | k in m && IsFresh(m, k, t)
  }

  function Purged(m: map<Slot, int>, t: int): map<Slot, int> {
    map k | k in m && IsFresh(m, k, t) :: m[k]
  }

  /** May the slot stay: no limit, still fresh itself, or room among the fresh ones. */
  predicate Verdict(m: map<Slot, int>, slot: Slot, limit: int, t: int) {
    limit <= 0 || IsFresh(m, slot, t) || |FreshSlots(m, t)| < limit
  }

  predicate IsOldest(m: map<Slot, int>, k: Slot) {
    k in m && forall j :: j in m ==> m[k] <= m[j]
  }

  /** `gone` was evicted one by one from `before`: the target first if it was there, then always an oldest. */
  ghost predicate EvictedInTurn(before: map<Slot, int>, target: Slot, gone: seq<Slot>)
    decreases |gone|
  {
    gone == [] ||
    (gone[0] in before
     && (if target in before then gone[0] == target else IsOldest(before, gone[0]))
     && EvictedInTurn(before - {gone[0]}, "", gone[1..]))
  }

  function Gone(gone: seq<Slot>): set<Slot> {
    set k | k in gone
  }

  // ---------------------------------------------------------------- eviction

  lemma GoneStep(before: map<Slot, int>, gone: seq<Slot>)
    requires gone != [] && gone[0] in before
    ensures Gone(gone) == {gone[0]} + Gone(gone[1..])
    ensures Gone(gone[1..]) <= (before - {gone[0]}).Keys ==> Gone(gone) <= before.Keys
    ensures before - Gone(gone) == (before - {gone[0]}) - Gone(gone[1..])
    ensures |before - {gone[0]}| == |before| - 1
  {
    assert gone == [gone[0]] + gone[1..];
    assert before.Keys == (before - {gone[0]}).Keys + {gone[0]};
  }

  lemma GoneNone(before: map<Slot, int>)
    ensures Gone([]) == {} && before - Gone([]) == before
  {
  }

  /** Evicting in turn removes that many different slots. */
  lemma {:induction false} EvictionSize(before: map<Slot, int>, target: Slot, gone: seq<Slot>)
    requires EvictedInTurn(before, target, gone)
    ensures |before - Gone(gone)| == |before| - |gone|
    ensures Gone(gone) <= before.Keys
    decreases |gone|
  {
    if gone == [] {
      GoneNone(before);
    } else {
      GoneStep(before, gone);
      EvictionSize(before - {gone[0]}, "", gone[1..]);
    }
  }

  /** The target goes first, and no other victim was active later than a slot that stays. */
  lemma {:induction false} EvictionAge(before: map<Slot, int>, target: Slot, gone: seq<Slot>, v: Slot, k: Slot)
    requires EvictedInTurn(before, target, gone) && "" !in before
    requires v in gone && v != target && k in before && k !in gone
    ensures v in before && before[v] <= before[k]
    decreases |gone|
  {
    EvictionSize(before, target, gone);
    assert v in Gone(gone);
    if v != gone[0] {
      assert gone == [gone[0]] + gone[1..];
      EvictionAge(before - {gone[0]}, "", gone[1..], v, k);
    }
  }

  lemma {:induction false} EvictOneMore(before: map<Slot, int>, target: Slot, gone: seq<Slot>, v: Slot)
    requires EvictedInTurn(before, target, gone) && "" !in before
    requires v in before && v !in gone
    requires gone == [] && target in before ==> v == target
    requires !(gone == [] && target in before) ==> IsOldest(before - Gone(gone), v)
    ensures EvictedInTurn(before, target, gone + [v])
  {
    if gone == [] {
      assert before - Gone(gone) == before;
    } else {
      var first, rest := gone[0], gone[1..];
      GoneStep(before, gone);
      EvictOneMore(before - {first}, "", rest, v);
      assert (gone + [v])[1..] == rest + [v];
    }
  }

  /** `peekOldestDeviceSlot`. */
  method PeekOldest(active: ActiveMap) returns (oldest: Option<Slot>)
    requires "" !in active.m
    ensures oldest.None? <==> active.m == map[]
    ensures oldest.Some? ==> IsOldest(active.m, oldest.value)
  {
    if active.m == map[] { return None; }
    var slot, at, first := "", 0, true;
    var todo := active.m.Keys;
    while todo != {}
      invariant todo <= active.m.Keys && (first ==> todo == active.m.Keys)
      invariant !first ==>
                  slot in active.m && at == active.m[slot] &&
                  forall j :: j in active.m && j !in todo ==> at <= active.m[j]
      decreases |todo|
    {
      var k :| k in todo;
      todo := todo - {k};
      if first || active.m[k] < at {
        slot, at, first := k, active.m[k], false;
      }
    }
    return Some(slot);
  }

  /** `EvictDeviceSlot`: the target if it is online, else an oldest slot; None only on an empty book. The set may
      be missing. */
  method EvictDeviceSlot(slots: SlotSet?, active: ActiveMap, target: Slot) returns (victim: Option<Slot>)
    requires "" !in active.m
    modifies slots, active
    ensures victim.None? <==> old(active.m) == map[]
    ensures victim.Some? ==>
              && victim.value in old(active.m) && EvictedInTurn(old(active.m), target, [victim.value])
              && active.m == old(active.m) - {victim.value}
              && (slots != null ==> slots.s == old(slots.s) - {victim.value})
    ensures victim.None? ==> active.m == old(active.m) && (slots != null ==> slots.s == old(slots.s))
  {
    var v := target;
    if v !in active.m {
      var oldest := PeekOldest(active);
      if oldest.None? { return None; }
      v := oldest.value;
    }
    active.m := active.m - {v};
    if slots != null { slots.s := slots.s - {v}; }
    return Some(v);
  }

  /** Entries still to do are all there, of the others the fresh ones. */
  ghost predicate HalfPurged(m: map<Slot, int>, entries: map<Slot, int>, todo: set<Slot>, now: int) {
    && (forall k :: k in m <==> k in entries && (k in todo || IsFresh(entries, k, now)))
    && (forall k :: k in m ==> m[k] == entries[k])
  }

  lemma PurgeStep(m: map<Slot, int>, entries: map<Slot, int>, todo: set<Slot>, now: int, slot: Slot)
    requires HalfPurged(m, entries, todo, now) && slot in todo && slot in entries
    ensures if IsFresh(entries, slot, now) then
              HalfPurged(m, entries, todo - {slot}, now) && |m.Keys - (todo - {slot})| == |m.Keys - todo| + 1
            else
              HalfPurged(m - {slot}, entries, todo - {slot}, now) &&
                |(m - {slot}).Keys - (todo - {slot})| == |m.Keys - todo|
  {
    if IsFresh(entries, slot, now) {
      assert m.Keys - (todo - {slot}) == (m.Keys - todo) + {slot};
    } else {
      assert (m - {slot}).Keys - (todo - {slot}) == m.Keys - todo;
    }
  }

  lemma PurgeDone(m: map<Slot, int>, entries: map<Slot, int>, now: int)
    requires HalfPurged(m, entries, {}, now)
    ensures m == Purged(entries, now) && |m.Keys - {}| == |m|
  {
    assert m.Keys - {} == m.Keys;
  }

  /** `PurgeStaleDeviceSlots`: slots idle beyond the expiry leave both halves; the count of those that stay. The set
      may be missing. */
  method PurgeStaleDeviceSlots(slots: SlotSet?, active: ActiveMap, clock: Clock) returns (count: nat, ghost t: int)
    requires (slots as object?) != clock && (active as object) != clock && (slots as object?) != active
    modifies slots, active, clock
    ensures old(clock.now) <= t == clock.now
    ensures active.m == Purged(old(active.m), t) && count == |active.m|
    ensures slots != null ==> slots.s == old(slots.s) - (old(active.m).Keys - active.m.Keys)
  {
    var now := clock.Now();
    t := now;
    count := 0;
    var entries := active.m;
    var todo := entries.Keys;
    while todo != {}
      invariant todo <= entries.Keys && HalfPurged(active.m, entries, todo, now)
      invariant slots != null ==> slots.s == old(slots.s) - (entries.Keys - active.m.Keys)
      invariant count == |active.m.Keys - todo| && clock.now == now
      decreases |todo|
    {
      var slot :| slot in todo;
      PurgeStep(active.m, entries, todo, now, slot);
      if now - entries[slot] > SLOT_EXPIRY {
        active.m := active.m - {slot};
        if slots != null { slots.s := slots.s - {slot}; }
      } else {
        count := count + 1;
      }
      todo := todo - {slot};
    }
    PurgeDone(active.m, entries, now);
  }

  lemma FreshStep(m: map<Slot, int>, t: int, todo: set<Slot>, key: Slot)
    requires key in todo && key in m
    ensures FreshSlots(m, t) - (todo - {key}) ==
              FreshSlots(m, t) - todo + if IsFresh(m, key, t) then {key} else {}
  {
  }

  lemma FreshCounted(m: map<Slot, int>, t: int, todo: set<Slot>, slot: Slot)
    requires todo == {} && slot !in FreshSlots(m, t) - todo
    ensures FreshSlots(m, t) - todo == FreshSlots(m, t) && !IsFresh(m, slot, t)
  {
  }

  /** `VerifyDeviceSlot`: counts, changes nothing. */
  method VerifyDeviceSlot(active: ActiveMap?, slot: Slot, limit: int, clock: Clock)
    returns (allowed: bool, ghost t: int)
    requires (active as object?) != clock
    modifies clock
    ensures old(clock.now) <= t <= clock.now
    ensures allowed == Verdict(if active == null then map[] else active.m, slot, limit, t)
  {
    t := clock.now;
    if limit <= 0 { return true, t; }
    var now := clock.Now();
    t := now;
    var entries := if active == null then map[] else active.m;
    var count, todo := 0, entries.Keys;
    while todo != {}
      invariant (if active == null then map[] else active.m) == entries && clock.now == now
      invariant todo <= entries.Keys && slot !in FreshSlots(entries, now) - todo
      invariant count == |FreshSlots(entries, now) - todo|
      decreases |todo|
    {
      var key :| key in todo;
      FreshStep(entries, now, todo, key);
      todo := todo - {key};
      if now - entries[key] > SLOT_EXPIRY { continue; }
      if key == slot { return true, t; }
      count := count + 1;
    }
    FreshCounted(entries, now, todo, slot);
    return count < limit, t;
  }

  // ---------------------------------------------------------------- admission

  /** The service's lock. `found` is the book, and `foundAt` the time, when the lock was last taken back. */
  class Lock {
    ghost var found: map<Slot, int>
    ghost var foundAt: int

    /** Other threads between unlock and lock: they may do anything to the book but break its pairing. */
    method OthersRun(slots: SlotSet, active: ActiveMap, clock: Clock)
      requires (slots as object) != active && (slots as object) != clock && (active as object) != clock
      requires (this as object) != slots && (this as object) != active && (this as object) != clock
      modifies this, slots, active, clock
      ensures Paired(slots, active) && found == active.m && old(clock.now) <= foundAt == clock.now
    {
      var m: map<Slot, int> := *;
      active.m := m - {""};
      slots.s := active.m.Keys;
      var t := clock.Now();
      found, foundAt := active.m, t;
    }
  }

  datatype Grant = Grant(granted: bool, target: Slot)

  const NO_GRANT: Grant := Grant(false, "")

  /** The official client's confirmation, fetched from the panel: how often it was asked, and its last answer. */
  class Panel {
    ghost var asked: nat
    ghost var last: Grant

    method ConsumeReclaimGrant() returns (grant: Grant)
      modifies this
      ensures asked == old(asked) + 1 && grant == last
    {
      var granted: bool, target: Slot := *, *;
      grant := Grant(granted, target);
      asked, last := asked + 1, grant;
    }
  }

  /** What a caller says of a slot: the limit that counts now, and whether it is still authorized. */
  datatype Answer = Answer(limit: int, authorized: bool)

  /** The caller's `current`: limit and authorization may have changed since the last look. */
  class Current {
    ghost var answers: seq<Answer>

    method Ask() returns (limit: int, authorized: bool)
      modifies this
      ensures answers == old(answers) + [Answer(limit, authorized)]
    {
      limit, authorized := *, *;
      answers := answers + [Answer(limit, authorized)];
    }
  }

  /** What one admission did to the book it found after its last purge. */
  ghost predicate Admitted(before: map<Slot, int>, after: map<Slot, int>, slot: Slot, limit: int, grant: Grant,
                           kicked: seq<Slot>, t: int)
  {
    && EvictedInTurn(before, grant.target, kicked)
    && after == (before - Gone(kicked))[slot := t]
    && (if Full(before, slot, limit) then grant.granted && |kicked| == |before| - limit + 1 else kicked == [])
  }

  predicate Full(m: map<Slot, int>, slot: Slot, limit: int) {
    slot !in m && 0 < limit <= |m|
  }

  datatype Outcome = Allowed | Refused | AskPanel

  /** One round under the lock: purge, then renew, register, make room, refuse, or ask the panel. */
  method AdmitRound(slots: SlotSet, active: ActiveMap, clock: Clock, slot: Slot, limit: int, grant: Grant,
                    grantChecked: bool)
    returns (outcome: Outcome, kicked: seq<Slot>, ghost before: map<Slot, int>, ghost purgedAt: int)
    requires Paired(slots, active) && slot != ""
    requires (slots as object) != active && (slots as object) != clock && (active as object) != clock
    modifies slots, active, clock
    ensures Paired(slots, active) && old(clock.now) <= clock.now && "" !in before
    ensures old(clock.now) <= purgedAt <= clock.now && before == Purged(old(active.m), purgedAt)
    ensures outcome ==
              (if grant.granted || !Full(before, slot, limit) then Allowed
               else if grantChecked then Refused else AskPanel)
    ensures outcome != Allowed ==> kicked == [] && active.m == before
    ensures outcome == Allowed ==> Admitted(before, active.m, slot, limit, grant, kicked, clock.now)
  {
    kicked := [];
    var count;
    count, purgedAt := PurgeStaleDeviceSlots(slots, active, clock);
    before := active.m;
    assert before - Gone([]) == before;
    if slot in slots.s {
      Register(slots, active, clock, slot);
      return Allowed, kicked, before, purgedAt;
    }
    if limit > 0 && count >= limit {
      var oldest := PeekOldest(active);
      if oldest.None? { assert false; return; }
      if !grant.granted {
        return if grantChecked then Refused else AskPanel, kicked, before, purgedAt;
      }
      kicked := MakeRoom(slots, active, grant.target, limit, count);
    }
    Register(slots, active, clock, slot);
    outcome := Allowed;
  }

  /** Set the slot's activity to now, and put it into the set if it is not there. */
  method Register(slots: SlotSet, active: ActiveMap, clock: Clock, slot: Slot)
    requires Paired(slots, active) && slot != ""
    requires (slots as object) != active && (slots as object) != clock && (active as object) != clock
    modifies slots, active, clock
    ensures Paired(slots, active) && old(clock.now) <= clock.now && active.m == old(active.m)[slot := clock.now]
  {
    slots.s := slots.s + {slot};
    var now := clock.Now();
    active.m := active.m[slot := now];
  }

  /** The things an admission works on are different objects. */
  ghost predicate Distinct(panel: Panel, lock: Lock, slots: SlotSet, active: ActiveMap, clock: Clock, current: Current?)
  {
    && (slots as object) != active && (slots as object) != clock && (active as object) != clock
    && (panel as object) != slots && (panel as object) != active && (panel as object) != clock
    && (panel as object) != lock
    && (lock as object) != slots && (lock as object) != active && (lock as object) != clock
    && (current as object?) != slots && (current as object?) != active && (current as object?) != clock
    && (current as object?) != panel && (current as object?) != lock
  }

  /** What an admission saw. `first` and `last` are what the caller said in the first and in the last round, `firstAt`
      and `lastAt` when those rounds purged the book, and `before` what the last one left of it. */
  datatype Trace = Trace(first: Answer, firstAt: int, last: Answer, lastAt: int, before: map<Slot, int>)

  /** The rounds of an admission: one, or two with a question to the panel in between. `begun` and `begunAt` are book
      and time on entry, `found` and `foundAt` those when the lock was taken back. */
  ghost predicate Traced(trace: Trace, asked: bool, slot: Slot, begun: map<Slot, int>, begunAt: int,
                         found: map<Slot, int>, foundAt: int)
  {
    && begunAt <= trace.firstAt
    && (asked <==> trace.first.authorized && Full(Purged(begun, trace.firstAt), slot, trace.first.limit))
    && (if asked then foundAt <= trace.lastAt else trace.last == trace.first && trace.lastAt == trace.firstAt)
    && trace.before == Purged(if asked then found else begun, trace.lastAt)
  }

  /** How an admission ends: refused exactly if the caller is no longer authorized, or if the last round found the
      book full and the panel had not granted; and what it leaves of the book. `last` is what the panel said when it
      was asked last. */
  ghost predicate Decided(allowed: bool, grant: Grant, kicked: seq<Slot>, trace: Trace, asked: bool, last: Grant,
                          slot: Slot, begun: map<Slot, int>, begunAt: int, found: map<Slot, int>, foundAt: int,
                          after: map<Slot, int>, now: int)
  {
    && Traced(trace, asked, slot, begun, begunAt, found, foundAt) && trace.lastAt <= now
    && grant == (if asked then last else NO_GRANT)
    && (allowed <==> trace.last.authorized && (grant.granted || !Full(trace.before, slot, trace.last.limit)))
    && (allowed ==> Admitted(trace.before, after, slot, trace.last.limit, grant, kicked, now))
    && (!allowed ==>
          && kicked == []
          && after == if trace.last.authorized then trace.before else if asked then found else begun)
  }

  /** `AdmitDeviceSlot`. The lock is held on entry and on return, and given up only to ask the panel. It asks exactly
      if the first round finds the book full, and then decides as `Decided` says. */
  method AdmitDeviceSlot(panel: Panel, lock: Lock, slots: SlotSet, active: ActiveMap, clock: Clock, slot: Slot,
                         deviceLimit: int, current: Current?)
    returns (allowed: bool, grant: Grant, kicked: seq<Slot>, ghost trace: Trace)
    requires Paired(slots, active) && Distinct(panel, lock, slots, active, clock, current)
    modifies panel, lock, slots, active, clock, current
    ensures Paired(slots, active) && old(clock.now) <= clock.now
    ensures panel.asked == old(panel.asked) || panel.asked == old(panel.asked) + 1
    ensures slot == "" ==>
              && !allowed && kicked == [] && active.m == old(active.m) && panel.asked == old(panel.asked)
              && (current != null ==> current.answers == old(current.answers))
    ensures slot != "" ==>
              var asked := panel.asked != old(panel.asked);
              && Decided(allowed, grant, kicked, trace, asked, panel.last, slot, old(active.m), old(clock.now),
                         lock.found, lock.foundAt, active.m, clock.now)
              && (if current == null then
                    trace.first == trace.last == Answer(deviceLimit, true)
                  else
                    current.answers ==
                    old(current.answers) + if asked then [trace.first, trace.last] else [trace.first])
  {
    grant, kicked := NO_GRANT, [];
    ghost var first, firstAt, before := Answer(deviceLimit, true), clock.now, active.m;
    trace := Trace(first, firstAt, first, firstAt, before);
    if slot == "" { return false, grant, kicked, trace; }
    var limit, grantChecked := deviceLimit, false;
    while true
      invariant Paired(slots, active) && old(clock.now) <= clock.now && kicked == []
      invariant current == null ==> limit == deviceLimit && first == Answer(deviceLimit, true)
      invariant current != null ==> current.answers == old(current.answers) + if grantChecked then [first] else []
      invariant panel.asked == old(panel.asked) + (if grantChecked then 1 else 0)
      invariant grant == if grantChecked then panel.last else NO_GRANT
      invariant grantChecked ==>
                  && first.authorized && old(clock.now) <= firstAt
                  && Full(Purged(old(active.m), firstAt), slot, first.limit)
                  && active.m == lock.found && lock.foundAt <= clock.now
      invariant !grantChecked ==> active.m == old(active.m)
      decreases !grantChecked
    {
      ghost var begun := clock.now;
      var authorized := true;
      if current != null { limit, authorized := current.Ask(); }
      ghost var said := Answer(limit, authorized);
      if !authorized {
        trace := if grantChecked then Trace(first, firstAt, said, begun, Purged(active.m, begun))
                 else Trace(said, begun, said, begun, Purged(active.m, begun));
        return false, grant, kicked, trace;
      }
      var outcome;
      ghost var at;
      outcome, kicked, before, at := AdmitRound(slots, active, clock, slot, limit, grant, grantChecked);
      trace := if grantChecked then Trace(first, firstAt, said, at, before) else Trace(said, at, said, at, before);
      if outcome != AskPanel { return outcome == Allowed, grant, kicked, trace; }
      first, firstAt := said, at;
      grant := panel.ConsumeReclaimGrant();
      grantChecked := true;
      lock.OthersRun(slots, active, clock);
    }
  }

  /** The eviction loop: from `count` slots down to one below the limit. */
  method MakeRoom(slots: SlotSet, active: ActiveMap, chosen: Slot, limit: int, count: nat) returns (kicked: seq<Slot>)
    requires Paired(slots, active) && count == |active.m| && limit > 0 && count >= limit && (slots as object) != active
    modifies slots, active
    ensures Paired(slots, active) && EvictedInTurn(old(active.m), chosen, kicked)
    ensures active.m == old(active.m) - Gone(kicked) && |kicked| == count - limit + 1
  {
    kicked := [];
    var target, left: int := chosen, count;
    while limit > 0 && left >= limit
      invariant Paired(slots, active) && limit - 1 <= left == |active.m| && |kicked| == count - left
      invariant EvictedInTurn(old(active.m), chosen, kicked) && active.m == old(active.m) - Gone(kicked)
      invariant target == if kicked == [] then chosen else ""
    {
      var victim := EvictDeviceSlot(slots, active, target);
      if victim.None? { assert false; return; }
      EvictOneMore(old(active.m), chosen, kicked, victim.value);
      kicked := kicked + [victim.value];
      target := "";
      left := left - 1;
    }
  }

  /** What an admission means: the slot is in; the book holds at most as many slots as were fresh or the limit
      allows; only the kicked ones left, the client's choice first and otherwise none younger than a survivor. */
  lemma AdmissionIs(before: map<Slot, int>, after: map<Slot, int>, slot: Slot, limit: int, grant: Grant,
                    kicked: seq<Slot>, t: int)
    requires "" !in before && Admitted(before, after, slot, limit, grant, kicked, t)
    ensures slot in after && after.Keys == before.Keys - Gone(kicked) + {slot}
    ensures limit > 0 ==> |after| <= if |before| > limit then |before| else limit
    ensures kicked != [] ==> grant.granted && |after| == limit && slot !in before && Gone(kicked) <= before.Keys
    ensures kicked != [] && grant.target in before ==> kicked[0] == grant.target
    ensures forall v, k :: v in kicked && v in before && v != grant.target && k in before && k !in kicked ==>
              before[v] <= before[k]
  {
    EvictionSize(before, grant.target, kicked);
    var left := before - Gone(kicked);
    assert after.Keys == left.Keys + {slot};
    if slot in left {
      assert after.Keys == left.Keys;
    }
    forall v, k | v in kicked && v in before && v != grant.target && k in before && k !in kicked
      ensures before[v] <= before[k]
    {
      EvictionAge(before, grant.target, kicked, v, k);
    }
  }

  /** The slots of a book that were active within the last minute. */
  function ActiveAt(m: map<Slot, int>, t: int): set<Slot> {
    set s | s in m && t - m[s] <= 60 * SECOND
  }

  /** When there is no room for a slot: it was not active within the last minute, and at least as many others as the
      limit were. A re-check allows exactly what an admission would let in without asking the panel. */
  lemma RoomExactly(m: map<Slot, int>, slot: Slot, limit: int, t: int)
    ensures Full(Purged(m, t), slot, limit) <==>
              limit > 0 && slot !in ActiveAt(m, t) && |ActiveAt(m, t)| >= limit
    ensures Verdict(m, slot, limit, t) <==> !Full(Purged(m, t), slot, limit)
    ensures Purged(m, t).Keys == ActiveAt(m, t) && forall s :: s in Purged(m, t) ==> Purged(m, t)[s] == m[s]
  {
    assert Purged(m, t).Keys == ActiveAt(m, t) == FreshSlots(m, t);
    assert |Purged(m, t)| == |Purged(m, t).Keys|;
  }

  /** The bound of an admission, from the book as the last round found it: at most as many slots as were fresh in it,
      or as the limit allows. */
  lemma AdmissionBound(found: map<Slot, int>, at: int, after: map<Slot, int>, slot: Slot, limit: int, grant: Grant,
                       kicked: seq<Slot>, t: int)
    requires "" !in found && limit > 0 && Admitted(Purged(found, at), after, slot, limit, grant, kicked, t)
    ensures |after| <= if |FreshSlots(found, at)| > limit then |FreshSlots(found, at)| else limit
  {
    AdmissionIs(Purged(found, at), after, slot, limit, grant, kicked, t);
    assert Purged(found, at).Keys == FreshSlots(found, at);
  }

  // ---------------------------------------------------------------- re-checks

  /** The two tables of a service: the halves of the book each auth key uses, possibly shared between keys. */
  class Tables {
    var slots: map<string, SlotSet>
    var active: map<string, ActiveMap>

    constructor ()
      ensures slots == map[] && active == map[]
    {
      slots, active := map[], map[];
    }

    /** Every key has both halves or neither, the halves of a key belong together, and keys sharing one half
        share the other. */
    ghost predicate Valid()
      reads this, slots.Values, active.Values
    {
      Aligned(slots, active) && AllPaired(slots, active)
    }

    function Book(key: string): (m: map<Slot, int>)
      reads this, if key in active then {active[key]} else {}
    {
      if key in active then active[key].m else map[]
    }

    /** `EnsureDeviceSlot`: renew, or register again if there is room; never evict. `at` is when it looked, and
        `stamp` the activity it wrote. */
    method EnsureDeviceSlot(clock: Clock, key: string, slot: Slot, limit: int)
      returns (online: bool, due: bool, ghost at: int, ghost stamp: int)
      requires Valid() && (clock as object) != this && (clock as object) !in slots.Values &&
               (clock as object) !in active.Values
      modifies this, clock, if key in slots then {slots[key]} else {}, if key in active then {active[key]} else {}
      ensures Valid() && old(clock.now) <= stamp <= at <= clock.now
      ensures online == (slot != "" && Verdict(old(Book(key)), slot, limit, at))
      ensures due <==> online && !(slot in old(Book(key)) && at - old(Book(key))[slot] < ONLINE_TOUCH)
      ensures Book(key) == if due then old(Book(key))[slot := stamp] else old(Book(key))
      ensures !due || key in old(slots) ==> slots == old(slots) && active == old(active)
      ensures forall k :: k != key ==>
                (k in slots <==> k in old(slots)) &&
                (k in slots ==> slots[k] == old(slots)[k] && active[k] == old(active)[k])
      ensures due && key !in old(slots) ==> fresh(slots[key]) && fresh(active[key])
    {
      at, stamp := clock.now, clock.now;
      if slot == "" { return false, false, at, stamp; }
      var now := clock.Now();
      at, stamp := now, now;
      if key in active && slot in active[key].m && now - active[key].m[slot] <= SLOT_EXPIRY {
        if now - active[key].m[slot] < ONLINE_TOUCH { return true, false, at, stamp; }
        Put(key, slot, now);
        return true, true, at, stamp;
      }
      var allowed;
      allowed, at := VerifyDeviceSlot(if key in active then active[key] else null, slot, limit, clock);
      if !allowed { return false, false, at, stamp; }
      Open(key);
      Put(key, slot, now);
      return true, true, at, stamp;
    }

    /** A key without a book gets an empty one. */
    method Open(key: string)
      requires Valid()
      modifies this
      ensures Valid() && key in slots && Book(key) == old(Book(key))
      ensures key in old(slots) ==> slots == old(slots) && active == old(active)
      ensures key !in old(slots) ==>
                && fresh(slots[key]) && fresh(active[key])
                && slots == old(slots)[key := slots[key]] && active == old(active)[key := active[key]]
    {
      if key !in active {
        var a := new ActiveMap();
        var s := new SlotSet();
        active, slots := active[key := a], slots[key := s];
      }
    }

    method Put(key: string, slot: Slot, t: int)
      requires Valid() && key in slots && slot != ""
      modifies slots[key], active[key]
      ensures Valid() && active[key].m == old(active[key].m)[slot := t]
    {
      slots[key].s := slots[key].s + {slot};
      active[key].m := active[key].m[slot := t];
    }
  }

  /** Re-registering under a limit leaves at most max(fresh before, limit) fresh slots. */
  lemma EnsureBound(m: map<Slot, int>, slot: Slot, limit: int, at: int, stamp: int)
    requires limit > 0 && stamp <= at && Verdict(m, slot, limit, at)
    ensures |FreshSlots(m[slot := stamp], at)| <= if |FreshSlots(m, at)| > limit then |FreshSlots(m, at)| else limit
  {
    var before, after := FreshSlots(m, at), FreshSlots(m[slot := stamp], at);
    if IsFresh(m, slot, at) {
      SubsetSize(after, before);
    } else {
      SubsetSize(after, before + {slot});
    }
  }
}
