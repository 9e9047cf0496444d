/** The user sync of a service, as far as it moves books of online slots between auth keys. */
module AccountBooks {
  import opened Wrappers
  import opened DeviceSlots
  import opened BookSharing

  method FilterBook(slots: SlotSet, active: ActiveMap, valid: set<Slot>)
    requires Paired(slots, active) && (slots as object) != active
    modifies slots, active
    ensures Paired(slots, active) && active.m == Kept(old(active.m), valid)
    ensures forall s :: s in active.m <==> s in old(active.m) && (!BeginsClient(s) || s in valid)
    ensures forall s :: s in active.m ==> active.m[s] == old(active.m)[s]
  {
    var entries := active.m;
    var todo := entries.Keys;
    while todo != {}
      invariant todo <= entries.Keys && Paired(slots, active)
      invariant forall s :: s in active.m <==> s in entries && (s in todo || !IsClientOnlineKey(s) || s in valid)
      invariant forall s :: s in active.m ==> active.m[s] == entries[s]
      decreases |todo|
    {
      var slot :| slot in todo;
      todo := todo - {slot};
      if IsClientOnlineKey(slot) && slot !in valid {
        active.m := active.m - {slot};
        slots.s := slots.s - {slot};
      }
    }
    assert active.m == Kept(entries, valid);
    forall s ensures IsClientOnlineKey(s) <==> BeginsClient(s) { PrefixBegins(s); }
  }

  /** The first loop of `ReconcileDeviceSlots`. A book shared by several keys is filtered several times. */
  method DropDelisted(slots: map<string, SlotSet>, active: map<string, ActiveMap>, valid: set<Slot>)
    requires Aligned(slots, active) && AllPaired(slots, active)
    modifies slots.Values, active.Values
    ensures AllPaired(slots, active)
    ensures forall k :: k in active ==> active[k].m == Kept(old(active[k].m), valid)
  {
    var todo := active.Keys;
    while todo != {}
      invariant todo <= active.Keys && AllPaired(slots, active)
      invariant forall k :: k in active ==>
        active[k].m == Kept(old(active[k].m), valid) || (k in todo && active[k].m == old(active[k].m))
      decreases |todo|
    {
      var key :| key in todo;
      KeptTwice(old(active[key].m), valid);
      FilterBook(slots[key], active[key], valid);
      todo := todo - {key};
    }
  }

  /** The second loop of `ReconcileDeviceSlots`: one book for every account that has one already. */
  method CollectBooks(slots: map<string, SlotSet>, active: map<string, ActiveMap>, users: seq<User>)
    returns (shared: map<int, Book>)
    ensures Collected(shared, users, slots, active)
  {
    shared := map[];
    for i := 0 to |users|
      invariant forall j :: 0 <= j < i && users[j].clientID != 0 && BookOf(slots, active, users[j]).Some? ==>
                  users[j].uid in shared
      invariant forall uid :: uid in shared ==>
                  exists j :: 0 <= j < i && Offers(slots, active, users[j], uid, shared[uid])
    {
      var u := users[i];
      if u.clientID == 0 { continue; }
      var keys := KeysOf(u);
      ghost var before := shared;
      for n := 0 to |keys|
        invariant shared == before
        invariant n >= 1 ==> !(u.uuid in slots && u.uuid in active)
        invariant n >= 2 ==> !(u.passwd in slots && u.passwd in active)
      {
        if keys[n] in slots && keys[n] in active {
          shared := shared[u.uid := Book(slots[keys[n]], active[keys[n]])];
          assert Offers(slots, active, u, u.uid, shared[u.uid]);
          break;
        }
      }
    }
  }

  method ListedSlots(users: seq<User>) returns (valid: set<Slot>)
    ensures valid == ValidSlots(users)
  {
    valid := {};
    for i := 0 to |users|
      invariant valid == ValidSlots(users[..i])
    {
      if users[i].clientID != 0 { valid := valid + {OnlineKey(users[i].clientID, "")}; }
      ValidSlotsSnoc(users, i);
    }
    TakeAll(users);
  }

  /** `ReconcileDeviceSlots`. */
  method ReconcileDeviceSlots(slots: map<string, SlotSet>, active: map<string, ActiveMap>, users: seq<User>)
    returns (shared: map<int, Book>)
    requires Aligned(slots, active) && AllPaired(slots, active)
    modifies slots.Values, active.Values
    ensures AllPaired(slots, active)
    ensures forall k :: k in active ==> active[k].m == Kept(old(active[k].m), ValidSlots(users))
    ensures Collected(shared, users, slots, active)
  {
    var valid := ListedSlots(users);
    DropDelisted(slots, active, valid);
    shared := CollectBooks(slots, active, users);
  }

  /** `ShareAccountSlots`: all keys of an official device go to its account's book, a new one if it has none. */
  method ShareAccountSlots(shared: map<int, Book>, u: User, slots: map<string, SlotSet>, active: map<string, ActiveMap>)
    returns (book: Option<Book>, shared2: map<int, Book>, slots2: map<string, SlotSet>, active2: map<string, ActiveMap>)
    requires slots.Keys == active.Keys && "" !in slots
    ensures u.clientID == 0 ==> book == None && shared2 == shared && slots2 == slots && active2 == active
    ensures u.clientID != 0 ==> book.Some? && shared2 == shared[u.uid := book.value]
    ensures u.clientID != 0 && u.uid in shared ==> book.value == shared[u.uid]
    ensures u.clientID != 0 && u.uid !in shared && BookOf(slots, active, u).Some? ==> book == BookOf(slots, active, u)
    ensures u.clientID != 0 && u.uid !in shared && BookOf(slots, active, u).None? ==>
              && fresh(book.value.slots) && fresh(book.value.active) && book.value.slots.s == {}
              && book.value.active.m == map[]
    ensures book.Some? ==>
              slots2 == Assigned(slots, u, book.value.slots) && active2 == Assigned(active, u, book.value.active)
  {
    shared2, slots2, active2 := shared, slots, active;
    if u.clientID == 0 { return None, shared2, slots2, active2; }
    var keys := KeysOf(u);
    var b;
    if u.uid in shared {
      b := shared[u.uid];
    } else {
      var s: SlotSet?, a: ActiveMap? := null, null;
      for n := 0 to |keys|
        invariant n == 0 ==> s == null && a == null
        invariant n == 1 ==>
                    (u.uuid in slots ==> s == slots[u.uuid] && a == active[u.uuid]) &&
                    (u.uuid !in slots ==> s == null && a == null)
        invariant n == 2 ==>
                    match BookOf(slots, active, u)
                    case Some(found) => s == found.slots && a == found.active
                    case None => s == null && a == null
      {
        var k := keys[n];
        if k == "" { continue; }
        if s == null && k in slots { s := slots[k]; }
        if a == null && k in active { a := active[k]; }
      }
      if s == null { s := new SlotSet(); }
      if a == null { a := new ActiveMap(); }
      b := Book(s, a);
      shared2 := shared2[u.uid := b];
    }
    for n := 0 to |keys|
      invariant n == 0 ==> slots2 == slots && active2 == active
      invariant n == 1 ==>
                  slots2 == AssignedKey(slots, u.uuid, b.slots) && active2 == AssignedKey(active, u.uuid, b.active)
      invariant n == 2 ==> slots2 == Assigned(slots, u, b.slots) && active2 == Assigned(active, u, b.active)
    {
      var k := keys[n];
      if k == "" { continue; }
      slots2, active2 := slots2[k := b.slots], active2[k := b.active];
    }
    book := Some(b);
  }

  method Delete(slots: SlotSet, active: ActiveMap, slot: Slot)
    requires Paired(slots, active) && (slots as object) != active
    modifies slots, active
    ensures Paired(slots, active) && active.m == old(active.m) - {slot}
  {
    slots.s := slots.s - {slot};
    active.m := active.m - {slot};
  }

  /** The kick loop of `syncUsers`: a device whose version changed loses its slot. */
  method KickOut(records: map<string, Record>, u: User, slots: map<string, SlotSet>, active: map<string, ActiveMap>)
    requires Aligned(slots, active) && PairedKeys(slots, active, u)
    modifies set k | k in slots && Bumps(records, u, k) :: slots[k]
    modifies set k | k in active && Bumps(records, u, k) :: active[k]
    ensures PairedKeys(slots, active, u)
    ensures forall k :: k in active && Bumps(records, u, k) ==>
              active[k].m == old(active[k].m) - {OnlineKey(u.clientID, "")}
  {
    KickKey(records, u, u.uuid, slots, active);
    KickKey(records, u, u.passwd, slots, active);
  }

  method KickKey(records: map<string, Record>, u: User, key: string, slots: map<string, SlotSet>,
                 active: map<string, ActiveMap>)
    requires Aligned(slots, active) && PairedKeys(slots, active, u) && key in KeysOf(u)
    modifies if key in slots && Bumps(records, u, key) then {slots[key]} else {}
    modifies if key in active && Bumps(records, u, key) then {active[key]} else {}
    ensures PairedKeys(slots, active, u)
    ensures key in active && Bumps(records, u, key) ==>
              active[key].m == old(active[key].m) - {OnlineKey(u.clientID, "")}
  {
    if key in records && records[key].kickVersion != u.kickVersion {
      if key in slots { Delete(slots[key], active[key], OnlineKey(u.clientID, "")); }
    }
  }

  /** `KickOut` as the account books see it: only the user's own account loses the slot. */
  method KickShared(records: map<string, Record>, u: User, ghost shared: map<int, Book>, slots: map<string, SlotSet>,
                    active: map<string, ActiveMap>,
                    ghost outside: set<string>)
    requires Aligned(slots, active) && PairedKeys(slots, active, u) && SharedPaired(shared)
    requires forall k :: Bumps(records, u, k) && u.clientID != 0 ==>
               k in slots && u.uid in shared && shared[u.uid] == Book(slots[k], active[k])
    requires forall uid, k ::
               uid in shared && k in active && Bumps(records, u, k) && !(uid == u.uid && u.clientID != 0) ==>
               active[k] != shared[uid].active && slots[k] != shared[uid].slots
    requires forall uid, v :: uid in shared && v in shared && uid != v ==>
               shared[uid].active != shared[v].active && shared[uid].slots != shared[v].slots
    requires outside <= active.Keys &&
             forall j, k :: j in outside && k in active && Bumps(records, u, k) && active[j] == active[k] ==>
             u.clientID == 0
    requires forall k :: k in outside ==> Paired(slots[k], active[k])
    modifies slots.Values, active.Values
    ensures SharedPaired(shared)
    ensures forall uid :: uid in shared ==> shared[uid].active.m == old(shared[uid].active.m) - Taken(records, u, uid)
    ensures forall k :: k in outside ==> Paired(slots[k], active[k]) && active[k].m == old(active[k].m)
  {
    KickOut(records, u, slots, active);
    ghost var k := if Bumps(records, u, u.uuid) then u.uuid else u.passwd;
    assert Bumps(records, u, k) || !Changed(records, u);
  }

  /** What the kick loop needs is what the structure says. */
  method KickStep(records: map<string, Record>, users: seq<User>, i: nat, ghost own: string -> Owner,
                  ghost shared: map<int, Book>,
                  slots: map<string, SlotSet>, active: map<string, ActiveMap>)
    requires i < |users| && OwnedAs(own, users) && Structure(shared, users, own, slots, active) &&
             Recorded(records, own, slots)
    requires SharedPaired(shared) && OutsidePaired(slots, active, own)
    modifies slots.Values, active.Values
    ensures SharedPaired(shared) && OutsidePaired(slots, active, own)
    ensures forall uid :: uid in shared ==>
              shared[uid].active.m == old(shared[uid].active.m) - Taken(records, users[i], uid)
    ensures forall k :: k in Outside(active, own) ==> active[k].m == old(active[k].m)
  {
    var u := users[i];
    KickTargets(records, users, i, own, shared, slots, active);
    KickSpares(records, users, i, own, shared, slots, active);
    OutsideAlone(records, u, own, slots, active);
    KickShared(records, u, shared, slots, active, Outside(active, own));
  }

  /** After the kick of one more user, the books hold what the kicks so far have left. */
  method KickMore(records: map<string, Record>, users: seq<User>, i: nat, ghost own: string -> Owner,
                  ghost shared: map<int, Book>,
                  slots: map<string, SlotSet>, active: map<string, ActiveMap>, ghost start: map<int, map<Slot, int>>)
    requires i < |users| && OwnedAs(own, users) && Structure(shared, users, own, slots, active) &&
             Recorded(records, own, slots)
    requires SharedPaired(shared) && OutsidePaired(slots, active, own) && Contents(shared, start, records, users, i)
    modifies slots.Values, active.Values
    ensures SharedPaired(shared) && OutsidePaired(slots, active, own) && Contents(shared, start, records, users, i + 1)
    ensures forall k :: k in Outside(active, own) ==> active[k].m == old(active[k].m)
  {
    ghost var before := StartOf(shared);
    KickStep(records, users, i, own, shared, slots, active);
    ContentsMore(shared, start, records, users, i, before);
  }

  method ShareStep(shared: map<int, Book>, users: seq<User>, i: nat, ghost own: string -> Owner,
                   slots: map<string, SlotSet>, active: map<string, ActiveMap>,
                   ghost region: set<object>)
    returns (shared2: map<int, Book>, slots2: map<string, SlotSet>, active2: map<string, ActiveMap>,
             ghost region2: set<object>)
    requires i < |users| && OwnedAs(own, users) && Structure(shared, users, own, slots, active) &&
             Within(region, shared, slots, active)
    ensures Structure(shared2, users, own, slots2, active2) && Within(region2, shared2, slots2, active2)
    ensures region <= region2 && fresh(region2 - region)
    ensures shared2.Keys == shared.Keys + if users[i].clientID != 0 then {users[i].uid} else {}
    ensures forall uid :: uid in shared ==> shared2[uid] == shared[uid]
    ensures forall uid :: uid in shared2 && uid !in shared ==>
              shared2[uid].slots.s == {} && shared2[uid].active.m == map[]
    ensures SameOutside(own, slots, active, slots2, active2)
    ensures forall k :: k in slots2 <==> k in slots || (users[i].clientID != 0 && HasKey(users[i], k))
  {
    var u := users[i];
    var book;
    book, shared2, slots2, active2 := ShareAccountSlots(shared, u, slots, active);
    region2 := region;
    if u.clientID != 0 {
      forall k | HasKey(u, k) ensures own(k).official { OwnedKey(own, users, i, k); }
      AssignOutside(own, slots, u, book.value.slots);
      AssignOutside(own, active, u, book.value.active);
      if u.uid !in shared {
        NoBookYet(shared, users, own, slots, active, i);
        NewBookKeeps(shared, users, own, slots, active, u.uid, book.value);
        region2 := region + {book.value.slots, book.value.active};
      } else {
        assert shared2 == shared;
      }
      AssignBoth(shared2, users, own, slots, active, i);
      WithinAssigned(region2, shared, slots, active, u, u.uid, book.value);
    }
  }

  /** The body of the user loop: kick, then share. */
  method SyncOne(records: map<string, Record>, users: seq<User>, i: nat, ghost own: string -> Owner,
                 shared: map<int, Book>,
                 slots: map<string, SlotSet>, active: map<string, ActiveMap>, ghost start: map<int, map<Slot, int>>,
                 ghost region: set<object>)
    returns (shared2: map<int, Book>, slots2: map<string, SlotSet>, active2: map<string, ActiveMap>,
             ghost region2: set<object>)
    requires i < |users| && OwnedAs(own, users) && Structure(shared, users, own, slots, active) &&
             Recorded(records, own, slots)
    requires SharedPaired(shared) && OutsidePaired(slots, active, own)
    requires start.Keys <= shared.Keys && Contents(shared, start, records, users, i) &&
             Within(region, shared, slots, active)
    modifies region
    ensures Within(region2, shared2, slots2, active2) && region <= region2 && fresh(region2 - region)
    ensures Structure(shared2, users, own, slots2, active2) && Recorded(records, own, slots2)
    ensures SharedPaired(shared2) && OutsidePaired(slots2, active2, own)
    ensures start.Keys <= shared2.Keys && Contents(shared2, start, records, users, i + 1)
    ensures SameOutside(own, slots, active, slots2, active2)
    ensures forall k :: k in Outside(active, own) ==> active[k].m == old(active[k].m)
    ensures forall k :: k in slots2 <==> k in slots || (users[i].clientID != 0 && HasKey(users[i], k))
  {
    KickMore(records, users, i, own, shared, slots, active, start);
    shared2, slots2, active2, region2 := ShareStep(shared, users, i, own, slots, active, region);
    SharedGrows(shared, shared2, start, records, users, i + 1);
    OutsideGrows(own, slots, active, slots2, active2);
  }

  /** Before the user loop. */
  method BeginSync(records: map<string, Record>, users: seq<User>, ghost own: string -> Owner,
                   slots: map<string, SlotSet>, active: map<string, ActiveMap>,
                   ghost held: map<string, map<Slot, int>>)
    returns (shared: map<int, Book>)
    requires Aligned(slots, active) && AllPaired(slots, active) && "" !in slots && OnePerAccount(active, own) &&
             OwnedAs(own, users)
    requires held == Held(active)
    modifies slots.Values, active.Values
    ensures Structure(shared, users, own, slots, active) && SharedPaired(shared) && OutsidePaired(slots, active, own)
    ensures StartIs(StartOf(shared), users, own, held) && Contents(shared, StartOf(shared), records, users, 0)
    ensures Within(slots.Values + active.Values, shared, slots, active)
    ensures OutsideHolds(active, own, held, users)
  {
    shared := ReconcileDeviceSlots(slots, active, users);
    assert forall k :: k in active ==> active[k].m == Kept(held[k], ValidSlots(users));
    BegunStructure(shared, users, own, slots, active);
    BegunPaired(shared, users, own, slots, active);
    BegunContents(shared, users, own, slots, active, held, records);
  }

  /** The user loop of `syncUsers`, as far as it touches books. */
  method SyncBooks(records: map<string, Record>, users: seq<User>, ghost own: string -> Owner,
                   slots: map<string, SlotSet>, active: map<string, ActiveMap>)
    returns (slots2: map<string, SlotSet>, active2: map<string, ActiveMap>, ghost start: map<int, map<Slot, int>>,
             ghost shared: map<int, Book>)
    requires Aligned(slots, active) && AllPaired(slots, active) && "" !in slots && OnePerAccount(active, own)
    requires OwnedAs(own, users) && Recorded(records, own, slots)
    modifies slots.Values, active.Values
    ensures Structure(shared, users, own, slots2, active2) && SharedPaired(shared) &&
            OutsidePaired(slots2, active2, own)
    ensures StartIs(start, users, own, old(Held(active))) && Contents(shared, start, records, users, |users|)
    ensures SameOutside(own, slots, active, slots2, active2) && OutsideHolds(active, own, old(Held(active)), users)
    ensures KeysGrew(slots, slots2, users, |users|)
  {
    ghost var held, region := Held(active), slots.Values + active.Values;
    var books;
    books := BeginSync(records, users, own, slots, active, held);
    start := StartOf(books);
    slots2, active2 := slots, active;
    for i := 0 to |users|
      invariant Structure(books, users, own, slots2, active2) && Recorded(records, own, slots2)
      invariant SharedPaired(books) && OutsidePaired(slots2, active2, own)
      invariant start.Keys <= books.Keys && Contents(books, start, records, users, i)
      invariant SameOutside(own, slots, active, slots2, active2) && OutsideHolds(active, own, held, users)
      invariant KeysGrew(slots, slots2, users, i)
      invariant Within(region, books, slots2, active2) && fresh(region - slots.Values - active.Values)
    {
      ghost var slots1 := slots2;
      books, slots2, active2, region := SyncOne(records, users, i, own, books, slots2, active2, start, region);
      KeysGrow(slots, slots1, slots2, users, i);
    }
    shared := books;
  }

  /** The new records: under each key the first user listed with it. */
  method NewRecords(users: seq<User>) returns (records: map<string, Record>)
    ensures RecordsOf(records, users)
  {
    records := map[];
    for i := 0 to |users|
      invariant RecordsOf(records, users[..i])
    {
      RecordsSnoc(records, users, i);
      var u := users[i];
      if u.uuid != "" && u.uuid !in records { records := records[u.uuid := RecordOf(u)]; }
      if u.passwd != "" && u.passwd !in records { records := records[u.passwd := RecordOf(u)]; }
    }
    TakeAll(users);
  }

  /** The cleaning loops at the end of `syncUsers`. */
  method DropUnlisted<T>(table: map<string, T>, records: map<string, Record>) returns (left: map<string, T>)
    ensures left == Only(table, records)
  {
    left := table;
    var todo := table.Keys;
    while todo != {}
      invariant todo <= table.Keys
      invariant forall k :: k in left <==> k in table && (k in todo || k in records)
      invariant forall k :: k in left ==> left[k] == table[k]
      decreases |todo|
    {
      var k :| k in todo;
      todo := todo - {k};
      if k !in records { left := left - {k}; }
    }
  }

  /** `syncUsers` on the three tables of a service. */
  method SyncTables(records: map<string, Record>, users: seq<User>, ghost own: string -> Owner,
                    slots: map<string, SlotSet>, active: map<string, ActiveMap>)
    returns (slots2: map<string, SlotSet>, active2: map<string, ActiveMap>, records2: map<string, Record>,
             ghost start: map<int, map<Slot, int>>)
    requires Sound(slots, active, records, own) && OwnedAs(own, users)
    modifies slots.Values, active.Values
    ensures Sound(slots2, active2, records2, own) && RecordsOf(records2, users) && active2.Keys <= records2.Keys
    ensures StartIs(start, users, own, old(Held(active))) && OfficialHold(active2, own, start, records, users)
    ensures OutsideKept(active, active2, own, old(Held(active)), users)
  {
    ghost var held := Held(active);
    var s, a;
    ghost var shared;
    s, a, start, shared := SyncBooks(records, users, own, slots, active);
    records2 := NewRecords(users);
    SyncedStructure(shared, users, own, s, a, records2);
    SyncedRecorded(users, own, slots, s, records2);
    SyncedOfficial(shared, users, own, s, a, start, records, records2);
    SyncedOutside(users, own, slots, active, s, a, held, records2);
    slots2 := DropUnlisted(s, records2);
    active2 := DropUnlisted(a, records2);
  }

  /** The part of an AnyTLS service that the sync works on. */
  class Service {
    const tables: Tables
    var users: map<string, Record>

    constructor ()
      ensures users == map[] && fresh(tables) && tables.slots == map[] && tables.active == map[]
    {
      tables := new Tables();
      users := map[];
    }

    /** One book per account, and every official key that may authenticate has one. */
    ghost predicate Valid(own: string -> Owner)
      reads this, tables, tables.slots.Values, tables.active.Values
    {
      Sound(tables.slots, tables.active, users, own)
    }

    /** `syncUsers`. `start` is what each account brought along: the slots of a listed key's book, without
        delisted devices. */
    method SyncUsers(list: seq<User>, ghost own: string -> Owner) returns (ghost start: map<int, map<Slot, int>>)
      requires Valid(own) && OwnedAs(own, list)
      modifies this, tables, tables.slots.Values, tables.active.Values
      ensures Valid(own) && RecordsOf(users, list) && tables.active.Keys <= users.Keys
      ensures StartIs(start, list, own, old(Held(tables.active)))
      ensures OfficialHold(tables.active, own, start, old(users), list)
      ensures OutsideKept(old(tables.active), tables.active, own, old(Held(tables.active)), list)
    {
      var s, a, records;
      s, a, records, start := SyncTables(users, list, own, tables.slots, tables.active);
      Store(s, a, records);
    }

    /** The three assignments touch no book. */
    method Store(s: map<string, SlotSet>, a: map<string, ActiveMap>, records: map<string, Record>)
      modifies this`users, tables`slots, tables`active
      ensures tables.slots == s && tables.active == a && users == records
    {
      users, tables.slots, tables.active := records, s, a;
    }

    /** The local half of a re-check: between syncs a re-check registers and renews, and the books stay one
        per account. `slot` resolves only credentials on record. */
    method EnsureHere(clock: Clock, key: string, slot: Slot, limit: int, ghost own: string -> Owner)
      returns (online: bool, due: bool, ghost at: int, ghost stamp: int)
      requires Valid(own) && key in users
      requires (clock as object) != this && (clock as object) != tables
      requires (clock as object) !in tables.slots.Values && (clock as object) !in tables.active.Values
      modifies tables, clock
      modifies if key in tables.slots then {tables.slots[key]} else {}
      modifies if key in tables.active then {tables.active[key]} else {}
      ensures Valid(own) && old(clock.now) <= stamp <= at <= clock.now
      ensures online == (slot != "" && Verdict(old(tables.Book(key)), slot, limit, at))
      ensures due <==> online && !(slot in old(tables.Book(key)) && at - old(tables.Book(key))[slot] < ONLINE_TOUCH)
      ensures tables.Book(key) == if due then old(tables.Book(key))[slot := stamp] else old(tables.Book(key))
      ensures tables.slots - {key} == old(tables.slots) - {key} && tables.active - {key} == old(tables.active) - {key}
      ensures key in tables.slots && key !in old(tables.slots) ==> fresh(tables.slots[key]) && fresh(tables.active[key])
      ensures key in old(tables.slots) ==> tables.slots == old(tables.slots) && tables.active == old(tables.active)
    {
      ghost var slots, active := tables.slots, tables.active;
      online, due, at, stamp := tables.EnsureDeviceSlot(clock, key, slot, limit);
      SameElsewhere(slots, tables.slots, key);
      SameElsewhere(active, tables.active, key);
      StillSound(slots, active, tables.slots, tables.active, users, own, key);
    }

    /** `slot`: the slot a credential takes, while it is on record, unexpired and, if one is asked for, of that kick
        version. */
    method Resolve(key: string, host: string, version: Option<nat>, expired: bool) returns (slot: Option<Slot>)
      ensures slot == Resolved(users, key, host, version, expired)
    {
      if key !in users || (version.Some? && users[key].kickVersion != version.value) || expired {
        return None;
      }
      slot := Some(OnlineKey(users[key].clientID, host));
    }

    /** `releaseOnline`: the credential's slot leaves its book, if the credential still is what it was. */
    method ReleaseOnline(key: string, host: string, version: nat, expired: bool, ghost own: string -> Owner)
      requires Valid(own)
      modifies if key in tables.slots then {tables.slots[key]} else {}
      modifies if key in tables.active then {tables.active[key]} else {}
      ensures Valid(own) && tables.slots == old(tables.slots) && tables.active == old(tables.active)
      ensures tables.Book(key) == match Resolved(users, key, host, Some(version), expired)
                                  case None => old(tables.Book(key))
                                  case Some(slot) => old(tables.Book(key)) - {slot}
    {
      var slot := Resolve(key, host, Some(version), expired);
      if slot.Some? && key in tables.slots {
        Delete(tables.slots[key], tables.active[key], slot.value);
      }
    }

    /** A re-check of the slot a credential on record takes. */
    method EnsureSlot(clock: Clock, key: string, host: string, slot: Slot, limit: int, globally: bool,
                      expiredLater: bool, ghost own: string -> Owner)
      returns (online: bool, ghost at: int, ghost stamp: int)
      requires Valid(own) && Resolved(users, key, host, None, false) == Some(slot)
      requires (clock as object) != this && (clock as object) != tables
      requires (clock as object) !in tables.slots.Values && (clock as object) !in tables.active.Values
      modifies tables, clock
      modifies if key in tables.slots then {tables.slots[key]} else {}
      modifies if key in tables.active then {tables.active[key]} else {}
      ensures Valid(own) && old(clock.now) <= stamp <= at <= clock.now
      ensures Rechecked(Some(slot), limit, globally, expiredLater, online, old(tables.Book(key)), tables.Book(key), at,
                        stamp)
      ensures tables.slots - {key} == old(tables.slots) - {key} && tables.active - {key} == old(tables.active) - {key}
    {
      var kickVersion, due := users[key].kickVersion, false;
      ghost var was := tables.Book(key);
      online, due, at, stamp := EnsureHere(clock, key, slot, limit, own);
      if online && due && !globally {
        ReleaseOnline(key, host, kickVersion, expiredLater, own);
        online := false;
        RenewedGone(was, slot, stamp);
      }
    }

    /** `ensureOnline`. The limit is the record's, unless the cross-node check enforces one; `globally` is its verdict,
        asked for only when a renewal is due. Who is refused there gives up the slot. */
    method EnsureOnline(clock: Clock, key: string, host: string, version: Option<nat>, enforcing: bool, limit: int,
                        expired: bool, globally: bool, expiredLater: bool, ghost own: string -> Owner)
      returns (online: bool, ghost at: int, ghost stamp: int)
      requires Valid(own)
      requires (clock as object) != this && (clock as object) != tables
      requires (clock as object) !in tables.slots.Values && (clock as object) !in tables.active.Values
      modifies tables, clock
      modifies if key in tables.slots then {tables.slots[key]} else {}
      modifies if key in tables.active then {tables.active[key]} else {}
      ensures Valid(own) && old(clock.now) <= stamp <= at <= clock.now
      ensures Rechecked(Resolved(users, key, host, version, expired), if enforcing then 0 else limit, globally,
                        expiredLater, online, old(tables.Book(key)), tables.Book(key), at, stamp)
      ensures tables.slots - {key} == old(tables.slots) - {key} && tables.active - {key} == old(tables.active) - {key}
    {
      at, stamp := clock.now, clock.now;
      var slot := Resolve(key, host, version, expired);
      if slot == None { return false, at, stamp; }
      online, at, stamp :=
        EnsureSlot(clock, key, host, slot.value, if enforcing then 0 else limit, globally, expiredLater, own);
    }

    /** The things an admission needs beside the books. */
    ghost predicate Outside(panel: Panel, lock: Lock, clock: Clock, current: Current?)
      reads this, tables
    {
      && (panel as object) != lock && (panel as object) != clock && (lock as object) != clock
      && (current as object?) != panel && (current as object?) != lock && (current as object?) != clock
      && Apart(panel) && Apart(lock) && Apart(clock) && (current != null ==> Apart(current))
    }

    ghost predicate Apart(o: object)
      reads this, tables
    {
      && o != this && o != tables
      && (forall k :: k in tables.slots ==> tables.slots[k] != o)
      && (forall k :: k in tables.active ==> tables.active[k] != o)
    }

    /** A book for a credential on record that has none. */
    method OpenBook(key: string, ghost own: string -> Owner)
      requires Valid(own) && key in users
      modifies tables
      ensures Valid(own) && key in tables.slots && key in tables.active && tables.Book(key) == old(tables.Book(key))
      ensures key in old(tables.active) ==> tables.active == old(tables.active) && tables.slots == old(tables.slots)
      ensures key !in old(tables.active) ==>
                && fresh(tables.slots[key]) && fresh(tables.active[key])
                && tables.slots == old(tables.slots)[key := tables.slots[key]]
                && tables.active == old(tables.active)[key := tables.active[key]]
    {
      ghost var slots, active := tables.slots, tables.active;
      tables.Open(key);
      StillSound(slots, active, tables.slots, tables.active, users, own, key);
    }

    /** Admission on the book of a credential that has one. */
    method AdmitOn(panel: Panel, lock: Lock, clock: Clock, current: Current?, key: string, slot: Slot, deviceLimit: int,
                   ghost own: string -> Owner)
      returns (allowed: bool, grant: Grant, kicked: seq<Slot>, ghost trace: Trace)
      requires Valid(own) && key in tables.slots && key in tables.active && Outside(panel, lock, clock, current)
      modifies panel, lock, clock, current, tables.slots[key], tables.active[key]
      ensures Valid(own)
      ensures panel.asked == old(panel.asked) || panel.asked == old(panel.asked) + 1
      ensures slot == "" ==> !allowed && tables.Book(key) == old(tables.Book(key))
      ensures slot != "" ==>
                Decided(allowed, grant, kicked, trace, panel.asked != old(panel.asked), panel.last, slot,
                        old(tables.Book(key)), old(clock.now), lock.found, lock.foundAt, tables.Book(key), clock.now)
    {
      ghost var s, a := tables.slots[key], tables.active[key];
      allowed, grant, kicked, trace :=
        AdmitDeviceSlot(panel, lock, tables.slots[key], tables.active[key], clock, slot, deviceLimit, current);
      assert forall k :: k in tables.slots ==> (tables.slots[k] == s <==> tables.active[k] == a);
    }

    /** The last part of `allowConnection`: open the credential's book if it has none, and admit on it. */
    method AdmitHere(panel: Panel, lock: Lock, clock: Clock, current: Current?, key: string, slot: Slot, limit: int,
                     ghost own: string -> Owner)
      returns (allowed: bool, grant: Grant, kicked: seq<Slot>, ghost trace: Trace)
      requires Valid(own) && key in users && Outside(panel, lock, clock, current)
      modifies tables, panel, lock, clock, current
      modifies if key in tables.slots then {tables.slots[key]} else {}
      modifies if key in tables.active then {tables.active[key]} else {}
      ensures Valid(own)
      ensures tables.slots - {key} == old(tables.slots) - {key} && tables.active - {key} == old(tables.active) - {key}
      ensures panel.asked == old(panel.asked) || panel.asked == old(panel.asked) + 1
      ensures slot == "" ==> !allowed && tables.Book(key) == old(tables.Book(key))
      ensures slot != "" ==>
                Decided(allowed, grant, kicked, trace, panel.asked != old(panel.asked), panel.last, slot,
                        old(tables.Book(key)), old(clock.now), lock.found, lock.foundAt, tables.Book(key), clock.now)
    {
      ghost var slots, active := tables.slots, tables.active;
      OpenBook(key, own);
      SameElsewhere(slots, tables.slots, key);
      SameElsewhere(active, tables.active, key);
      allowed, grant, kicked, trace := AdmitOn(panel, lock, clock, current, key, slot, limit, own);
    }

    /** `allowConnection`. `globally` is the cross-node verdict; `limit` the record's device limit; `expired` and
        `expiredLater` say whether the credential had expired at the first and at the second look. It admits exactly
        a credential on record, unexpired at both looks, with a good verdict, whom the book's admission lets in. No
        other book changes. */
    method AllowConnection(panel: Panel, lock: Lock, clock: Clock, current: Current?, key: string, host: string,
                           limit: int, expired: bool, globally: bool, expiredLater: bool, ghost own: string -> Owner)
      returns (allowed: bool, ghost grant: Grant, ghost kicked: seq<Slot>, ghost trace: Trace)
      requires Valid(own) && Outside(panel, lock, clock, current)
      modifies tables, panel, lock, clock, current
      modifies if key in tables.slots then {tables.slots[key]} else {}
      modifies if key in tables.active then {tables.active[key]} else {}
      ensures Valid(own)
      ensures tables.slots - {key} == old(tables.slots) - {key} && tables.active - {key} == old(tables.active) - {key}
      ensures var slot, was, book := Resolved(users, key, host, None, expired), old(tables.Book(key)), tables.Book(key);
              Connects(slot, globally, expiredLater, allowed, grant, kicked, trace, panel.asked != old(panel.asked),
                       panel.last, was, old(clock.now), lock.found, lock.foundAt, book, clock.now)
    {
      allowed, grant, kicked := false, NO_GRANT, [];
      trace := Trace(Answer(limit, false), clock.now, Answer(limit, false), clock.now, map[]);
      var slot := Resolve(key, host, None, expired);
      if slot == None { return; }
      var version := users[key].kickVersion;
      if !globally {
        ReleaseOnline(key, host, version, expiredLater, own);
        return;
      }
      var again := Resolve(key, host, Some(version), expiredLater);
      if again == None { return; }
      allowed, grant, kicked, trace := AdmitHere(panel, lock, clock, current, key, slot.value, limit, own);
    }
  }
}
