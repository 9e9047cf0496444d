/** Who may use which book of online slots: official devices share their account's, every third-party
    credential has its own. */
module BookSharing {
  import opened Wrappers
  import opened DeviceSlots
  import opened Decimal

  const CLIENT_PREFIX: string := "client-"

  /** Official devices take a slot by their id, third parties by their exit address. */
  function OnlineKey(clientID: int, ip: string): Slot {
    if clientID != 0 then CLIENT_PREFIX + Itoa(clientID) else ip
  }

  predicate IsClientOnlineKey(key: Slot) {
    CLIENT_PREFIX <= key
  }

  function ClientIDFromOnlineKey(key: Slot): int {
    if !IsClientOnlineKey(key) || !AtoiOk(key[|CLIENT_PREFIX|..]) then 0 else Atoi(key[|CLIENT_PREFIX|..])
  }

  /** A slot identifier names its device; a third party's names none. */
  lemma OnlineKeyRoundTrip(clientID: int, ip: string)
    requires -MAX_INT64 - 1 <= clientID <= MAX_INT64
    ensures clientID != 0 ==>
              IsClientOnlineKey(OnlineKey(clientID, ip)) && ClientIDFromOnlineKey(OnlineKey(clientID, ip)) == clientID
    ensures clientID == 0 && !IsClientOnlineKey(ip) ==> ClientIDFromOnlineKey(OnlineKey(clientID, ip)) == 0
  {
    if clientID != 0 {
      assert OnlineKey(clientID, ip)[|CLIENT_PREFIX|..] == Itoa(clientID);
      AtoiOfItoa(clientID);
      ValueOfDigits(if clientID < 0 then -clientID else clientID);
      if clientID < 0 {
        assert Itoa(clientID)[1..] == Digits(-clientID);
      } else {
        assert IsDigit(Digits(clientID)[0]);
      }
    }
  }

  datatype User = User(uid: int, clientID: int, uuid: string, passwd: string, kickVersion: nat)

  /** Whose an auth key is: the account, and whether an official device's. */
  datatype Owner = Owner(uid: int, official: bool)

  datatype Book = Book(slots: SlotSet, active: ActiveMap)

  function KeysOf(u: User): seq<string> { [u.uuid, u.passwd] }

  predicate HasKey(u: User, k: string) { k != "" && (k == u.uuid || k == u.passwd) }

  predicate Listed(users: seq<User>, k: string) {
    exists i :: 0 <= i < |users| && HasKey(users[i], k)
  }

  /** Credentials are not reused across accounts, nor between official devices and third parties. */
  ghost predicate OwnedAs(own: string -> Owner, users: seq<User>) {
    forall i, k :: 0 <= i < |users| && HasKey(users[i], k) ==> own(k) == Owner(users[i].uid, users[i].clientID != 0)
  }

  function ValidSlots(users: seq<User>): set<Slot> {
    set i | 0 <= i < |users| && users[i].clientID != 0 :: OnlineKey(users[i].clientID, "")
  }

  /** What delisting leaves of a book: third-party slots and the slots of listed devices. */
  function Kept(m: map<Slot, int>, valid: set<Slot>): map<Slot, int> {
    map s | s in m && (!IsClientOnlineKey(s) || s in valid) :: m[s]
  }

  /** A slot that some official device would take. */
  predicate BeginsClient(s: Slot) {
    |s| >= 7 && s[..7] == "client-"
  }

  lemma PrefixBegins(s: Slot)
    ensures IsClientOnlineKey(s) <==> BeginsClient(s)
  {
  }

  // ---------------------------------------------------------------- ReconcileDeviceSlots

  lemma KeptTwice(m: map<Slot, int>, valid: set<Slot>)
    ensures Kept(Kept(m, valid), valid) == Kept(m, valid)
  {
  }

  /** The first key of the user that has a book. */
  function BookOf(slots: map<string, SlotSet>, active: map<string, ActiveMap>, u: User): Option<Book> {
    if u.uuid in slots && u.uuid in active then Some(Book(slots[u.uuid], active[u.uuid]))
    else if u.passwd in slots && u.passwd in active then Some(Book(slots[u.passwd], active[u.passwd]))
    else None
  }

  predicate Offers(slots: map<string, SlotSet>, active: map<string, ActiveMap>, u: User, uid: int, book: Book) {
    u.clientID != 0 && u.uid == uid && BookOf(slots, active, u) == Some(book)
  }

  lemma ValidSlotsSnoc(users: seq<User>, i: nat)
    requires i < |users|
    ensures ValidSlots(users[..i + 1]) ==
            ValidSlots(users[..i]) + if users[i].clientID != 0 then {OnlineKey(users[i].clientID, "")} else {}
  {
    var more, less := users[..i + 1], users[..i];
    assert forall j :: 0 <= j < i ==> more[j] == less[j];
    assert more[i] == users[i];
  }

  // ---------------------------------------------------------------- ShareAccountSlots

  function AssignedKey<T>(table: map<string, T>, k: string, half: T): map<string, T> {
    if k == "" then table else table[k := half]
  }

  function Assigned<T>(table: map<string, T>, u: User, half: T): map<string, T> {
    AssignedKey(AssignedKey(table, u.uuid, half), u.passwd, half)
  }

  // ---------------------------------------------------------------- who shares what

  /** Only official keys of one account share a book. */
  ghost predicate NoCross(active: map<string, ActiveMap>, own: string -> Owner) {
    forall j, k :: j in active && k in active && j != k && active[j] == active[k] ==>
        own(j) == own(k) && own(j).official
  }

  /** And all official keys of an account do. */
  ghost predicate OnePerAccount(active: map<string, ActiveMap>, own: string -> Owner) {
    && NoCross(active, own)
    && forall j, k :: j in active && k in active && own(j) == own(k) && own(j).official ==> active[j] == active[k]
  }

  ghost predicate Home(shared: map<int, Book>, own: string -> Owner, slots: map<string, SlotSet>,
                       active: map<string, ActiveMap>, k: string)
    requires k in slots && k in active
  {
    own(k).uid in shared && shared[own(k).uid] == Book(slots[k], active[k])
  }

  /** Every listed official key is on its account's book. */
  ghost predicate Homed(shared: map<int, Book>, users: seq<User>, own: string -> Owner, slots: map<string, SlotSet>,
                        active: map<string, ActiveMap>)
    requires slots.Keys == active.Keys
  {
    forall k :: k in slots && Listed(users, k) && own(k).official ==> Home(shared, own, slots, active, k)
  }

  /** The shared books belong to their accounts alone. */
  ghost predicate SharedApart(shared: map<int, Book>, own: string -> Owner, active: map<string, ActiveMap>) {
    && (forall uid, k :: uid in shared && k in active && active[k] == shared[uid].active ==> own(k) == Owner(uid, true))
    && (forall uid, v :: uid in shared && v in shared && shared[uid].active == shared[v].active ==> uid == v)
  }

  ghost predicate SharedAligned(shared: map<int, Book>, slots: map<string, SlotSet>, active: map<string, ActiveMap>) {
    && (forall uid, k :: uid in shared && k in slots && k in active ==>
          (slots[k] == shared[uid].slots <==> active[k] == shared[uid].active))
    && (forall uid, v :: uid in shared && v in shared ==>
          (shared[uid].slots == shared[v].slots <==> shared[uid].active == shared[v].active))
    && (forall uid, k :: uid in shared && k in active ==> (shared[uid].slots as object) != active[k])
    && (forall uid, k :: uid in shared && k in slots ==> (slots[k] as object) != shared[uid].active)
    && (forall uid, v :: uid in shared && v in shared ==> (shared[uid].slots as object) != shared[v].active)
  }

  /** What holds of the references throughout a sync. */
  ghost predicate Structure(shared: map<int, Book>, users: seq<User>, own: string -> Owner,
                            slots: map<string, SlotSet>, active: map<string, ActiveMap>)
  {
    && Aligned(slots, active) && "" !in slots
    && NoCross(active, own) && Homed(shared, users, own, slots, active)
    && SharedApart(shared, own, active) && SharedAligned(shared, slots, active)
  }

  lemma OwnedKey(own: string -> Owner, users: seq<User>, i: nat, k: string)
    requires OwnedAs(own, users) && i < |users| && HasKey(users[i], k)
    ensures own(k) == Owner(users[i].uid, users[i].clientID != 0)
  {
  }

  lemma BookOfIs(slots: map<string, SlotSet>, active: map<string, ActiveMap>, u: User)
    requires slots.Keys == active.Keys && "" !in slots
    ensures BookOf(slots, active, u).Some? ==>
              exists k :: k in slots && HasKey(u, k) && BookOf(slots, active, u).value == Book(slots[k], active[k])
    ensures BookOf(slots, active, u).None? ==> forall k :: HasKey(u, k) ==> k !in slots
  {
    if BookOf(slots, active, u).Some? {
      var k := if u.uuid in slots then u.uuid else u.passwd;
      assert k in slots && HasKey(u, k);
    }
  }

  lemma OffersIs(slots: map<string, SlotSet>, active: map<string, ActiveMap>, users: seq<User>, own: string -> Owner,
                 i: nat, uid: int, book: Book)
      returns (k: string)
    requires slots.Keys == active.Keys && "" !in slots && OwnedAs(own, users)
    requires i < |users| && Offers(slots, active, users[i], uid, book)
    ensures k in slots && own(k) == Owner(uid, true) && book == Book(slots[k], active[k])
  {
    BookOfIs(slots, active, users[i]);
    k :| k in slots && HasKey(users[i], k) && book == Book(slots[k], active[k]);
    OwnedKey(own, users, i, k);
  }

  /** After `ReconcileDeviceSlots` the books stand as a sync needs them. */
  lemma ReconciledStructure(shared: map<int, Book>, users: seq<User>, own: string -> Owner,
                            slots: map<string, SlotSet>, active: map<string, ActiveMap>)
    requires Aligned(slots, active) && "" !in slots && OnePerAccount(active, own) && OwnedAs(own, users)
    requires forall i :: 0 <= i < |users| && users[i].clientID != 0 && BookOf(slots, active, users[i]).Some? ==>
               users[i].uid in shared
    requires forall uid :: uid in shared ==>
               exists i :: 0 <= i < |users| && Offers(slots, active, users[i], uid, shared[uid])
    ensures Structure(shared, users, own, slots, active)
    ensures forall uid :: uid in shared ==> SharedKey(shared, own, slots, active, uid)
  {
    forall uid | uid in shared ensures SharedKey(shared, own, slots, active, uid) {
      var i :| 0 <= i < |users| && Offers(slots, active, users[i], uid, shared[uid]);
      var k := OffersIs(slots, active, users, own, i, uid, shared[uid]);
      assert Home(shared, own, slots, active, k);
    }
    SharedKeysApart(shared, own, slots, active);
    forall k | k in slots && Listed(users, k) && own(k).official ensures Home(shared, own, slots, active, k) {
      var i :| 0 <= i < |users| && HasKey(users[i], k);
      OwnedKey(own, users, i, k);
      BookOfIs(slots, active, users[i]);
      assert users[i].uid in shared;
      assert SharedKey(shared, own, slots, active, users[i].uid);
    }
  }

  /** A shared book is on the table, under a key of its account. */
  ghost predicate SharedKey(shared: map<int, Book>, own: string -> Owner, slots: map<string, SlotSet>,
                            active: map<string, ActiveMap>, uid: int)
  {
    exists k :: k in slots && k in active && own(k) == Owner(uid, true) && Home(shared, own, slots, active, k)
  }

  lemma SharedKeysApart(shared: map<int, Book>, own: string -> Owner, slots: map<string, SlotSet>,
                        active: map<string, ActiveMap>)
    requires Aligned(slots, active) && OnePerAccount(active, own)
    requires forall uid :: uid in shared ==> SharedKey(shared, own, slots, active, uid)
    ensures SharedApart(shared, own, active) && SharedAligned(shared, slots, active)
  {
  }

  /** A book nobody uses yet. */
  ghost predicate NewTo(book: Book, shared: map<int, Book>, slots: map<string, SlotSet>, active: map<string, ActiveMap>)
  {
    && (forall k :: k in slots ==> slots[k] != book.slots && (slots[k] as object) != book.active)
    && (forall k :: k in active ==> active[k] != book.active && (active[k] as object) != book.slots)
    && (forall v :: v in shared ==> shared[v].slots != book.slots && shared[v].active != book.active)
    && (forall v :: v in shared ==>
          (shared[v].slots as object) != book.active && (shared[v].active as object) != book.slots)
    && (book.slots as object) != book.active
  }

  /** One listed official key goes to its account's book. */
  lemma AssignKeeps(shared: map<int, Book>, users: seq<User>, own: string -> Owner, slots: map<string, SlotSet>,
                    active: map<string, ActiveMap>, k: string, uid: int)
    requires Structure(shared, users, own, slots, active) && uid in shared && (k != "" ==> own(k) == Owner(uid, true))
    ensures Structure(shared, users, own, AssignedKey(slots, k, shared[uid].slots),
                      AssignedKey(active, k, shared[uid].active))
  {
  }

  lemma NewBookKeeps(shared: map<int, Book>, users: seq<User>, own: string -> Owner, slots: map<string, SlotSet>,
                     active: map<string, ActiveMap>, uid: int, book: Book)
    requires Structure(shared, users, own, slots, active) && uid !in shared && NewTo(book, shared, slots, active)
    ensures Structure(shared[uid := book], users, own, slots, active)
  {
    forall k | k in slots && Listed(users, k) && own(k).official
      ensures Home(shared[uid := book], own, slots, active, k) {
      assert Home(shared, own, slots, active, k);
    }
  }

  /** An official user without a shared book has no book at all. */
  lemma NoBookYet(shared: map<int, Book>, users: seq<User>, own: string -> Owner, slots: map<string, SlotSet>,
                  active: map<string, ActiveMap>, i: nat)
    requires Structure(shared, users, own, slots, active) && OwnedAs(own, users)
    requires i < |users| && users[i].clientID != 0 && users[i].uid !in shared
    ensures BookOf(slots, active, users[i]).None?
  {
    forall k | HasKey(users[i], k) ensures k !in slots {
      OwnedKey(own, users, i, k);
      assert k in slots ==> Home(shared, own, slots, active, k);
    }
    BookOfIs(slots, active, users[i]);
  }

  // ---------------------------------------------------------------- kick versions

  datatype Record = Record(uid: int, clientID: int, kickVersion: nat)

  function RecordOf(u: User): Record { Record(u.uid, u.clientID, u.kickVersion) }

  /** The slot a credential on record takes; none if it expired or carries another kick version than asked for. */
  function Resolved(records: map<string, Record>, key: string, host: string, version: Option<nat>,
                    expired: bool): Option<Slot>
  {
    if key !in records || expired || (version.Some? && records[key].kickVersion != version.value) then None
    else Some(OnlineKey(records[key].clientID, host))
  }

  /** How a re-check at `at` ends for a credential that resolves to `slot`, with the book `was` before and `book`
      after it. It keeps its place where `VerifyDeviceSlot` would say so and, if a renewal is due, the cross-node
      verdict is good as well. A renewal writes `stamp`; a bad verdict takes the slot out, unless the credential
      `lapsed` in between. */
  ghost predicate Rechecked(slot: Option<Slot>, limit: int, globally: bool, lapsed: bool, online: bool,
                            was: map<Slot, int>, book: map<Slot, int>, at: int, stamp: int)
  {
    if slot == None || slot.value == "" || !Verdict(was, slot.value, limit, at) then !online && book == was
    else if slot.value in was && at - was[slot.value] < ONLINE_TOUCH then online && book == was
    else online == globally && book == if globally || lapsed then was[slot.value := stamp] else was - {slot.value}
  }

  /** How `allowConnection` ends for a credential that resolves to `slot`: it admits only with a good cross-node
      verdict and while the credential has not `lapsed` in between, and then as `Decided` says; with a bad verdict the
      slot is given up. */
  ghost predicate Connects(slot: Option<Slot>, globally: bool, lapsed: bool, allowed: bool, grant: Grant,
                           kicked: seq<Slot>, trace: Trace, asked: bool, last: Grant, was: map<Slot, int>, begunAt: int,
                           found: map<Slot, int>, foundAt: int, book: map<Slot, int>, now: int)
  {
    if slot == None || lapsed || (globally && slot.value == "") then !allowed && book == was
    else if !globally then !allowed && book == was - {slot.value}
    else Decided(allowed, grant, kicked, trace, asked, last, slot.value, was, begunAt, found, foundAt, book, now)
  }

  /** The old record under one of the user's keys carries another kick version. */
  predicate Bumps(records: map<string, Record>, u: User, k: string) {
    k in KeysOf(u) && k in records && records[k].kickVersion != u.kickVersion
  }

  predicate Changed(records: map<string, Record>, u: User) {
    Bumps(records, u, u.uuid) || Bumps(records, u, u.passwd)
  }

  /** The slot that one user's kick version takes from an account. */
  function Taken(records: map<string, Record>, u: User, uid: int): set<Slot> {
    if uid == u.uid && u.clientID != 0 && Changed(records, u) then {OnlineKey(u.clientID, "")} else {}
  }

  /** The slots of an account that the listed users' kick versions take. */
  function Bumped(records: map<string, Record>, users: seq<User>, uid: int): set<Slot> {
    set i | 0 <= i < |users| && users[i].uid == uid && users[i].clientID != 0 && Changed(records, users[i]) ::
        OnlineKey(users[i].clientID, "")
  }

  lemma BumpedSnoc(records: map<string, Record>, users: seq<User>, i: nat, uid: int)
    requires i < |users|
    ensures Bumped(records, users[..i + 1], uid) ==
            Bumped(records, users[..i], uid) + Taken(records, users[i], uid)
  {
    forall slot ensures slot in Bumped(records, users[..i + 1], uid) <==>
                          slot in Bumped(records, users[..i], uid) || slot in Taken(records, users[i], uid)
    {
      BumpedMember(records, users, i, uid, slot);
      BumpedMember(records, users, i + 1, uid, slot);
    }
  }

  lemma BumpedMember(records: map<string, Record>, users: seq<User>, n: nat, uid: int, slot: Slot)
    requires n <= |users|
    ensures slot in Bumped(records, users[..n], uid) <==>
              exists i :: 0 <= i < n && slot in Taken(records, users[i], uid)
  {
    if i :| 0 <= i < n && slot in Taken(records, users[i], uid) {
      assert users[..n][i] == users[i];
    }
  }

  ghost predicate PairedKeys(slots: map<string, SlotSet>, active: map<string, ActiveMap>, u: User)
    requires slots.Keys == active.Keys
    reads slots.Values, active.Values
  {
    forall k :: k in slots && k in KeysOf(u) ==> Paired(slots[k], active[k])
  }

  // ---------------------------------------------------------------- syncUsers

  /** Official keys with a record have a book. */
  ghost predicate Recorded(records: map<string, Record>, own: string -> Owner, slots: map<string, SlotSet>) {
    forall k :: k in records ==> k != "" && (own(k).official ==> k in slots)
  }

  /** Which books the kick loop reaches: of official users their account's, of third parties their own. */
  lemma KickTargets(records: map<string, Record>, users: seq<User>, i: nat, own: string -> Owner,
                    shared: map<int, Book>,
                    slots: map<string, SlotSet>, active: map<string, ActiveMap>)
    requires i < |users| && OwnedAs(own, users) && Structure(shared, users, own, slots, active) &&
             Recorded(records, own, slots)
    ensures forall k :: Bumps(records, users[i], k) ==> own(k) == Owner(users[i].uid, users[i].clientID != 0)
    ensures forall k :: Bumps(records, users[i], k) && users[i].clientID != 0 ==>
              k in slots && k in active && users[i].uid in shared && shared[users[i].uid] == Book(slots[k], active[k])
  {
    var u := users[i];
    forall k | Bumps(records, u, k)
      ensures own(k) == Owner(u.uid, u.clientID != 0)
      ensures u.clientID != 0 ==>
                k in slots && k in active && u.uid in shared && shared[u.uid] == Book(slots[k], active[k])
    {
      assert HasKey(u, k) && Listed(users, k);
      OwnedKey(own, users, i, k);
      assert u.clientID != 0 ==> Home(shared, own, slots, active, k);
    }
  }

  ghost predicate SharedPaired(shared: map<int, Book>)
    reads set uid | uid in shared :: shared[uid].slots, set uid | uid in shared :: shared[uid].active
  {
    forall uid :: uid in shared ==> Paired(shared[uid].slots, shared[uid].active)
  }

  ghost function Outside(active: map<string, ActiveMap>, own: string -> Owner): set<string> {
    set k | k in active && !own(k).official
  }

  ghost predicate OutsidePaired(slots: map<string, SlotSet>, active: map<string, ActiveMap>, own: string -> Owner)
    reads slots.Values, active.Values
  {
    forall k :: k in Outside(active, own) ==> k in slots && Paired(slots[k], active[k])
  }

  lemma OutsideAlone(records: map<string, Record>, u: User, own: string -> Owner, slots: map<string, SlotSet>,
                     active: map<string, ActiveMap>)
    requires NoCross(active, own) && slots.Keys == active.Keys
    requires forall k :: Bumps(records, u, k) ==> own(k) == Owner(u.uid, u.clientID != 0)
    ensures forall j, k ::
              j in Outside(active, own) && k in active && Bumps(records, u, k) && active[j] == active[k] ==>
              u.clientID == 0
  {
  }

  /** A key that is kicked shares its book with no other account. */
  lemma KickSpares(records: map<string, Record>, users: seq<User>, i: nat, own: string -> Owner,
                   shared: map<int, Book>,
                   slots: map<string, SlotSet>, active: map<string, ActiveMap>)
    requires i < |users| && OwnedAs(own, users) && Structure(shared, users, own, slots, active) &&
             Recorded(records, own, slots)
    ensures forall uid, k ::
              uid in shared && k in active && Bumps(records, users[i], k) &&
              !(uid == users[i].uid && users[i].clientID != 0) ==>
              active[k] != shared[uid].active && slots[k] != shared[uid].slots
    ensures forall uid, v :: uid in shared && v in shared && uid != v ==>
              shared[uid].active != shared[v].active && shared[uid].slots != shared[v].slots
  {
    KickTargets(records, users, i, own, shared, slots, active);
  }

  /** Third-party keys are where they were. */
  ghost predicate SameOutside(own: string -> Owner, slots: map<string, SlotSet>, active: map<string, ActiveMap>,
                              slots2: map<string, SlotSet>, active2: map<string, ActiveMap>)
  {
    forall k :: !own(k).official ==>
      && (k in active2 <==> k in active)
      && (k in active ==> k in slots && k in slots2 && slots2[k] == slots[k] && active2[k] == active[k])
  }

  lemma AssignOutside<T>(own: string -> Owner, table: map<string, T>, u: User, half: T)
    requires forall k :: HasKey(u, k) ==> own(k).official
    ensures forall k :: !own(k).official ==>
              (k in Assigned(table, u, half) <==> k in table) &&
              (k in table ==> Assigned(table, u, half)[k] == table[k])
    ensures forall k :: k in Assigned(table, u, half) <==> k in table || HasKey(u, k)
  {
  }

  lemma AssignBoth(shared: map<int, Book>, users: seq<User>, own: string -> Owner, slots: map<string, SlotSet>,
                   active: map<string, ActiveMap>, i: nat)
    requires Structure(shared, users, own, slots, active) && OwnedAs(own, users)
    requires i < |users| && users[i].clientID != 0 && users[i].uid in shared
    ensures var b := shared[users[i].uid];
            Structure(shared, users, own, Assigned(slots, users[i], b.slots), Assigned(active, users[i], b.active))
  {
    var u := users[i];
    var b := shared[u.uid];
    if u.uuid != "" { OwnedKey(own, users, i, u.uuid); }
    if u.passwd != "" { OwnedKey(own, users, i, u.passwd); }
    AssignKeeps(shared, users, own, slots, active, u.uuid, u.uid);
    AssignKeeps(shared, users, own, AssignedKey(slots, u.uuid, b.slots), AssignedKey(active, u.uuid, b.active),
                u.passwd, u.uid);
  }

  predicate OfficialKey(users: seq<User>, i: nat, k: string)
    requires i <= |users|
  {
    exists j :: 0 <= j < i && users[j].clientID != 0 && HasKey(users[j], k)
  }

  function Start(start: map<int, map<Slot, int>>, uid: int): map<Slot, int> {
    if uid in start then start[uid] else map[]
  }

  /** What the account books hold while a sync runs. */
  ghost predicate Contents(shared: map<int, Book>, start: map<int, map<Slot, int>>, records: map<string, Record>,
                           users: seq<User>, i: nat)
    requires i <= |users|
    reads set uid | uid in shared :: shared[uid].active
  {
    forall uid :: uid in shared ==> shared[uid].active.m == Start(start, uid) - Bumped(records, users[..i], uid)
  }

  lemma ContentsStart(shared: map<int, Book>, start: map<int, map<Slot, int>>, records: map<string, Record>,
                      users: seq<User>)
    requires start.Keys == shared.Keys && forall uid :: uid in shared ==> start[uid] == shared[uid].active.m
    ensures Contents(shared, start, records, users, 0)
  {
    forall uid | uid in shared
      ensures shared[uid].active.m == Start(start, uid) - Bumped(records, users[..0], uid)
    {
      assert Bumped(records, users[..0], uid) == {};
      assert start[uid] - {} == start[uid];
    }
  }

  lemma TakenMore(m: map<Slot, int>, records: map<string, Record>, users: seq<User>, i: nat, uid: int)
    requires i < |users|
    ensures (m - Bumped(records, users[..i], uid)) - Taken(records, users[i], uid) ==
              m - Bumped(records, users[..i + 1], uid)
  {
    BumpedSnoc(records, users, i, uid);
  }

  lemma ContentsMore(shared: map<int, Book>, start: map<int, map<Slot, int>>, records: map<string, Record>,
                     users: seq<User>, i: nat, before: map<int, map<Slot, int>>)
    requires i < |users|
    requires forall uid :: uid in shared ==> uid in before
    requires forall uid :: uid in shared ==> before[uid] == Start(start, uid) - Bumped(records, users[..i], uid)
    requires forall uid :: uid in shared ==> shared[uid].active.m == before[uid] - Taken(records, users[i], uid)
    ensures Contents(shared, start, records, users, i + 1)
  {
    forall uid | uid in shared
      ensures shared[uid].active.m == Start(start, uid) - Bumped(records, users[..i + 1], uid)
    {
      TakenMore(Start(start, uid), records, users, i, uid);
    }
  }

  /** New books start empty, and accounts that brought nothing along have nothing to lose. */
  lemma SharedGrows(shared: map<int, Book>, shared2: map<int, Book>, start: map<int, map<Slot, int>>,
                    records: map<string, Record>, users: seq<User>, n: nat)
    requires n <= |users| && start.Keys <= shared.Keys
    requires SharedPaired(shared) && Contents(shared, start, records, users, n)
    requires forall uid :: uid in shared ==> uid in shared2 && shared2[uid] == shared[uid]
    requires forall uid :: uid in shared2 && uid !in shared ==>
               shared2[uid].slots.s == {} && shared2[uid].active.m == map[]
    ensures SharedPaired(shared2) && Contents(shared2, start, records, users, n)
  {
  }

  lemma OutsideGrows(own: string -> Owner, slots: map<string, SlotSet>, active: map<string, ActiveMap>,
                     slots2: map<string, SlotSet>, active2: map<string, ActiveMap>)
    requires OutsidePaired(slots, active, own) && SameOutside(own, slots, active, slots2, active2)
    ensures OutsidePaired(slots2, active2, own)
  {
  }

  /** Every book the sync can reach lies in the region. */
  ghost predicate Within(region: set<object>, shared: map<int, Book>, slots: map<string, SlotSet>,
                         active: map<string, ActiveMap>)
  {
    && (forall k :: k in slots ==> slots[k] in region)
    && (forall k :: k in active ==> active[k] in region)
    && (forall uid :: uid in shared ==> shared[uid].slots in region && shared[uid].active in region)
  }

  lemma WithinAssigned(region: set<object>, shared: map<int, Book>, slots: map<string, SlotSet>,
                       active: map<string, ActiveMap>, u: User, uid: int, book: Book)
    requires Within(region, shared, slots, active) && book.slots in region && book.active in region
    ensures Within(region, shared[uid := book], Assigned(slots, u, book.slots), Assigned(active, u, book.active))
  {
  }

  /** The books an account brings into a sync: what a listed key of it holds, without delisted devices. */
  ghost predicate StartIs(start: map<int, map<Slot, int>>, users: seq<User>, own: string -> Owner,
                          held: map<string, map<Slot, int>>)
  {
    && (forall k :: k in held && Listed(users, k) && own(k).official ==>
          own(k).uid in start && start[own(k).uid] == Kept(held[k], ValidSlots(users)))
    && (forall uid :: uid in start ==> exists k :: k in held && Listed(users, k) && own(k) == Owner(uid, true))
  }

  ghost function Held(active: map<string, ActiveMap>): map<string, map<Slot, int>>
    reads active.Values
  {
    map k | k in active :: active[k].m
  }

  lemma StartFound(shared: map<int, Book>, users: seq<User>, own: string -> Owner, slots: map<string, SlotSet>,
                   active: map<string, ActiveMap>,
                   held: map<string, map<Slot, int>>, start: map<int, map<Slot, int>>)
    requires slots.Keys == active.Keys && "" !in slots && Homed(shared, users, own, slots, active) &&
             OwnedAs(own, users) && held.Keys == active.Keys
    requires forall k :: k in active ==> active[k].m == Kept(held[k], ValidSlots(users))
    requires forall uid :: uid in shared ==>
               exists i :: 0 <= i < |users| && Offers(slots, active, users[i], uid, shared[uid])
    requires start.Keys == shared.Keys && forall uid :: uid in shared ==> start[uid] == shared[uid].active.m
    ensures StartIs(start, users, own, held)
  {
    forall k | k in held && Listed(users, k) && own(k).official
      ensures own(k).uid in start && start[own(k).uid] == Kept(held[k], ValidSlots(users))
    {
      assert Home(shared, own, slots, active, k);
    }
    forall uid | uid in start ensures exists k :: k in held && Listed(users, k) && own(k) == Owner(uid, true) {
      var i :| 0 <= i < |users| && Offers(slots, active, users[i], uid, shared[uid]);
      BookOfIs(slots, active, users[i]);
      var k :| k in slots && HasKey(users[i], k) && shared[uid] == Book(slots[k], active[k]);
      OwnedKey(own, users, i, k);
      assert Listed(users, k);
    }
  }

  lemma WithinShared(shared: map<int, Book>, users: seq<User>, slots: map<string, SlotSet>,
                     active: map<string, ActiveMap>)
    requires slots.Keys == active.Keys && "" !in slots
    requires forall uid :: uid in shared ==>
               exists i :: 0 <= i < |users| && Offers(slots, active, users[i], uid, shared[uid])
    ensures Within(slots.Values + active.Values, shared, slots, active)
  {
  }

  ghost predicate OutsideHolds(active: map<string, ActiveMap>, own: string -> Owner, held: map<string, map<Slot, int>>,
                               users: seq<User>)
    reads active.Values
  {
    forall k :: k in Outside(active, own) ==> k in held && active[k].m == Kept(held[k], ValidSlots(users))
  }

  /** The books an account shares are books on the table, and those are paired. */
  lemma BegunPaired(shared: map<int, Book>, users: seq<User>, own: string -> Owner, slots: map<string, SlotSet>,
                    active: map<string, ActiveMap>)
    requires slots.Keys == active.Keys && "" !in slots && AllPaired(slots, active) &&
             Collected(shared, users, slots, active)
    ensures SharedPaired(shared) && OutsidePaired(slots, active, own)
  {
  }

  lemma OfficialSnoc(users: seq<User>, i: nat)
    requires i < |users|
    ensures forall k :: OfficialKey(users, i + 1, k) <==>
              OfficialKey(users, i, k) || (users[i].clientID != 0 && HasKey(users[i], k))
  {
  }

  ghost predicate KeysGrew(slots: map<string, SlotSet>, slots2: map<string, SlotSet>, users: seq<User>, i: nat) {
    i <= |users| && forall k :: k in slots2 <==> k in slots || OfficialKey(users, i, k)
  }

  lemma KeysGrow(slots: map<string, SlotSet>, slots1: map<string, SlotSet>, slots2: map<string, SlotSet>,
                 users: seq<User>, i: nat)
    requires i < |users| && KeysGrew(slots, slots1, users, i)
    requires forall k :: k in slots2 <==> k in slots1 || (users[i].clientID != 0 && HasKey(users[i], k))
    ensures KeysGrew(slots, slots2, users, i + 1)
  {
    OfficialSnoc(users, i);
  }

  /** What `ReconcileDeviceSlots` found: a book for exactly the accounts that bring one. */
  ghost predicate Collected(shared: map<int, Book>, users: seq<User>, slots: map<string, SlotSet>,
                            active: map<string, ActiveMap>)
  {
    && (forall i :: 0 <= i < |users| && users[i].clientID != 0 && BookOf(slots, active, users[i]).Some? ==>
          users[i].uid in shared)
    && (forall uid :: uid in shared ==>
          exists i :: 0 <= i < |users| && Offers(slots, active, users[i], uid, shared[uid]))
  }

  ghost function StartOf(shared: map<int, Book>): map<int, map<Slot, int>>
    reads set uid | uid in shared :: shared[uid].active
  {
    map uid | uid in shared :: shared[uid].active.m
  }

  lemma BegunStructure(shared: map<int, Book>, users: seq<User>, own: string -> Owner, slots: map<string, SlotSet>,
                       active: map<string, ActiveMap>)
    requires Aligned(slots, active) && "" !in slots && OnePerAccount(active, own) && OwnedAs(own, users)
    requires Collected(shared, users, slots, active)
    ensures Structure(shared, users, own, slots, active) && Within(slots.Values + active.Values, shared, slots, active)
  {
    ReconciledStructure(shared, users, own, slots, active);
    WithinShared(shared, users, slots, active);
  }

  lemma BegunContents(shared: map<int, Book>, users: seq<User>, own: string -> Owner, slots: map<string, SlotSet>,
                      active: map<string, ActiveMap>,
                      held: map<string, map<Slot, int>>, records: map<string, Record>)
    requires slots.Keys == active.Keys && "" !in slots && Homed(shared, users, own, slots, active) &&
             OwnedAs(own, users) && held.Keys == active.Keys
    requires forall k :: k in active ==> active[k].m == Kept(held[k], ValidSlots(users))
    requires Collected(shared, users, slots, active)
    ensures StartIs(StartOf(shared), users, own, held) && Contents(shared, StartOf(shared), records, users, 0)
  {
    StartFound(shared, users, own, slots, active, held, StartOf(shared));
    ContentsStart(shared, StartOf(shared), records, users);
  }

  // ---------------------------------------------------------------- after the user loop

  /** The user whose record stands under a key: the first listed with it. */
  predicate IsFirst(users: seq<User>, k: string, i: int) {
    0 <= i < |users| && HasKey(users[i], k) && forall j :: 0 <= j < i ==> !HasKey(users[j], k)
  }

  ghost predicate RecordsOf(records: map<string, Record>, users: seq<User>) {
    && (forall k :: k in records <==> Listed(users, k))
    && (forall k, i :: k in records && IsFirst(users, k, i) ==> records[k] == RecordOf(users[i]))
  }

  /** Under a key that anyone is listed with stands the first of them, as listed. */
  lemma RecordsAre(records: map<string, Record>, users: seq<User>, k: string) returns (i: int)
    requires RecordsOf(records, users)
    ensures k in records <==> k != "" && exists u :: u in users && (u.uuid == k || u.passwd == k)
    ensures k in records ==>
              && 0 <= i < |users| && (users[i].uuid == k || users[i].passwd == k)
              && (forall j :: 0 <= j < i ==> users[j].uuid != k && users[j].passwd != k)
              && records[k] == Record(users[i].uid, users[i].clientID, users[i].kickVersion)
  {
    i := 0;
    while i < |users| && !HasKey(users[i], k)
      invariant 0 <= i <= |users| && forall j :: 0 <= j < i ==> !HasKey(users[j], k)
    {
      i := i + 1;
    }
    if k in records {
      assert IsFirst(users, k, i);
    }
  }

  lemma RecordsSnoc(records: map<string, Record>, users: seq<User>, i: nat)
    requires i < |users| && RecordsOf(records, users[..i])
    ensures var u := users[i];
            var one := if u.uuid == "" || u.uuid in records then records else records[u.uuid := RecordOf(u)];
            RecordsOf(if u.passwd == "" || u.passwd in one then one else one[u.passwd := RecordOf(u)], users[..i + 1])
  {
    var u := users[i];
    var one := if u.uuid == "" || u.uuid in records then records else records[u.uuid := RecordOf(u)];
    RecordsMore(records, if u.passwd == "" || u.passwd in one then one else one[u.passwd := RecordOf(u)], users, i);
  }

  lemma RecordsMore(records: map<string, Record>, more: map<string, Record>, users: seq<User>, i: nat)
    requires i < |users| && RecordsOf(records, users[..i])
    requires forall k :: k in more <==> k in records || HasKey(users[i], k)
    requires forall k :: k in more ==> more[k] == if k in records then records[k] else RecordOf(users[i])
    ensures RecordsOf(more, users[..i + 1])
  {
    forall k ensures k in more <==> Listed(users[..i + 1], k) {
      ListedSnoc(users, i, k);
    }
    forall k, j | k in more && IsFirst(users[..i + 1], k, j) ensures more[k] == RecordOf(users[j]) {
      FirstSnoc(users, i, k, j);
    }
  }

  lemma ListedSnoc(users: seq<User>, i: nat, k: string)
    requires i < |users|
    ensures Listed(users[..i + 1], k) <==> Listed(users[..i], k) || HasKey(users[i], k)
  {
    if j :| 0 <= j < i && HasKey(users[j], k) {
      assert HasKey(users[..i][j], k) && HasKey(users[..i + 1][j], k);
    } else if HasKey(users[i], k) {
      assert HasKey(users[..i + 1][i], k);
    }
  }

  /** The first user with a key stays the first, and a later one is it only for a key not listed before. */
  lemma FirstSnoc(users: seq<User>, i: nat, k: string, j: int)
    requires i < |users| && IsFirst(users[..i + 1], k, j)
    ensures if j < i then IsFirst(users[..i], k, j) && Listed(users[..i], k)
            else j == i && HasKey(users[i], k) && !Listed(users[..i], k)
  {
    var more, less := users[..i + 1], users[..i];
    assert forall h :: 0 <= h < i ==> more[h] == less[h];
    assert HasKey(more[j], k);
  }

  function Only<T>(table: map<string, T>, records: map<string, Record>): map<string, T> {
    map k | k in table && k in records :: table[k]
  }

  /** With the keys of delisted users gone, one book per account is left. */
  lemma SyncedStructure(shared: map<int, Book>, users: seq<User>, own: string -> Owner, slots: map<string, SlotSet>,
                        active: map<string, ActiveMap>,
                        records: map<string, Record>)
    requires Structure(shared, users, own, slots, active) && RecordsOf(records, users)
    ensures Aligned(Only(slots, records), Only(active, records)) && OnePerAccount(Only(active, records), own)
  {
    var left := Only(active, records);
    forall j, k | j in left && k in left && own(j) == own(k) && own(j).official ensures left[j] == left[k] {
      assert Home(shared, own, slots, active, j) && Home(shared, own, slots, active, k);
    }
  }

  lemma SyncedRecorded(users: seq<User>, own: string -> Owner, before: map<string, SlotSet>,
                       slots: map<string, SlotSet>, records: map<string, Record>)
    requires KeysGrew(before, slots, users, |users|) && RecordsOf(records, users) && OwnedAs(own, users)
    ensures Recorded(records, own, Only(slots, records))
  {
    forall k | k in records ensures k != "" && (own(k).official ==> k in slots) {
      var i :| 0 <= i < |users| && HasKey(users[i], k);
      OwnedKey(own, users, i, k);
      assert own(k).official ==> OfficialKey(users, |users|, k);
    }
  }

  /** What an official key's book holds after the loop, and that it is paired. */
  lemma SyncedContents(shared: map<int, Book>, users: seq<User>, own: string -> Owner, slots: map<string, SlotSet>,
                       active: map<string, ActiveMap>,
                       start: map<int, map<Slot, int>>, was: map<string, Record>, k: string)
    requires slots.Keys == active.Keys && Homed(shared, users, own, slots, active) && SharedPaired(shared)
    requires Contents(shared, start, was, users, |users|) && k in slots && Listed(users, k) && own(k).official
    ensures Paired(slots[k], active[k]) && active[k].m == Start(start, own(k).uid) - Bumped(was, users, own(k).uid)
  {
    assert Home(shared, own, slots, active, k);
    TakeAll(users);
  }

  /** The outcome of a sync for official keys. */
  ghost predicate OfficialHold(active: map<string, ActiveMap>, own: string -> Owner, start: map<int, map<Slot, int>>,
                               was: map<string, Record>, users: seq<User>)
    reads active.Values
  {
    forall k :: k in active && own(k).official ==>
        active[k].m == Start(start, own(k).uid) - Bumped(was, users, own(k).uid)
  }

  /** The outcome of a sync for third-party keys: those still listed keep their own book. */
  ghost predicate OutsideKept(before: map<string, ActiveMap>, active: map<string, ActiveMap>, own: string -> Owner,
                              held: map<string, map<Slot, int>>, users: seq<User>)
    reads active.Values
  {
    forall k :: !own(k).official ==>
      && (k in active <==> k in before && Listed(users, k))
      && (k in active ==> active[k] == before[k] && k in held && active[k].m == Kept(held[k], ValidSlots(users)))
  }

  lemma SyncedOfficial(shared: map<int, Book>, users: seq<User>, own: string -> Owner, slots: map<string, SlotSet>,
                       active: map<string, ActiveMap>,
                       start: map<int, map<Slot, int>>, was: map<string, Record>, records: map<string, Record>)
    requires slots.Keys == active.Keys && Homed(shared, users, own, slots, active) && SharedPaired(shared) &&
             OutsidePaired(slots, active, own)
    requires Contents(shared, start, was, users, |users|) && RecordsOf(records, users)
    ensures AllPaired(Only(slots, records), Only(active, records)) &&
            OfficialHold(Only(active, records), own, start, was, users)
  {
    forall k | k in Only(slots, records) && own(k).official
      ensures Paired(slots[k], active[k]) && active[k].m == Start(start, own(k).uid) - Bumped(was, users, own(k).uid)
    {
      SyncedContents(shared, users, own, slots, active, start, was, k);
    }
  }

  lemma SyncedOutside(users: seq<User>, own: string -> Owner, before: map<string, SlotSet>,
                      beforeActive: map<string, ActiveMap>,
                      slots: map<string, SlotSet>, active: map<string, ActiveMap>, held: map<string, map<Slot, int>>,
                      records: map<string, Record>)
    requires SameOutside(own, before, beforeActive, slots, active) && OutsideHolds(beforeActive, own, held, users) &&
             RecordsOf(records, users)
    ensures OutsideKept(beforeActive, Only(active, records), own, held, users)
  {
  }

  /** What every sync restores: paired books, one per account, and one for every official key on record. */
  ghost predicate Sound(slots: map<string, SlotSet>, active: map<string, ActiveMap>, records: map<string, Record>,
                        own: string -> Owner)
    reads slots.Values, active.Values
  {
    && Aligned(slots, active) && AllPaired(slots, active) && "" !in slots
    && OnePerAccount(active, own) && Recorded(records, own, slots)
  }

  /** A third-party key may get a book of its own at any time. */
  lemma StillSound(slots: map<string, SlotSet>, active: map<string, ActiveMap>, slots2: map<string, SlotSet>,
                   active2: map<string, ActiveMap>,
                   records: map<string, Record>, own: string -> Owner, key: string)
    requires Aligned(slots, active) && "" !in slots && OnePerAccount(active, own) && Recorded(records, own, slots) &&
             key in records
    requires Aligned(slots2, active2) && AllPaired(slots2, active2)
    requires key in slots ==> slots2 == slots && active2 == active
    requires forall k :: k != key ==>
               (k in slots2 <==> k in slots) && (k in slots ==> slots2[k] == slots[k] && active2[k] == active[k])
    requires key !in slots && key in active2 ==> forall k :: k in active ==> active[k] != active2[key]
    ensures Sound(slots2, active2, records, own)
  {
    if key !in slots {
      assert !own(key).official;
      StillOne(active, active2, own, key);
    }
  }

  lemma SameElsewhere<T>(before: map<string, T>, after: map<string, T>, key: string)
    requires forall k :: k != key ==> (k in after <==> k in before) && (k in after ==> after[k] == before[k])
    ensures after - {key} == before - {key}
  {
  }

  lemma RenewedGone(m: map<Slot, int>, slot: Slot, t: int)
    ensures m[slot := t] - {slot} == m - {slot}
  {
  }

  lemma StillOne(active: map<string, ActiveMap>, active2: map<string, ActiveMap>, own: string -> Owner, key: string)
    requires OnePerAccount(active, own) && key !in active && !own(key).official
    requires forall k :: k != key ==> (k in active2 <==> k in active) && (k in active ==> active2[k] == active[k])
    requires key in active2 ==> forall k :: k in active ==> active[k] != active2[key]
    ensures OnePerAccount(active2, own)
  {
  }

  predicate Int64(n: int) { -MAX_INT64 - 1 <= n <= MAX_INT64 }

  lemma OnlineKeyInjective(c: int, d: int)
    requires Int64(c) && Int64(d) && c != 0 && d != 0
    ensures OnlineKey(c, "") == OnlineKey(d, "") <==> c == d
  {
    OnlineKeyRoundTrip(c, "");
    OnlineKeyRoundTrip(d, "");
  }

  predicate DeviceListed(users: seq<User>, c: int) {
    exists i :: 0 <= i < |users| && users[i].clientID == c
  }

  predicate DeviceKicked(was: map<string, Record>, users: seq<User>, uid: int, c: int) {
    exists i :: 0 <= i < |users| && users[i].uid == uid && users[i].clientID == c && Changed(was, users[i])
  }

  lemma SlotsOfDevices(users: seq<User>, was: map<string, Record>, uid: int, c: int)
    requires c != 0 && Int64(c) && forall i :: 0 <= i < |users| ==> Int64(users[i].clientID)
    ensures OnlineKey(c, "") in ValidSlots(users) <==> DeviceListed(users, c)
    ensures OnlineKey(c, "") in Bumped(was, users, uid) <==> DeviceKicked(was, users, uid, c)
  {
    forall i | 0 <= i < |users| && users[i].clientID != 0
      ensures OnlineKey(users[i].clientID, "") == OnlineKey(c, "") <==> users[i].clientID == c
    {
      OnlineKeyInjective(users[i].clientID, c);
    }
  }

  /** When some credential of the account stays listed, a device keeps its slot through a sync exactly when it
      is still listed and no record under its credentials changed its kick version. `m` is any official book of
      the account after the sync. */
  lemma DeviceKeepsItsSlot(users: seq<User>, was: map<string, Record>, own: string -> Owner,
                           start: map<int, map<Slot, int>>,
                           held: map<string, map<Slot, int>>, k: string, m: map<Slot, int>, c: int)
    requires StartIs(start, users, own, held) && k in held && Listed(users, k) && own(k).official
    requires m == Start(start, own(k).uid) - Bumped(was, users, own(k).uid)
    requires c != 0 && Int64(c) && forall i :: 0 <= i < |users| ==> Int64(users[i].clientID)
    ensures OnlineKey(c, "") in m <==>
              OnlineKey(c, "") in held[k] && DeviceListed(users, c) && !DeviceKicked(was, users, own(k).uid, c)
  {
    SlotsOfDevices(users, was, own(k).uid, c);
    OnlineKeyRoundTrip(c, "");
  }

  /** The slot is that of a listed official device. */
  ghost predicate OfListed(users: seq<User>, s: Slot) {
    exists i :: 0 <= i < |users| && users[i].clientID != 0 && s == OnlineKey(users[i].clientID, "")
  }

  /** The slot is that of a device of the account one of whose credentials was on record with another kick version. */
  ghost predicate OfKicked(was: map<string, Record>, users: seq<User>, uid: int, s: Slot) {
    exists i :: 0 <= i < |users| && users[i].uid == uid && users[i].clientID != 0 &&
                s == OnlineKey(users[i].clientID, "") && OtherVersion(was, users[i])
  }

  predicate OtherVersion(was: map<string, Record>, u: User) {
    || (u.uuid in was && was[u.uuid].kickVersion != u.kickVersion)
    || (u.passwd in was && was[u.passwd].kickVersion != u.kickVersion)
  }

  lemma KeptExactly(m: map<Slot, int>, users: seq<User>, s: Slot)
    ensures s in Kept(m, ValidSlots(users)) <==> s in m && (!BeginsClient(s) || OfListed(users, s))
    ensures s in Kept(m, ValidSlots(users)) ==> Kept(m, ValidSlots(users))[s] == m[s]
  {
    PrefixBegins(s);
    assert OfListed(users, s) <==> s in ValidSlots(users);
  }

  lemma BumpedExactly(was: map<string, Record>, users: seq<User>, uid: int, s: Slot)
    ensures s in Bumped(was, users, uid) <==> OfKicked(was, users, uid, s)
    ensures s in Bumped(was, users, uid) ==> BeginsClient(s)
  {
    forall i | 0 <= i < |users| ensures Changed(was, users[i]) <==> OtherVersion(was, users[i]) {
    }
    if s in Bumped(was, users, uid) {
      var i :| 0 <= i < |users| && users[i].clientID != 0 && s == OnlineKey(users[i].clientID, "");
      KeyBegins(users[i].clientID);
    }
  }

  lemma KeyBegins(c: int)
    requires c != 0
    ensures BeginsClient(OnlineKey(c, ""))
  {
    assert OnlineKey(c, "") == "client-" + Itoa(c);
    assert OnlineKey(c, "")[..7] == "client-";
  }

  /** What a sync leaves in the book of a third-party credential that stays listed: every slot but those of devices no
      longer listed, with the activity it had. */
  lemma OutsideBookIs(before: map<string, ActiveMap>, active: map<string, ActiveMap>, own: string -> Owner,
                      held: map<string, map<Slot, int>>, users: seq<User>, k: string, s: Slot)
    requires OutsideKept(before, active, own, held, users) && k in active && !own(k).official
    ensures k in held
    ensures s in active[k].m <==> s in held[k] && (!BeginsClient(s) || OfListed(users, s))
    ensures s in active[k].m ==> active[k].m[s] == held[k][s]
  {
    KeptExactly(held[k], users, s);
  }

  /** What a sync leaves in an official book, against a listed credential's book from before: every slot but those of
      devices no longer listed and of devices of the account with another kick version, with the activity it had. */
  lemma OfficialBookIs(active: map<string, ActiveMap>, own: string -> Owner, start: map<int, map<Slot, int>>,
                       was: map<string, Record>, users: seq<User>, held: map<string, map<Slot, int>>, j: string,
                       k: string, s: Slot)
    requires StartIs(start, users, own, held) && OfficialHold(active, own, start, was, users)
    requires k in active && own(k).official && j in held && Listed(users, j) && own(j) == own(k)
    ensures s in active[k].m <==>
              && s in held[j] && (!BeginsClient(s) || OfListed(users, s))
              && !OfKicked(was, users, own(k).uid, s)
    ensures s in active[k].m ==> active[k].m[s] == held[j][s]
    ensures !BeginsClient(s) ==> (s in active[k].m <==> s in held[j])
  {
    KeptExactly(held[j], users, s);
    BumpedExactly(was, users, own(k).uid, s);
  }

  /** A credential resolves to a slot exactly if it is on record, has not expired and carries the kick version asked
      for, if one is: that of its device, or for a third party its exit address. */
  lemma ResolvesExactly(records: map<string, Record>, key: string, host: string, version: Option<nat>, expired: bool,
                        slot: Slot)
    ensures Resolved(records, key, host, version, expired) == Some(slot) <==>
              && key in records && !expired && (version.Some? ==> records[key].kickVersion == version.value)
              && slot == if records[key].clientID == 0 then host else "client-" + Itoa(records[key].clientID)
  {
  }

  /** A re-check is refused, and leaves the book alone, if the credential is not on record, has expired, or was taken
      with a kick version that is no longer that of its record. */
  lemma OutdatedIsRefused(records: map<string, Record>, key: string, host: string, version: Option<nat>, expired: bool,
                          limit: int, globally: bool, lapsed: bool, online: bool, was: map<Slot, int>,
                          book: map<Slot, int>, at: int, stamp: int)
    requires Rechecked(Resolved(records, key, host, version, expired), limit, globally, lapsed, online, was, book, at,
                       stamp)
    requires key !in records || expired || (version.Some? && version.value != records[key].kickVersion)
    ensures !online && book == was
  {
  }

  /** A re-check lets a credential go on exactly if its slot was active within the last minute, or there is no limit,
      or fewer slots than the limit were; and if it was not active within the last ten seconds, the cross-node verdict
      must be good. Only the slot's own time changes: it is written when ten seconds are over, and the slot is gone
      after a bad verdict. */
  lemma RecheckIs(slot: Slot, limit: int, globally: bool, lapsed: bool, online: bool, was: map<Slot, int>,
                  book: map<Slot, int>, at: int, stamp: int)
    requires Rechecked(Some(slot), limit, globally, lapsed, online, was, book, at, stamp)
    ensures var room := limit <= 0 || slot in ActiveAt(was, at) || |ActiveAt(was, at)| < limit;
            var recent := slot in was && at - was[slot] < 10 * 1_000_000_000;
            && (online <==> slot != "" && room && (recent || globally))
            && book - {slot} == was - {slot}
            && (if slot == "" || !room || recent then book == was
                else if globally || lapsed then slot in book && book[slot] == stamp else slot !in book)
  {
    RoomExactly(was, slot, limit, at);
  }

  /** A connection is let in exactly if its credential resolves to a slot at both looks, the cross-node verdict is
      good, and the panel granted it or there was room in the book as last looked at: no limit, the slot active within
      the last minute, or fewer than the limit. The panel is asked exactly if the first look found no room. Who is let
      in holds the slot. After a bad verdict the slot leaves the book, and nobody else's does. */
  lemma ConnectionIs(slot: Option<Slot>, globally: bool, lapsed: bool, allowed: bool, grant: Grant, kicked: seq<Slot>,
                     trace: Trace, asked: bool, last: Grant, was: map<Slot, int>, begunAt: int, found: map<Slot, int>,
                     foundAt: int, book: map<Slot, int>, now: int)
    requires Connects(slot, globally, lapsed, allowed, grant, kicked, trace, asked, last, was, begunAt, found, foundAt,
                      book, now)
    ensures slot == None || slot == Some("") || lapsed || !globally ==> !allowed
    ensures slot.Some? && slot.value != "" && globally && !lapsed ==>
              var met := ActiveAt(was, trace.firstAt);
              asked <==>
              && trace.first.authorized
              && slot.value !in met && 0 < trace.first.limit <= |met|
    ensures slot.Some? && slot.value != "" && globally && !lapsed ==>
              var looked := ActiveAt(if asked then found else was, trace.lastAt);
              var limit := trace.last.limit;
              allowed <==>
              && trace.last.authorized
              && ((asked && last.granted) || limit <= 0 || slot.value in looked || |looked| < limit)
    ensures allowed ==> slot.value in book && book[slot.value] == now
    ensures slot.Some? && !globally && !lapsed ==> book == was - {slot.value}
    ensures slot == None || lapsed ==> book == was
  {
    if slot.Some? {
      RoomExactly(was, slot.value, trace.first.limit, trace.firstAt);
      RoomExactly(if asked then found else was, slot.value, trace.last.limit, trace.lastAt);
    }
  }

  /** An account none of whose listed credentials had a book starts with an empty one. */
  lemma NewAccountStartsEmpty(users: seq<User>, was: map<string, Record>, own: string -> Owner,
                              start: map<int, map<Slot, int>>,
                              held: map<string, map<Slot, int>>, uid: int)
    requires StartIs(start, users, own, held) &&
             forall k :: k in held && Listed(users, k) ==> own(k) != Owner(uid, true)
    ensures Start(start, uid) - Bumped(was, users, uid) == map[]
  {
    assert uid !in start;
  }
}
