/** How a node turns a list of users into sync scripts: what it remembers of its scope, whom it reports as
    gone, and the batches it sends. */
module GlobalSync {
  import opened Wrappers
  import G = GlobalLimit
  import P = GlobalLimitProofs
  import V = GlobalVersions
  import L = GlobalLeases
  import B = BookSharing
  import D = Decimal

  datatype UserInfo = UserInfo(uid: int, clientID: int, kickVersion: nat, validUntil: int, deviceLimit: int)

  /** The limit and the end of the authorization as a list states them. */
  datatype Terms = Terms(limit: int, until: int)

  /** One device of a script run, with the terms to store for it: `revoked` where its account is still listed,
      `detached` where it is not itself. */
  datatype Entry = Entry(user: UserInfo, terms: Option<Terms>, revoked: bool, detached: bool)

  type Known = map<int, UserInfo>

  const BATCH_SIZE: nat := 64

  // ---------------------------------------------------------------- remembering a list

  /** An authorization end, 0 for none, is at least another. */
  predicate LastsAsLong(a: int, b: int) {
    a == 0 || (b != 0 && a >= b)
  }

  function LongerOf(a: int, b: int): int {
    if a == 0 || b == 0 then 0 else if a >= b then a else b
  }

  function Extended(known: Known, u: UserInfo): UserInfo {
    if u.clientID in known then u.(validUntil := LongerOf(known[u.clientID].validUntil, u.validUntil)) else u
  }

  /** What the node remembers after the first `n` users of a list. */
  function Remember(known: Known, users: seq<UserInfo>, n: nat): Known
    requires n <= |users|
  {
    if n == 0 then known
    else
      var before := Remember(known, users, n - 1);
      if users[n - 1].clientID == 0 then before else before[users[n - 1].clientID := Extended(before, users[n - 1])]
  }

  predicate DeviceIn(users: seq<UserInfo>, n: nat, c: int)
    requires n <= |users|
  {
    exists i :: 0 <= i < n && users[i].clientID == c
  }

  predicate AccountIn(users: seq<UserInfo>, n: nat, uid: int)
    requires n <= |users|
  {
    exists i :: 0 <= i < n && users[i].uid == uid
  }

  /** The terms of a device are those it is last listed with. */
  function TermsOf(users: seq<UserInfo>, n: nat, c: int): Option<Terms>
    requires n <= |users|
  {
    if n == 0 then None
    else if users[n - 1].clientID == c then Some(Terms(users[n - 1].deviceLimit, users[n - 1].validUntil))
    else TermsOf(users, n - 1, c)
  }

  /** `i` is where the device is last listed among the first `n` users. */
  ghost predicate LastListed(users: seq<UserInfo>, n: nat, c: int, i: int)
    requires n <= |users|
  {
    0 <= i < n && users[i].clientID == c && forall j :: i < j < n ==> users[j].clientID != c
  }

  /** `end` is the longest of the end remembered of a device and those it is listed with so far. */
  ghost predicate LongestEnd(end: int, known: Known, users: seq<UserInfo>, n: nat, c: int)
    requires n <= |users|
  {
    && (c in known ==> LastsAsLong(end, known[c].validUntil))
    && (forall j :: 0 <= j < n && users[j].clientID == c ==> LastsAsLong(end, users[j].validUntil))
    && (|| (c in known && end == known[c].validUntil)
        || (exists j :: 0 <= j < n && users[j].clientID == c && end == users[j].validUntil))
  }

  /** Every device is remembered under its own id. */
  ghost predicate Sound(known: Known) {
    forall c :: c in known ==> c != 0 && known[c].clientID == c
  }

  lemma LongerLasts(a: int, b: int)
    ensures LastsAsLong(LongerOf(a, b), a) && LastsAsLong(LongerOf(a, b), b)
  {
  }

  /** A device a node has authorized keeps its authorization at least as long, whatever is listed later. */
  lemma {:induction false} NeverShortened(known: Known, users: seq<UserInfo>, n: nat, c: int)
    requires Sound(known) && n <= |users|
    ensures Sound(Remember(known, users, n))
    ensures c in known ==>
              c in Remember(known, users, n) &&
              LastsAsLong(Remember(known, users, n)[c].validUntil, known[c].validUntil)
    ensures c in Remember(known, users, n) <==> c in known || (c != 0 && DeviceIn(users, n, c))
  {
    if n > 0 {
      NeverShortened(known, users, n - 1, c);
      var before, u := Remember(known, users, n - 1), users[n - 1];
      if u.clientID == c && c in before { LongerLasts(before[c].validUntil, u.validUntil); }
      assert DeviceIn(users, n, c) <==> DeviceIn(users, n - 1, c) || u.clientID == c;
    }
  }

  // ---------------------------------------------------------------- who is gone

  /** The entry of a device that is remembered but no longer listed. */
  predicate Departed(known: Known, users: seq<UserInfo>, e: Entry) {
    && e.user.clientID in known && known[e.user.clientID] == e.user && !DeviceIn(users, |users|, e.user.clientID)
    && e.terms == None && e.detached && (e.revoked <==> AccountIn(users, |users|, e.user.uid))
  }

  /** The users of the list as they are sent: each with the longest authorization known by then. */
  function Sent(known: Known, users: seq<UserInfo>, i: nat): Entry
    requires i < |users|
  {
    Entry(if users[i].clientID == 0 then users[i] else Extended(Remember(known, users, i), users[i]),
          TermsOf(users, |users|, users[i].clientID), false, false)
  }

  lemma LongerIs(a: int, b: int)
    ensures LongerOf(a, b) == a || LongerOf(a, b) == b
    ensures forall c :: LastsAsLong(a, c) || LastsAsLong(b, c) ==> LastsAsLong(LongerOf(a, b), c)
  {
  }

  /** `u` is what a node remembers of a device after the first `n` users of a list: its last listing, or what it
      remembered before, with the longest end. */
  ghost predicate Recalls(u: UserInfo, known: Known, users: seq<UserInfo>, n: nat, c: int)
    requires n <= |users|
  {
    && LongestEnd(u.validUntil, known, users, n, c)
    && (forall i :: LastListed(users, n, c, i) ==> u == users[i].(validUntil := u.validUntil))
    && (!DeviceIn(users, n, c) ==> c in known && u == known[c])
  }

  /** A user of another device changes nothing for this one. */
  lemma AnotherDevice(known: Known, users: seq<UserInfo>, n: nat, c: int)
    requires 0 < n <= |users| && users[n - 1].clientID != c
    ensures DeviceIn(users, n, c) <==> DeviceIn(users, n - 1, c)
    ensures forall i :: LastListed(users, n, c, i) ==> LastListed(users, n - 1, c, i)
    ensures forall end :: LongestEnd(end, known, users, n - 1, c) ==> LongestEnd(end, known, users, n, c)
  {
  }

  lemma SameDevice(known: Known, users: seq<UserInfo>, n: nat, c: int)
    requires 0 < n <= |users| && users[n - 1].clientID == c
    ensures DeviceIn(users, n, c) && forall i :: LastListed(users, n, c, i) ==> i == n - 1
  {
  }

  lemma LongestMore(end: int, known: Known, users: seq<UserInfo>, n: nat, c: int)
    requires 0 < n <= |users| && users[n - 1].clientID == c && LongestEnd(end, known, users, n - 1, c)
    ensures LongestEnd(LongerOf(end, users[n - 1].validUntil), known, users, n, c)
  {
    LongerIs(end, users[n - 1].validUntil);
  }

  lemma LongestFirst(known: Known, users: seq<UserInfo>, n: nat, c: int)
    requires 0 < n <= |users| && users[n - 1].clientID == c && c !in known && !DeviceIn(users, n - 1, c)
    ensures LongestEnd(users[n - 1].validUntil, known, users, n, c)
  {
  }

  lemma {:induction false} RememberMeans(known: Known, users: seq<UserInfo>, n: nat, c: int)
    requires Sound(known) && n <= |users| && c in Remember(known, users, n)
    ensures Recalls(Remember(known, users, n)[c], known, users, n, c)
  {
    if n > 0 {
      var before, u := Remember(known, users, n - 1), users[n - 1];
      if c in before { RememberMeans(known, users, n - 1, c); }
      if u.clientID != c {
        AnotherDevice(known, users, n, c);
      } else {
        NeverShortened(known, users, n - 1, c);
        SameDevice(known, users, n, c);
        if c in before {
          LongestMore(before[c].validUntil, known, users, n, c);
        } else {
          LongestFirst(known, users, n, c);
        }
      }
    }
  }

  lemma {:induction false} TermsMean(users: seq<UserInfo>, n: nat, c: int)
    requires n <= |users|
    ensures TermsOf(users, n, c) == None <==> !DeviceIn(users, n, c)
    ensures forall i :: LastListed(users, n, c, i) ==>
                          TermsOf(users, n, c) == Some(Terms(users[i].deviceLimit, users[i].validUntil))
  {
    if n > 0 && users[n - 1].clientID == c {
      SameDevice(map[], users, n, c);
    } else if n > 0 {
      TermsMean(users, n - 1, c);
      AnotherDevice(map[], users, n, c);
    }
  }

  /** `e` is what a sync says of the listed user `i`: that user in everything but the end, and the longest end known
      by then; with the terms of the device's last listing, neither revoked nor detached. */
  ghost predicate Says(e: Entry, known: Known, users: seq<UserInfo>, i: nat)
    requires i < |users|
  {
    var c := users[i].clientID;
    && e.user == users[i].(validUntil := e.user.validUntil)
    && (if c == 0 then e.user == users[i] else LongestEnd(e.user.validUntil, known, users, i + 1, c))
    && (forall l :: LastListed(users, |users|, c, l) ==>
          e.terms == Some(Terms(users[l].deviceLimit, users[l].validUntil)))
    && !e.revoked && !e.detached
  }

  lemma SentMeans(known: Known, users: seq<UserInfo>, i: nat)
    requires Sound(known) && i < |users|
    ensures Says(Sent(known, users, i), known, users, i)
  {
    TermsMean(users, |users|, users[i].clientID);
    if users[i].clientID != 0 {
      RememberMeans(known, users, i + 1, users[i].clientID);
      assert LastListed(users, i + 1, users[i].clientID, i);
    }
  }

  /** What one sync sends: the list in order, then everybody who left, once. */
  ghost predicate IsPlan(plan: seq<Entry>, known: Known, users: seq<UserInfo>) {
    && |users| <= |plan|
    && (forall i :: 0 <= i < |users| ==> plan[i] == Sent(known, users, i))
    && (forall i :: |users| <= i < |plan| ==> Departed(Remember(known, users, |users|), users, plan[i]))
    && (forall i, j :: |users| <= i < j < |plan| ==> plan[i].user.clientID != plan[j].user.clientID)
    && (forall c :: c in known && !DeviceIn(users, |users|, c) ==>
          exists i :: |users| <= i < |plan| && plan[i].user.clientID == c)
  }

  // ---------------------------------------------------------------- batches

  /** The entries that name an official device; the others have no ledger of their own here. */
  function Devices(plan: seq<Entry>): seq<Entry> {
    if plan == [] then []
    else Devices(plan[..|plan| - 1]) + (if plan[|plan| - 1].user.clientID != 0 then [plan[|plan| - 1]] else [])
  }

  function Flat(batches: seq<seq<Entry>>): seq<Entry> {
    if batches == [] then [] else Flat(batches[..|batches| - 1]) + batches[|batches| - 1]
  }

  lemma DevicesSnoc(plan: seq<Entry>, i: nat)
    requires i < |plan|
    ensures Devices(plan[..i + 1]) == Devices(plan[..i]) + (if plan[i].user.clientID != 0 then [plan[i]] else [])
  {
    TakeTake(plan, i + 1, i);
  }

  /** Every entry of an official device is sent as often as it is planned, and no other. */
  lemma {:induction false} DevicesAre(plan: seq<Entry>, e: Entry)
    ensures multiset(Devices(plan))[e] == if e.user.clientID != 0 then multiset(plan)[e] else 0
  {
    if plan != [] {
      Unsnoc(plan);
      DevicesAre(plan[..|plan| - 1], e);
    }
  }

  lemma FlatSnoc(batches: seq<seq<Entry>>, batch: seq<Entry>)
    ensures Flat(batches + [batch]) == Flat(batches) + batch
  {
    InitSnoc(batches, batch);
  }

  /** Full batches first, a last one that may be short. */
  ghost predicate Batched(batches: seq<seq<Entry>>) {
    && (forall i :: 0 <= i < |batches| ==> 0 < |batches[i]| <= BATCH_SIZE)
    && (forall i :: 0 <= i < |batches| - 1 ==> |batches[i]| == BATCH_SIZE)
  }

  ghost predicate AllFull(batches: seq<seq<Entry>>) {
    forall i :: 0 <= i < |batches| ==> |batches[i]| == BATCH_SIZE
  }

  lemma BatchMore(batches: seq<seq<Entry>>, batch: seq<Entry>)
    requires AllFull(batches) && 0 < |batch| <= BATCH_SIZE
    ensures Flat(batches + [batch]) == Flat(batches) + batch && Batched(batches + [batch])
    ensures |batch| == BATCH_SIZE ==> AllFull(batches + [batch])
  {
    FlatSnoc(batches, batch);
  }

  /** Redis behind a connection: a script run that fails may have taken place all the same. */
  class Redis {
    ghost var ran: seq<seq<Entry>>
    ghost var failures: nat

    constructor ()
      ensures ran == [] && failures == 0
    {
      ran, failures := [], 0;
    }

    method Run(batch: seq<Entry>) returns (ok: bool)
      modifies this
      ensures ran == old(ran) + [batch] || (!ok && ran == old(ran))
      ensures failures == old(failures) + if ok then 0 else 1
    {
      ok := *;
      if !ok { failures := failures + 1; }
      ghost var arrived: bool := *;
      if ok || arrived { ran := ran + [batch]; }
    }
  }

  /** The batches have been run, but for the last one if the sync failed: that one may have been. */
  ghost predicate HasRun(before: seq<seq<Entry>>, after: seq<seq<Entry>>, batches: seq<seq<Entry>>, ok: bool) {
    || after == before + batches
    || (!ok && batches != [] && after == before + batches[..|batches| - 1])
  }

  lemma RunMore(before: seq<seq<Entry>>, done: seq<seq<Entry>>, batch: seq<Entry>, ran: seq<seq<Entry>>, ok: bool)
    requires ran == before + done + [batch] || (!ok && ran == before + done)
    ensures HasRun(before, ran, done + [batch], ok)
  {
    assert before + done + [batch] == before + (done + [batch]) && (done + [batch])[..|done|] == done;
  }

  lemma {:induction false} DevicesPrefix(plan: seq<Entry>, n: nat)
    requires n <= |plan|
    ensures Devices(plan[..n]) <= Devices(plan)
    decreases |plan| - n
  {
    if n == |plan| {
      assert plan[..n] == plan;
    } else {
      DevicesSnoc(plan, n);
      DevicesPrefix(plan, n + 1);
      assert Devices(plan[..n]) <= Devices(plan[..n + 1]);
    }
  }

  /** The sending loop of `syncUsers`. It stops at the first script run that fails. */
  method SendBatches(plan: seq<Entry>, redis: Redis) returns (ok: bool, ghost batches: seq<seq<Entry>>)
    modifies redis
    ensures Batched(batches) && HasRun(old(redis.ran), redis.ran, batches, ok)
    ensures ok <==> redis.failures == old(redis.failures)
    ensures if ok then Flat(batches) == Devices(plan) else batches != [] && Flat(batches) <= Devices(plan)
  {
    batches := [];
    var keys: seq<Entry> := [];
    assert redis.ran == redis.ran + batches;
    for i := 0 to |plan|
      invariant redis.ran == old(redis.ran) + batches && redis.failures == old(redis.failures)
      invariant Flat(batches) + keys == Devices(plan[..i])
      invariant |keys| < BATCH_SIZE && (0 < i == |plan| ==> keys == [])
      invariant Batched(batches) && (i < |plan| ==> AllFull(batches))
    {
      DevicesSnoc(plan, i);
      ghost var before, device := keys, if plan[i].user.clientID != 0 then [plan[i]] else [];
      if plan[i].user.clientID != 0 { keys := keys + [plan[i]]; }
      assert Flat(batches) + before + device == Flat(batches) + keys;
      if |keys| == 0 || (|keys| < BATCH_SIZE && i < |plan| - 1) { continue; }
      BatchMore(batches, keys);
      var run := redis.Run(keys);
      RunMore(old(redis.ran), batches, keys, redis.ran, run);
      batches := batches + [keys];
      if !run {
        DevicesPrefix(plan, i + 1);
        return false, batches;
      }
      keys := [];
    }
    assert plan[..|plan|] == plan && Flat(batches) + [] == Flat(batches);
    ok := true;
  }

  // ---------------------------------------------------------------- syncUsers

  /** A remembered device goes once it is reported gone from a listed account, or once its authorization and
      the grace after it are over in an account no longer listed. */
  predicate Dropped(users: seq<UserInfo>, u: UserInfo, expiry: int, now: int) {
    if AccountIn(users, |users|, u.uid) then !DeviceIn(users, |users|, u.clientID)
    else u.validUntil != 0 && u.validUntil + expiry <= now
  }

  ghost predicate IsLeft(left: Known, known: Known, users: seq<UserInfo>, expiry: int, now: int) {
    && (forall c :: c in left <==> c in known && !Dropped(users, known[c], expiry, now))
    && (forall c :: c in left ==> left[c] == known[c])
  }

  lemma LastIs(users: seq<UserInfo>, n: nat, c: int) returns (i: nat)
    requires n <= |users| && DeviceIn(users, n, c)
    ensures LastListed(users, n, c, i)
  {
    if users[n - 1].clientID == c { return n - 1; }
    assert DeviceIn(users, n - 1, c);
    i := LastIs(users, n - 1, c);
  }

  /** After a sync without failure a device is remembered exactly while it is listed, or, once its whole account is no
      longer listed, until an idle allowance after its authorization. */
  lemma LeftExactly(known: Known, users: seq<UserInfo>, left: Known, expiry: int, now: int, c: int)
    requires Sound(known) && c in Remember(known, users, |users|)
    requires IsLeft(left, Remember(known, users, |users|), users, expiry, now)
    ensures var u := Remember(known, users, |users|)[c];
            && (c in left <==>
                  || DeviceIn(users, |users|, c)
                  || (!AccountIn(users, |users|, u.uid) && (u.validUntil == 0 || now < u.validUntil + expiry)))
            && (c in left ==> left[c] == u)
  {
    NeverShortened(known, users, |users|, c);
    RememberMeans(known, users, |users|, c);
    if DeviceIn(users, |users|, c) {
      var i := LastIs(users, |users|, c);
      assert AccountIn(users, |users|, users[i].uid);
    }
  }

  lemma RememberedUnlisted(known: Known, users: seq<UserInfo>, n: nat, c: int)
    requires Sound(known) && n <= |users| && !DeviceIn(users, n, c)
    ensures c in Remember(known, users, n) <==> c in known
  {
    NeverShortened(known, users, n, c);
  }

  /** What a node remembers of one scope, and the list it has still to send after a failure. */
  class ScopeSync {
    var known: Known
    var pending: Option<seq<UserInfo>>

    constructor ()
      ensures known == map[] && pending == None
    {
      known, pending := map[], None;
    }

    /** The list part of `syncUsers`: remember, extend, and note accounts and devices. */
    method Note(users: seq<UserInfo>) returns (plan: seq<Entry>, accounts: set<int>, clients: set<int>)
      modifies this`known
      ensures known == Remember(old(known), users, |users|) && |plan| == |users|
      ensures forall i :: 0 <= i < |users| ==> plan[i] == Sent(old(known), users, i)
      ensures Sound(old(known)) ==> forall i :: 0 <= i < |users| ==> Says(plan[i], old(known), users, i)
      ensures Sound(old(known)) ==> forall c :: c in known ==> Recalls(known[c], old(known), users, |users|, c)
      ensures forall uid :: uid in accounts <==> AccountIn(users, |users|, uid)
      ensures forall c :: c in clients <==> DeviceIn(users, |users|, c)
    {
      plan, accounts, clients := [], {}, {};
      var terms := ListTerms(users);
      for i := 0 to |users|
        invariant known == Remember(old(known), users, i) && |plan| == i
        invariant forall j :: 0 <= j < i ==> plan[j] == Sent(old(known), users, j)
        invariant forall uid :: uid in accounts <==> AccountIn(users, i, uid)
        invariant forall c :: c in clients <==> DeviceIn(users, i, c)
      {
        var user := users[i];
        accounts, clients := accounts + {user.uid}, clients + {user.clientID};
        if user.clientID != 0 {
          if user.clientID in known {
            var before := known[user.clientID];
            user := user.(validUntil := if before.validUntil == 0 || user.validUntil == 0 then 0
                                        else if before.validUntil >= user.validUntil then before.validUntil
                                          else user.validUntil);
          }
          known := known[user.clientID := user];
        }
        plan := plan + [Entry(user, Some(terms[user.clientID]), false, false)];
      }
      if Sound(old(known)) { NoteMeans(old(known), users); }
    }

    /** The policies of a list: a later listing of a device replaces an earlier one. */
    static method ListTerms(users: seq<UserInfo>) returns (terms: map<int, Terms>)
      ensures forall c :: c in terms <==> TermsOf(users, |users|, c).Some?
      ensures forall c :: c in terms ==> TermsOf(users, |users|, c) == Some(terms[c])
      ensures forall i :: 0 <= i < |users| ==> users[i].clientID in terms
    {
      terms := map[];
      for i := 0 to |users|
        invariant forall c :: c in terms <==> TermsOf(users, i, c).Some?
        invariant forall c :: c in terms ==> TermsOf(users, i, c) == Some(terms[c])
        invariant forall j :: 0 <= j < i ==> users[j].clientID in terms
      {
        terms := terms[users[i].clientID := Terms(users[i].deviceLimit, users[i].validUntil)];
      }
    }

    /** Those remembered but not listed, in no particular order. */
    method NoteDeparted(users: seq<UserInfo>, accounts: set<int>, clients: set<int>) returns (gone: seq<Entry>)
      requires Sound(known)
      requires forall uid :: uid in accounts <==> AccountIn(users, |users|, uid)
      requires forall c :: c in clients <==> DeviceIn(users, |users|, c)
      ensures forall i :: 0 <= i < |gone| ==> Departed(known, users, gone[i])
      ensures forall i, j :: 0 <= i < j < |gone| ==> gone[i].user.clientID != gone[j].user.clientID
      ensures forall c :: c in known && !DeviceIn(users, |users|, c) ==>
                exists i :: 0 <= i < |gone| && gone[i].user.clientID == c
    {
      gone := [];
      var todo := known.Keys;
      while todo != {}
        invariant todo <= known.Keys
        invariant forall i :: 0 <= i < |gone| ==> Departed(known, users, gone[i]) && gone[i].user.clientID !in todo
        invariant forall i, j :: 0 <= i < j < |gone| ==> gone[i].user.clientID != gone[j].user.clientID
        invariant forall c :: c in known && c !in todo && !DeviceIn(users, |users|, c) ==>
                    exists i :: 0 <= i < |gone| && gone[i].user.clientID == c
        decreases |todo|
      {
        var c := Pick(todo);
        todo := todo - {c};
        var u := known[c];
        if u.clientID != 0 && u.clientID !in clients {
          ghost var before := gone;
          gone := gone + [Entry(u, None, u.uid in accounts, true)];
          assert gone[|before|].user.clientID == c;
          assert forall i :: 0 <= i < |before| ==> gone[i] == before[i];
        }
      }
    }

    /** `syncUsers` for one scope. A failed script run leaves the list pending, and forgets nobody. */
    method SyncUsers(users: seq<UserInfo>, expiry: int, now: int, redis: Redis)
      returns (ok: bool, ghost batches: seq<seq<Entry>>, ghost plan: seq<Entry>)
      requires Sound(known)
      modifies this, redis
      ensures IsPlan(plan, old(known), users) && Batched(batches) && HasRun(old(redis.ran), redis.ran, batches, ok)
      ensures forall i :: 0 <= i < |batches| ==> 1 <= |batches[i]| <= 64 && (i < |batches| - 1 ==> |batches[i]| == 64)
      ensures if ok then Flat(batches) == Devices(plan) else batches != [] && Flat(batches) <= Devices(plan)
      ensures ok <==> redis.failures == old(redis.failures)
      ensures pending == if ok then None else Some(users)
      ensures !ok ==> known == Remember(old(known), users, |users|)
      ensures ok ==> IsLeft(known, Remember(old(known), users, |users|), users, expiry, now)
      ensures Sound(known)
    {
      ghost var was := known;
      var updates, accounts, clients := Note(users);
      SoundAfter(was, users);
      var gone := NoteDeparted(users, accounts, clients);
      PlanIs(was, users, updates, gone);
      plan := updates + gone;
      ok, batches := SendBatches(updates + gone, redis);
      if !ok {
        pending := Some(users);
        return;
      }
      Forget(users, accounts, clients, expiry, now);
      pending := None;
    }

    /** `syncPending`: send the pending list again. `plan` is what it sends; nothing is sent if nothing is pending. */
    method SyncPending(expiry: int, now: int, redis: Redis) returns (ok: bool, ghost plan: seq<Entry>)
      requires Sound(known)
      modifies this, redis
      ensures Sound(known) && (ok <==> pending == None) && (ok <==> redis.failures == old(redis.failures))
      ensures old(pending) == None ==> ok && known == old(known) && redis.ran == old(redis.ran)
      ensures old(pending).Some? ==>
                var users := old(pending).value;
                && IsPlan(plan, old(known), users)
                && (if ok then IsLeft(known, Remember(old(known), users, |users|), users, expiry, now)
                    else known == Remember(old(known), users, |users|) && pending == old(pending))
      ensures old(pending).Some? && ok ==>
                exists batches :: redis.ran == old(redis.ran) + batches && Flat(batches) == Devices(plan)
    {
      plan := [];
      if pending == None { return true, plan; }
      ghost var batches;
      ok, batches, plan := SyncUsers(pending.value, expiry, now, redis);
    }

    method Forget(users: seq<UserInfo>, accounts: set<int>, clients: set<int>, expiry: int, now: int)
      requires Sound(known)
      requires forall uid :: uid in accounts <==> AccountIn(users, |users|, uid)
      requires forall c :: c in clients <==> DeviceIn(users, |users|, c)
      modifies this`known
      ensures IsLeft(known, old(known), users, expiry, now)
    {
      var entries := known;
      var todo := entries.Keys;
      while todo != {}
        invariant todo <= entries.Keys
        invariant forall c :: c in known <==> c in entries && (c in todo || !Dropped(users, entries[c], expiry, now))
        invariant forall c :: c in known ==> known[c] == entries[c]
        decreases |todo|
      {
        var c := Pick(todo);
        todo := todo - {c};
        var u := entries[c];
        var removed := u.clientID !in clients && u.uid in accounts;
        if removed || (u.uid !in accounts && u.validUntil != 0 && u.validUntil + expiry <= now) {
          known := known - {c};
        }
      }
    }
  }

  lemma NoteMeans(known: Known, users: seq<UserInfo>)
    requires Sound(known)
    ensures forall i :: 0 <= i < |users| ==> Says(Sent(known, users, i), known, users, i)
    ensures var all := Remember(known, users, |users|);
            forall c :: c in all ==> Recalls(all[c], known, users, |users|, c)
  {
    forall i | 0 <= i < |users| ensures Says(Sent(known, users, i), known, users, i) { SentMeans(known, users, i); }
    var all := Remember(known, users, |users|);
    forall c | c in all ensures Recalls(all[c], known, users, |users|, c) { RememberMeans(known, users, |users|, c); }
  }

  lemma SoundAfter(known: Known, users: seq<UserInfo>)
    requires Sound(known)
    ensures Sound(Remember(known, users, |users|))
  {
    NeverShortened(known, users, |users|, 0);
  }

  lemma PlanIs(known: Known, users: seq<UserInfo>, updates: seq<Entry>, gone: seq<Entry>)
    requires Sound(known) && |updates| == |users| &&
             forall i :: 0 <= i < |users| ==> updates[i] == Sent(known, users, i)
    requires forall i :: 0 <= i < |gone| ==> Departed(Remember(known, users, |users|), users, gone[i])
    requires forall i, j :: 0 <= i < j < |gone| ==> gone[i].user.clientID != gone[j].user.clientID
    requires forall c :: c in Remember(known, users, |users|) && !DeviceIn(users, |users|, c) ==>
               exists i :: 0 <= i < |gone| && gone[i].user.clientID == c
    ensures IsPlan(updates + gone, known, users)
  {
    var plan := updates + gone;
    assert forall i :: |users| <= i < |plan| ==> plan[i] == gone[i - |users|];
    forall c | c in known && !DeviceIn(users, |users|, c)
      ensures exists i :: |users| <= i < |plan| && plan[i].user.clientID == c
    {
      RememberedUnlisted(known, users, |users|, c);
      var i :| 0 <= i < |gone| && gone[i].user.clientID == c;
      assert plan[|users| + i] == gone[i];
    }
  }

  // ---------------------------------------------------------------- sending again

  lemma LongerKnown(a: int, b: int, c: int)
    ensures LastsAsLong(a, b) ==> LongerOf(a, b) == a
    ensures LastsAsLong(a, b) && LastsAsLong(b, c) ==> LastsAsLong(a, c)
  {
  }

  /** What is remembered of a device later in a list lasts at least as long. */
  lemma {:induction false} LaterLasts(known: Known, users: seq<UserInfo>, n: nat, m: nat, c: int)
    requires Sound(known) && n <= m <= |users| && c in Remember(known, users, n)
    ensures c in Remember(known, users, m)
    ensures LastsAsLong(Remember(known, users, m)[c].validUntil, Remember(known, users, n)[c].validUntil)
  {
    if n < m {
      LaterLasts(known, users, n, m - 1, c);
      NeverShortened(known, users, m - 1, c);
      var before, u := Remember(known, users, m - 1), users[m - 1];
      if u.clientID == c {
        LongerLasts(before[c].validUntil, u.validUntil);
        LongerKnown(LongerOf(before[c].validUntil, u.validUntil), before[c].validUntil,
                    Remember(known, users, n)[c].validUntil);
      }
    }
  }

  /** A user of the list is remembered with an authorization no shorter than listed. */
  lemma ListedLasts(known: Known, users: seq<UserInfo>, i: nat)
    requires Sound(known) && i < |users| && users[i].clientID != 0
    ensures var all := Remember(known, users, |users|);
            users[i].clientID in all && LastsAsLong(all[users[i].clientID].validUntil, users[i].validUntil)
  {
    var c, before := users[i].clientID, Remember(known, users, i);
    var now := Remember(known, users, i + 1);
    if c in before { LongerLasts(before[c].validUntil, users[i].validUntil); }
    LaterLasts(known, users, i + 1, |users|, c);
    LongerKnown(Remember(known, users, |users|)[c].validUntil, now[c].validUntil, users[i].validUntil);
  }

  /** Going through the list once more, each device listed so far is as the first time, with the longest end. */
  lemma {:induction false} SecondTime(known: Known, users: seq<UserInfo>, n: nat, c: int)
    requires Sound(known) && n <= |users| && c in Remember(known, users, |users|)
    ensures var all := Remember(known, users, |users|);
            && c in Remember(all, users, n)
            && (if DeviceIn(users, n, c) then
                  && c in Remember(known, users, n)
                  && Remember(all, users, n)[c] == Remember(known, users, n)[c].(validUntil := all[c].validUntil)
                else Remember(all, users, n)[c] == all[c])
  {
    var all := Remember(known, users, |users|);
    if n > 0 {
      SecondTime(known, users, n - 1, c);
      var u := users[n - 1];
      assert DeviceIn(users, n, c) <==> DeviceIn(users, n - 1, c) || u.clientID == c;
      if u.clientID == c {
        NeverShortened(known, users, |users|, c);
        ListedLasts(known, users, n - 1);
        LongerKnown(all[c].validUntil, u.validUntil, 0);
      }
    }
  }

  /** Remembering a list a second time changes nothing. */
  lemma RememberTwice(known: Known, users: seq<UserInfo>)
    requires Sound(known)
    ensures var all := Remember(known, users, |users|); Remember(all, users, |users|) == all
  {
    var all := Remember(known, users, |users|);
    forall c ensures c in Remember(all, users, |users|) <==> c in all {
      NeverShortened(known, users, |users|, c);
      NeverShortened(all, users, |users|, c);
    }
    forall c | c in all ensures Remember(all, users, |users|)[c] == all[c] {
      SecondTime(known, users, |users|, c);
    }
  }

  /** `f` says of the device what `e` does, with an authorization at least as long. */
  predicate Covers(f: Entry, e: Entry) {
    && f == e.(user := e.user.(validUntil := f.user.validUntil))
    && LastsAsLong(f.user.validUntil, e.user.validUntil)
  }

  /** A listed user is sent again as before, with an authorization at least as long. */
  lemma SentAgain(known: Known, users: seq<UserInfo>, i: nat)
    requires Sound(known) && i < |users|
    ensures Covers(Sent(Remember(known, users, |users|), users, i), Sent(known, users, i))
  {
    var all, c := Remember(known, users, |users|), users[i].clientID;
    if c != 0 {
      NeverShortened(known, users, |users|, c);
      SecondTime(known, users, i + 1, c);
      LaterLasts(known, users, i + 1, |users|, c);
      assert DeviceIn(users, i + 1, c);
    }
  }

  /** A sync that fails loses nothing: whatever its plan was to send, a new sync of the pending list plans to send
      as well, revocations included, and it remembers what a sync without failure would have. */
  lemma RetrySendsAll(known: Known, users: seq<UserInfo>, plan: seq<Entry>, again: seq<Entry>)
    requires Sound(known) && IsPlan(plan, known, users) && IsPlan(again, Remember(known, users, |users|), users)
    ensures var all := Remember(known, users, |users|); Remember(all, users, |users|) == all
    ensures forall i :: 0 <= i < |plan| ==> exists j :: 0 <= j < |again| && Covers(again[j], plan[i])
  {
    RememberTwice(known, users);
    forall i | 0 <= i < |plan| ensures exists j :: 0 <= j < |again| && Covers(again[j], plan[i]) {
      if i < |users| {
        SentAgain(known, users, i);
        assert Covers(again[i], plan[i]);
      } else {
        var c := plan[i].user.clientID;
        var j :| |users| <= j < |again| && again[j].user.clientID == c;
        assert Covers(again[j], plan[i]);
      }
    }
  }

  // ---------------------------------------------------------------- what reaches the ledger

  /** The arguments of the sync script for one device. */
  function ScriptArgs(e: Entry, scope: string, offset: int): G.SyncArgs {
    var policy := match e.terms
                  case Some(terms) => G.Policy(terms.limit, terms.until)
                  case None => G.Policy(0, 0);
    G.SyncArgs(B.OnlineKey(e.user.clientID, ""), e.user.kickVersion, e.user.validUntil, e.revoked, policy, e.detached,
               scope, offset)
  }

  lemma SyncKicks(a: G.Account, sync: G.SyncArgs)
    requires P.AccountInv(a)
    ensures var next := G.Sync(a, sync);
            && sync.slot in next.kicks
            && (next.kicks[sync.slot].Version? ==> !sync.revoke && next.kicks[sync.slot].v >= sync.version)
            && (sync.slot in next.hash ==>
                  !sync.revoke && sync.slot in a.hash && sync.version <= a.hash[sync.slot].v)
  {
    V.PresentedKicks(a, sync.slot, sync.version, sync.validUntil, sync.offset, sync.revoke);
    P.PresentKeeps(a, sync.slot, sync.version, sync.validUntil, sync.offset, sync.revoke);
  }

  /** A listed device's entry brings its listed kick version to the ledger: no older version stands or holds the slot
      afterwards. Unless the ledger knows a newer one, it stores the terms of the last listing. */
  lemma ListedArrives(a: G.Account, known: Known, users: seq<UserInfo>, i: nat, last: nat, scope: string, offset: int)
    requires P.AccountInv(a) && Sound(known) && i < |users| && users[i].clientID != 0
    requires LastListed(users, |users|, users[i].clientID, last)
    ensures var slot, version := "client-" + D.Itoa(users[i].clientID), users[i].kickVersion;
            var next := G.Sync(a, ScriptArgs(Sent(known, users, i), scope, offset));
            && slot in next.kicks && (next.kicks[slot].Version? ==> next.kicks[slot].v >= version)
            && (slot in next.hash ==> slot in a.hash && a.hash[slot].v >= version)
            && (!L.Outdated(a, slot, version) ==>
                  && (slot, scope) in next.policies
                  && next.policies[(slot, scope)].limit == users[last].deviceLimit
                  && next.policies[(slot, scope)].until == users[last].validUntil)
  {
    SentMeans(known, users, i);
    var sync := ScriptArgs(Sent(known, users, i), scope, offset);
    SyncKicks(a, sync);
    L.SyncStores(a, sync);
  }

  /** What a plan says behind the listed devices is about remembered ones that nobody listed: as they are remembered,
      without terms, detached, and revoked exactly if their account is still listed. */
  lemma DepartedMeans(known: Known, users: seq<UserInfo>, plan: seq<Entry>, i: nat)
    requires Sound(known) && IsPlan(plan, known, users) && |users| <= i < |plan|
    ensures var e := plan[i];
            && e.user.clientID in known && e.user == known[e.user.clientID]
            && (forall u :: u in users ==> u.clientID != e.user.clientID)
            && e.detached && e.terms == None && (e.revoked <==> exists u :: u in users && u.uid == e.user.uid)
  {
    var e := plan[i];
    RememberMeans(known, users, |users|, e.user.clientID);
    if u :| u in users && u.uid == e.user.uid {
      var j :| 0 <= j < |users| && users[j] == u;
      assert AccountIn(users, |users|, e.user.uid);
    }
  }

  /** The entry of a device that is gone takes its lease and its policy for the scope, and if its account is still
      listed revokes the slot. */
  lemma DepartedArrives(a: G.Account, known: Known, users: seq<UserInfo>, e: Entry, scope: string, offset: int)
    requires P.AccountInv(a) && Departed(known, users, e) && e.user.clientID != 0
    ensures var slot, next := "client-" + D.Itoa(e.user.clientID), G.Sync(a, ScriptArgs(e, scope, offset));
            && !L.Leased(next.hash, slot, scope) && (slot, scope) !in next.policies
            && (AccountIn(users, |users|, e.user.uid) ==>
                  slot !in next.hash && slot in next.kicks && next.kicks[slot].Revoked?)
  {
    var sync := ScriptArgs(e, scope, offset);
    SyncKicks(a, sync);
    L.SyncStores(a, sync);
    if sync.slot in G.Sync(a, sync).hash { L.SyncLeases(a, sync, scope); }
  }
}
