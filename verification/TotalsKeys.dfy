/** The keys of the totals bucket: their byte encoding, their order, and cursors over a set of them. */
module TotalsKeys {
  import opened Wrappers

  /** A traffic account: a user id and the identity its bytes are booked under. */
  datatype Key = Key(uid: int, identity: string)

  datatype Amount = Amount(up: int, down: int)

  /** Byte-string order, the order in which the database walks a bucket. */
  predicate LexLess(s: string, t: string) {
    t != [] && (s == [] || s[0] < t[0] || (s[0] == t[0] && LexLess(s[1..], t[1..])))
  }

  predicate KeyLess(a: Key, b: Key) {
    a.uid < b.uid || (a.uid == b.uid && LexLess(a.identity, b.identity))
  }

  lemma {:induction false} LexTotal(s: string, t: string)
    ensures s == t || LexLess(s, t) || LexLess(t, s)
    ensures !(LexLess(s, t) && LexLess(t, s)) && !LexLess(s, s)
  {
    if s != [] && t != [] {
      LexTotal(s[1..], t[1..]);
      LexTotal(s[1..], s[1..]);
      assert s == [s[0]] + s[1..] && t == [t[0]] + t[1..];
    } else if s != [] {
      LexTotal(s[1..], s[1..]);
    }
  }

  lemma {:induction false} LexTransitive(s: string, t: string, u: string)
    requires LexLess(s, t) && LexLess(t, u)
    ensures LexLess(s, u)
  {
    if s != [] && s[0] == t[0] == u[0] {
      LexTransitive(s[1..], t[1..], u[1..]);
    }
  }

  lemma KeyTotal(a: Key, b: Key)
    ensures a == b || KeyLess(a, b) || KeyLess(b, a)
    ensures !(KeyLess(a, b) && KeyLess(b, a)) && !KeyLess(a, a)
  {
    LexTotal(a.identity, b.identity);
  }

  lemma KeyTransitive(a: Key, b: Key, c: Key)
    requires KeyLess(a, b) && KeyLess(b, c)
    ensures KeyLess(a, c)
  {
    if a.uid == b.uid == c.uid {
      LexTransitive(a.identity, b.identity, c.identity);
    }
  }

  lemma KeyOrder()
    ensures forall a, b :: a == b || KeyLess(a, b) || KeyLess(b, a)
    ensures forall a, b :: !(KeyLess(a, b) && KeyLess(b, a))
    ensures forall a, b, c :: KeyLess(a, b) && KeyLess(b, c) ==> KeyLess(a, c)
  {
    forall a, b
      ensures a == b || KeyLess(a, b) || KeyLess(b, a)
      ensures !(KeyLess(a, b) && KeyLess(b, a))
    {
      KeyTotal(a, b);
    }
    forall a, b, c | KeyLess(a, b) && KeyLess(b, c)
      ensures KeyLess(a, c)
    {
      KeyTransitive(a, b, c);
    }
  }

  // ---------------------------------------------------------------- byte encoding

  function Pow256(width: nat): nat {
    if width == 0 then 1 else 256 * Pow256(width - 1)
  }

  /** `binary.BigEndian.PutUint64` at any width. */
  function BigEndian(n: nat, width: nat): (s: string)
    ensures |s| == width
  {
    if width == 0 then [] else BigEndian(n / 256, width - 1) + [(n % 256) as char]
  }

  function FromBigEndian(s: string): nat {
    if s == [] then 0 else 256 * FromBigEndian(s[..|s| - 1]) + s[|s| - 1] as int
  }

  lemma {:induction false} BigEndianRoundTrip(n: nat, width: nat)
    requires n < Pow256(width)
    ensures FromBigEndian(BigEndian(n, width)) == n
  {
    if width > 0 {
      BigEndianRoundTrip(n / 256, width - 1);
      assert BigEndian(n, width)[..width - 1] == BigEndian(n / 256, width - 1);
    }
  }

  lemma {:induction false} LexLessSnoc(s: string, t: string, x: char, y: char)
    requires |s| == |t|
    ensures LexLess(s + [x], t + [y]) <==> LexLess(s, t) || (s == t && x < y)
  {
    if s == [] {
      assert s + [x] == [x] && t + [y] == [y];
      assert [x][1..] == [] && [y][1..] == [];
    } else {
      LexLessSnoc(s[1..], t[1..], x, y);
      assert (s + [x])[1..] == s[1..] + [x] && (t + [y])[1..] == t[1..] + [y];
      assert s == [s[0]] + s[1..] && t == [t[0]] + t[1..];
    }
  }

  lemma Bytes(m: nat, n: nat)
    ensures m < n <==> m / 256 < n / 256 || (m / 256 == n / 256 && m % 256 < n % 256)
  {
  }

  lemma {:induction false} BigEndianOrder(m: nat, n: nat, width: nat)
    requires m < Pow256(width) && n < Pow256(width)
    ensures LexLess(BigEndian(m, width), BigEndian(n, width)) <==> m < n
  {
    if width > 0 {
      BigEndianOrder(m / 256, n / 256, width - 1);
      BigEndianRoundTrip(m / 256, width - 1);
      BigEndianRoundTrip(n / 256, width - 1);
      LexLessSnoc(BigEndian(m / 256, width - 1), BigEndian(n / 256, width - 1), (m % 256) as char, (n % 256) as char);
      Bytes(m, n);
    }
  }

  lemma {:induction false} LexLessConcat(s: string, t: string, u: string, v: string)
    requires |s| == |t|
    ensures LexLess(s + u, t + v) <==> LexLess(s, t) || (s == t && LexLess(u, v))
  {
    if s == [] {
      assert s + u == u && t + v == v;
    } else {
      LexLessConcat(s[1..], t[1..], u, v);
      assert (s + u)[1..] == s[1..] + u && (t + v)[1..] == t[1..] + v;
      assert s == [s[0]] + s[1..] && t == [t[0]] + t[1..];
    }
  }

  /** `usageKey`: eight big-endian bytes of the user id, then the identity. */
  function UsageKey(key: Key): string
    requires key.uid >= 0
  {
    BigEndian(key.uid, 8) + key.identity
  }

  /** How `Pending` reads a key back. */
  function DecodeKey(bytes: string): Key
    requires |bytes| >= 8
  {
    Key(FromBigEndian(bytes[..8]), bytes[8..])
  }

  lemma UsageKeyRoundTrip(key: Key)
    requires 0 <= key.uid <= MAX_INT64
    ensures DecodeKey(UsageKey(key)) == key
    ensures |UsageKey(key)| == 8 + |key.identity|
    ensures FromBigEndian(UsageKey(key)[..8]) == key.uid && UsageKey(key)[8..] == key.identity
  {
    WordFits(key.uid);
    BigEndianRoundTrip(key.uid, 8);
    assert UsageKey(key)[..8] == BigEndian(key.uid, 8);
    assert UsageKey(key)[8..] == key.identity;
  }

  lemma WordFits(n: nat)
    requires n <= MAX_UINT64
    ensures n < Pow256(8)
  {
    assert Pow256(4) == 256 * 256 * 256 * 256 by {
      assert Pow256(2) == 256 * 256;
    }
    assert Pow256(6) == 256 * 256 * Pow256(4);
  }

  /** The bucket's byte order on encoded keys is the order on (uid, identity) pairs. */
  lemma UsageKeyOrder(a: Key, b: Key)
    requires 0 <= a.uid <= MAX_INT64 && 0 <= b.uid <= MAX_INT64
    ensures LexLess(UsageKey(a), UsageKey(b)) <==> KeyLess(a, b)
  {
    WordFits(a.uid);
    WordFits(b.uid);
    BigEndianOrder(a.uid, b.uid, 8);
    BigEndianRoundTrip(a.uid, 8);
    BigEndianRoundTrip(b.uid, 8);
    LexLessConcat(BigEndian(a.uid, 8), BigEndian(b.uid, 8), a.identity, b.identity);
  }

  /** `encodeTotals`. */
  function EncodeTotals(a: Amount): string
    requires a.up >= 0 && a.down >= 0
  {
    BigEndian(a.up, 8) + BigEndian(a.down, 8)
  }

  /** `decodeTotals`, whose nil input is an account with no bytes yet. */
  function DecodeTotals(data: Option<string>): Result<Amount, string> {
    match data
    case None => Ok(Amount(0, 0))
    case Some(bytes) =>
      if |bytes| != 16 then Err("invalid traffic totals")
      else
        var up, down := FromBigEndian(bytes[..8]), FromBigEndian(bytes[8..]);
        if up > MAX_INT64 || down > MAX_INT64 then Err("invalid traffic totals") else Ok(Amount(up, down))
  }

  /** A stored total is read back exactly when both counters are int64; any larger word is refused. */
  lemma TotalsRoundTrip(a: Amount)
    requires 0 <= a.up <= MAX_UINT64 && 0 <= a.down <= MAX_UINT64
    ensures DecodeTotals(Some(EncodeTotals(a))) ==
            if a.up <= MAX_INT64 && a.down <= MAX_INT64 then Ok(a) else Err("invalid traffic totals")
    ensures |EncodeTotals(a)| == 16
    ensures FromBigEndian(EncodeTotals(a)[..8]) == a.up && FromBigEndian(EncodeTotals(a)[8..]) == a.down
  {
    WordFits(a.up);
    WordFits(a.down);
    BigEndianRoundTrip(a.up, 8);
    BigEndianRoundTrip(a.down, 8);
    assert EncodeTotals(a)[..8] == BigEndian(a.up, 8);
    assert EncodeTotals(a)[8..] == BigEndian(a.down, 8);
  }

  // ---------------------------------------------------------------- cursors

  predicate IsLeast(k: Key, keys: set<Key>) {
    k in keys && forall x :: x in keys ==> x == k || KeyLess(k, x)
  }

  lemma {:induction false} LeastExists(keys: set<Key>)
    requires keys != {}
    ensures exists k :: IsLeast(k, keys)
    decreases keys
  {
    var k :| k in keys;
    if keys == {k} {
      assert IsLeast(k, keys);
    } else {
      LeastExists(keys - {k});
      var r :| IsLeast(r, keys - {k});
      KeyOrder();
      assert IsLeast(if KeyLess(r, k) then r else k, keys);
    }
  }

  /** `Cursor.First`. */
  function First(keys: set<Key>): (k: Option<Key>)
    ensures k == None <==> keys == {}
    ensures k.Some? ==> IsLeast(k.value, keys)
  {
    if keys == {} then None
    else
      LeastExists(keys); KeyOrder();
      var k :| k in keys && IsLeast(k, keys);
      Some(k)
  }

  function Above(keys: set<Key>, k: Key): set<Key> {
    set x | x in keys && KeyLess(k, x)
  }

  /** The next key after `k`, as `Seek` followed by a `Next` off `k` itself finds it, or as `Next` does. */
  function Next(keys: set<Key>, k: Key): (n: Option<Key>) {
    First(Above(keys, k))
  }

  /** The key after `cursor`, wrapping to the first one: where a scan resumes. */
  function Successor(keys: set<Key>, cursor: Option<Key>): (k: Key)
    requires keys != {}
    ensures k in keys
  {
    if cursor.Some? && Next(keys, cursor.value).Some? then Next(keys, cursor.value).value
    else First(keys).value
  }

  /** The keys met strictly between `cursor` and `k` when walking the circle forward. */
  function Between(keys: set<Key>, cursor: Option<Key>, k: Key): set<Key> {
    match cursor
    case None => set x | x in keys && KeyLess(x, k)
    case Some(c) =>
      if KeyLess(c, k) then set x | x in keys && KeyLess(c, x) && KeyLess(x, k)
      else set x | x in keys && (KeyLess(c, x) || KeyLess(x, k)) && x != k
  }

  /** One step of the walk: it lands on `k` exactly when nothing lies between, and otherwise
      takes exactly the key it lands on out of what lies between. */
  lemma SuccessorStep(keys: set<Key>, cursor: Option<Key>, k: Key)
    requires k in keys
    ensures var s := Successor(keys, cursor);
            && (s == k <==> Between(keys, cursor, k) == {})
            && (s != k ==>
                  && s in Between(keys, cursor, k)
                  && Between(keys, Some(s), k) == Between(keys, cursor, k) - {s})
  {
    KeyOrder();
    var s := Successor(keys, cursor);
    var above := if cursor.Some? then Above(keys, cursor.value) else {};
    assert cursor.Some? ==> (KeyLess(cursor.value, k) <==> k in above);
    assert IsLeast(s, if above != {} then above else keys);
    assert forall x :: x in Between(keys, cursor, k) ==> x in above || KeyLess(x, k);
    if s != k {
      assert s in Between(keys, cursor, k);
    }
  }

  /** Fewer keys on the circle never lengthen the walk to a key. */
  lemma BetweenMonotone(fewer: set<Key>, keys: set<Key>, cursor: Option<Key>, k: Key)
    requires fewer <= keys
    ensures Between(fewer, cursor, k) <= Between(keys, cursor, k)
  {
  }
}
