/** The circular walk over a set of accounts, and how it is cut into reports where a user repeats. */
module Walks {
  import opened Wrappers
  import opened TotalsKeys
  import opened TrafficReports

  // ---------------------------------------------------------------- the walk

  function Sorted(keys: set<Key>): (walk: seq<Key>)
    ensures forall k :: k in walk <==> k in keys
    ensures |walk| == |keys|
  {
    if keys == {} then []
    else
      var k := First(keys).value;
      [k] + Sorted(keys - {k})
  }

  /** All accounts in the order the scan meets them: those after the cursor, then the others. */
  function Walk(keys: set<Key>, cursor: Option<Key>): seq<Key> {
    var above := if cursor.Some? then Above(keys, cursor.value) else keys;
    Sorted(above) + Sorted(keys - above)
  }

  lemma WalkIs(keys: set<Key>, cursor: Option<Key>)
    ensures |Walk(keys, cursor)| == |keys|
    ensures forall k :: k in Walk(keys, cursor) <==> k in keys
  {
    var above := if cursor.Some? then Above(keys, cursor.value) else keys;
    assert keys == above + (keys - above);
  }

  lemma WalkIsDistinct(keys: set<Key>, cursor: Option<Key>)
    ensures forall i, j :: 0 <= i < j < |Walk(keys, cursor)| ==> Walk(keys, cursor)[i] != Walk(keys, cursor)[j]
  {
    var above := if cursor.Some? then Above(keys, cursor.value) else keys;
    var head, tail := Sorted(above), Sorted(keys - above);
    SortedDistinct(above);
    SortedDistinct(keys - above);
    forall i, j | 0 <= i < |head| && 0 <= j < |tail| ensures head[i] != tail[j] {
      assert head[i] in above && tail[j] in keys - above;
    }
  }

  lemma SortedDistinct(keys: set<Key>)
    ensures forall i, j :: 0 <= i < j < |Sorted(keys)| ==> Sorted(keys)[i] != Sorted(keys)[j]
  {
    SortedOrder(keys);
    KeyOrder();
  }

  lemma LeastIs(keys: set<Key>, k: Key)
    requires IsLeast(k, keys)
    ensures First(keys) == Some(k)
  {
    KeyOrder();
  }

  lemma SortedFirst(keys: set<Key>, k: Key)
    requires IsLeast(k, keys)
    ensures Sorted(keys) == [k] + Sorted(keys - {k})
  {
    LeastIs(keys, k);
  }

  lemma InFront(k: Key, a: seq<Key>, b: seq<Key>)
    ensures [k] + a + b == [k] + (a + b)
    ensures a + [] == a && [] + b == b
  {
  }

  lemma StepAbove(keys: set<Key>, cursor: Option<Key>, above: set<Key>)
    requires above == (if cursor.Some? then Above(keys, cursor.value) else keys) && above != {}
    ensures var s := Successor(keys, cursor);
            IsLeast(s, above) && Above(keys - {s}, s) == above - {s} && keys - {s} - (above - {s}) == keys - above
  {
    KeyOrder();
    var s := Successor(keys, cursor);
    assert IsLeast(s, above);
    assert Above(keys - {s}, s) == above - {s};
  }

  lemma StepRound(keys: set<Key>, c: Key)
    requires keys != {} && Above(keys, c) == {}
    ensures var s := Successor(keys, Some(c));
            IsLeast(s, keys) && Above(keys - {s}, s) == keys - {s} && keys - {s} - (keys - {s}) == {}
  {
    KeyOrder();
    var s := Successor(keys, Some(c));
    assert Above(keys - {s}, s) == keys - {s};
  }

  /** The walk goes to the successor, and on from there over the rest. */
  lemma WalkStep(keys: set<Key>, cursor: Option<Key>)
    requires keys != {}
    ensures var s := Successor(keys, cursor);
            Walk(keys, cursor) == [s] + Walk(keys - {s}, Some(s))
  {
    var s := Successor(keys, cursor);
    var above := if cursor.Some? then Above(keys, cursor.value) else keys;
    if above == {} {
      RoundWalkStep(keys, cursor.value);
    } else {
      AboveWalkStep(keys, cursor, above);
    }
  }

  lemma RoundWalkStep(keys: set<Key>, c: Key)
    requires keys != {} && Above(keys, c) == {}
    ensures var s := Successor(keys, Some(c)); Walk(keys, Some(c)) == [s] + Walk(keys - {s}, Some(s))
  {
    var s := Successor(keys, Some(c));
    StepRound(keys, c);
    WalkFromStart(keys, c);
    SortedFirst(keys, s);
    WalkAllAbove(keys - {s}, s);
  }

  lemma WalkFromStart(keys: set<Key>, c: Key)
    requires Above(keys, c) == {}
    ensures Walk(keys, Some(c)) == Sorted(keys)
  {
    assert keys - {} == keys;
  }

  lemma WalkAllAbove(keys: set<Key>, c: Key)
    requires Above(keys, c) == keys
    ensures Walk(keys, Some(c)) == Sorted(keys)
  {
    assert keys - keys == {};
  }

  lemma AboveWalkStep(keys: set<Key>, cursor: Option<Key>, above: set<Key>)
    requires above == (if cursor.Some? then Above(keys, cursor.value) else keys) && above != {}
    ensures var s := Successor(keys, cursor); Walk(keys, cursor) == [s] + Walk(keys - {s}, Some(s))
  {
    var s := Successor(keys, cursor);
    StepAbove(keys, cursor, above);
    SortedFirst(above, s);
    InFront(s, Sorted(above - {s}), Sorted(keys - above));
  }

  function KeySet(run: seq<Key>): set<Key> { set k | k in run }

  /** Going back to the same circle without what was taken, the walk goes on as before. */
  lemma SuccessorWithout(keys: set<Key>, taken: set<Key>, cursor: Option<Key>)
    requires keys != {} && Successor(keys, cursor) !in taken
    ensures keys - taken != {} && Successor(keys - taken, cursor) == Successor(keys, cursor)
  {
    KeyOrder();
    var s := Successor(keys, cursor);
    assert s in keys - taken;
    if cursor.Some? && Above(keys, cursor.value) != {} {
      assert Above(keys - taken, cursor.value) == Above(keys, cursor.value) - taken;
      LeastIs(Above(keys - taken, cursor.value), s);
    } else {
      assert cursor.Some? ==> Above(keys - taken, cursor.value) == {};
      LeastIs(keys - taken, s);
    }
  }

  /** What a run took, and where it stands, on the walk. */
  ghost predicate OnWalk(keys: set<Key>, cursor: Option<Key>, run: seq<Key>) {
    run != [] ==>
      Walk(keys, cursor) == run + Walk(keys - KeySet(run), Some(run[|run| - 1]))
  }

  function CursorAfter(cursor: Option<Key>, run: seq<Key>): Option<Key> {
    if run == [] then cursor else Some(run[|run| - 1])
  }

  lemma WalkOn(keys: set<Key>, cursor: Option<Key>, run: seq<Key>, last: Key)
    requires keys != {} && OnWalk(keys, cursor, run)
    requires last == Successor(keys, CursorAfter(cursor, run)) && last !in run
    ensures OnWalk(keys, cursor, run + [last])
  {
    var rest, at := keys - KeySet(run), CursorAfter(cursor, run);
    assert run == [] ==> rest == keys;
    assert Walk(keys, cursor) == run + Walk(rest, at);
    assert rest != {} && Successor(rest, at) == last by { SuccessorWithout(keys, KeySet(run), at); }
    assert Walk(rest, at) == [last] + Walk(rest - {last}, Some(last)) by { WalkStep(rest, at); }
    KeySetSnoc(keys, run, last);
    OnWalkSnoc(Walk(keys, cursor), run, last, Walk(keys - KeySet(run + [last]), Some(last)));
  }

  lemma KeySetSnoc(keys: set<Key>, run: seq<Key>, last: Key)
    ensures keys - KeySet(run + [last]) == keys - KeySet(run) - {last}
  {
  }

  lemma OnWalkSnoc(walk: seq<Key>, run: seq<Key>, last: Key, rest: seq<Key>)
    requires walk == run + ([last] + rest)
    ensures walk == run + [last] + rest && (run + [last])[|run + [last]| - 1] == last
  {
  }

  /** Each key of `run` is the next one after the one before it, and none comes twice. */
  ghost predicate Follows(keys: set<Key>, cursor: Option<Key>, run: seq<Key>)
    requires keys != {}
  {
    && (forall i :: 0 <= i < |run| ==> run[i] == Successor(keys, CursorAfter(cursor, run[..i])))
    && (forall i, j :: 0 <= i < j < |run| ==> run[i] != run[j])
  }

  lemma FollowsPrefix(keys: set<Key>, cursor: Option<Key>, run: seq<Key>, n: nat)
    requires keys != {} && Follows(keys, cursor, run) && n < |run|
    ensures Follows(keys, cursor, run[..n])
    ensures run[n] == Successor(keys, CursorAfter(cursor, run[..n])) && run[n] !in run[..n]
  {
    forall i | 0 <= i < n ensures run[..n][i] == Successor(keys, CursorAfter(cursor, run[..n][..i])) {
      TakeTake(run, n, i);
    }
  }

  lemma {:induction false} FollowsIsWalk(keys: set<Key>, cursor: Option<Key>, run: seq<Key>)
    requires keys != {} && Follows(keys, cursor, run)
    ensures OnWalk(keys, cursor, run)
  {
    if run != [] {
      var n := |run| - 1;
      Unsnoc(run);
      FollowsPrefix(keys, cursor, run, n);
      FollowsIsWalk(keys, cursor, run[..n]);
      WalkOn(keys, cursor, run[..n], run[n]);
    }
  }

  // ---------------------------------------------------------------- cutting the walk into reports

  predicate Repeats(walk: seq<Key>, n: nat)
    requires n < |walk|
  {
    exists i :: 0 <= i < n && walk[i].uid == walk[n].uid
  }

  predicate NoRepeat(walk: seq<Key>, n: nat)
    requires n <= |walk|
  {
    forall i, j :: 0 <= i < j < n ==> walk[i].uid != walk[j].uid
  }

  /** The first `n` accounts of a walk fill one report when every sum fits: distinct users, and either a full
      report, or the whole walk, or a user comes again. */
  predicate Takes(walk: seq<Key>, n: nat) {
    && 0 < n <= |walk| && n <= MAX_REPORT_USERS && NoRepeat(walk, n)
    && (n == |walk| || n == MAX_REPORT_USERS || Repeats(walk, n))
  }

  function Take(walk: seq<Key>): (n: nat)
    requires walk != []
    ensures Takes(walk, n)
  {
    TakeFrom(walk, 1)
  }

  function TakeFrom(walk: seq<Key>, n: nat): (m: nat)
    requires 0 < n <= |walk| && n <= MAX_REPORT_USERS && NoRepeat(walk, n)
    ensures Takes(walk, m)
    decreases |walk| - n
  {
    if n == |walk| || n == MAX_REPORT_USERS || Repeats(walk, n) then n else TakeFrom(walk, n + 1)
  }

  lemma TakeIs(walk: seq<Key>, n: nat)
    requires Takes(walk, n)
    ensures Take(walk) == n
  {
    assert Takes(walk, Take(walk));
  }

  /** How many reports a walk needs when every sum fits. */
  function Needed(walk: seq<Key>): nat {
    if walk == [] then 0 else 1 + Needed(walk[Take(walk)..])
  }

  // ---------------------------------------------------------------- the same number, read off the list

  /** The length of the first stretch of a walk without two neighbours of one user. */
  function Segment(walk: seq<Key>): (n: nat)
    requires walk != []
    ensures 0 < n <= |walk|
    ensures forall i :: 0 < i < n ==> walk[i - 1].uid != walk[i].uid
    ensures n < |walk| ==> walk[n - 1].uid == walk[n].uid
  {
    if |walk| == 1 || walk[0].uid == walk[1].uid then 1 else 1 + Segment(walk[1..])
  }

  lemma SegmentIs(walk: seq<Key>, n: nat)
    requires 0 < n <= |walk|
    requires forall i :: 0 < i < n ==> walk[i - 1].uid != walk[i].uid
    requires n < |walk| ==> walk[n - 1].uid == walk[n].uid
    ensures Segment(walk) == n
  {
    var m := Segment(walk);
    assert !(m < n) && !(n < m);
  }

  /** How many reports a stretch takes: its accounts in thousands, rounded up; but two where it would fit one
      report and ends at the user it began with, once round the circle. */
  function Cost(walk: seq<Key>, n: nat): nat
    requires 0 < n <= |walk|
  {
    if 2 <= n <= MAX_REPORT_USERS && walk[0].uid == walk[n - 1].uid then 2 else BatchesFor(n)
  }

  /** The reports a walk takes, stretch by stretch. */
  function Planned(walk: seq<Key>): nat {
    if walk == [] then 0
    else
      var n := Segment(walk);
      Cost(walk, n) + Planned(walk[n..])
  }

  /** Users go up along the walk, and once more from the start after `p` accounts, never past where it began. */
  ghost predicate Circular(walk: seq<Key>, p: int) {
    && (forall i, j :: 0 <= i < j < |walk| && (j < p || p <= i) ==> walk[i].uid <= walk[j].uid)
    && (forall i, j :: 0 <= i < p <= j < |walk| ==> walk[j].uid <= walk[i].uid)
  }

  lemma {:induction false} SortedOrder(keys: set<Key>)
    ensures forall i, j :: 0 <= i < j < |Sorted(keys)| ==> KeyLess(Sorted(keys)[i], Sorted(keys)[j])
  {
    if keys != {} {
      var k := First(keys).value;
      SortedOrder(keys - {k});
      var rest := Sorted(keys - {k});
      assert Sorted(keys) == [k] + rest;
      forall j | 0 <= j < |rest| ensures KeyLess(k, rest[j]) {
        assert rest[j] in rest;
      }
    }
  }

  lemma WalkIsCircular(keys: set<Key>, cursor: Option<Key>)
    ensures exists p :: Circular(Walk(keys, cursor), p)
  {
    var above := if cursor.Some? then Above(keys, cursor.value) else keys;
    var head, tail := Sorted(above), Sorted(keys - above);
    SortedOrder(above);
    SortedOrder(keys - above);
    forall i, j | 0 <= i < |head| && 0 <= j < |tail| ensures tail[j].uid <= head[i].uid {
      assert head[i] in above && tail[j] in keys - above;
      KeyTotal(cursor.value, tail[j]);
    }
    CircularParts(head, tail);
    assert Walk(keys, cursor) == head + tail;
  }

  lemma CircularParts(head: seq<Key>, tail: seq<Key>)
    requires forall i, j :: 0 <= i < j < |head| ==> KeyLess(head[i], head[j])
    requires forall i, j :: 0 <= i < j < |tail| ==> KeyLess(tail[i], tail[j])
    requires forall i, j :: 0 <= i < |head| && 0 <= j < |tail| ==> tail[j].uid <= head[i].uid
    ensures Circular(head + tail, |head|)
  {
    var walk := head + tail;
    forall i, j | 0 <= i < j < |walk| && (j < |head| || |head| <= i) ensures walk[i].uid <= walk[j].uid {
      assert if j < |head| then KeyLess(head[i], head[j]) else KeyLess(tail[i - |head|], tail[j - |head|]);
    }
  }

  lemma CircularRest(walk: seq<Key>, p: int, n: nat)
    requires Circular(walk, p) && n <= |walk|
    ensures Circular(walk[n..], p - n)
  {
  }

  /** A user that comes twice comes at neighbouring places, once round the circle or in between. */
  lemma SameUser(walk: seq<Key>, p: int, i: nat, j: nat)
    requires Circular(walk, p) && i < j < |walk| && walk[i].uid == walk[j].uid
    ensures if i < p <= j
            then (i > 0 ==> walk[i - 1].uid == walk[i].uid) && (j + 1 < |walk| ==> walk[j].uid == walk[j + 1].uid)
            else walk[i].uid == walk[i + 1].uid
  {
  }

  /** Within a stretch a user comes twice only at its two ends. */
  lemma SegmentEnds(walk: seq<Key>, p: int, i: nat, j: nat)
    requires walk != [] && Circular(walk, p) && i < j < Segment(walk) && (i != 0 || j != Segment(walk) - 1)
    ensures walk[i].uid != walk[j].uid
  {
    if walk[i].uid == walk[j].uid {
      SameUser(walk, p, i, j);
      assert false;
    }
  }

  lemma LongTake(walk: seq<Key>, p: int)
    requires walk != [] && Circular(walk, p) && Segment(walk) > MAX_REPORT_USERS
    ensures Take(walk) == MAX_REPORT_USERS
  {
    forall i, j | 0 <= i < j < MAX_REPORT_USERS ensures walk[i].uid != walk[j].uid {
      SegmentEnds(walk, p, i, j);
    }
    TakeIs(walk, MAX_REPORT_USERS);
  }

  lemma SegmentRest(walk: seq<Key>, m: nat)
    requires walk != [] && m < Segment(walk)
    ensures Segment(walk[m..]) == Segment(walk) - m
  {
    SegmentIs(walk[m..], Segment(walk) - m);
  }

  /** A stretch longer than a report: a full report, and the rest of the stretch. */
  lemma LongSegment(walk: seq<Key>, p: int)
    requires walk != [] && Circular(walk, p) && Segment(walk) > MAX_REPORT_USERS
    ensures Planned(walk) == 1 + Planned(walk[Take(walk)..])
  {
    var n, m := Segment(walk), MAX_REPORT_USERS;
    LongTake(walk, p);
    if n - m >= 2 { SegmentEnds(walk, p, m, n - 1); }
    SegmentRest(walk, m);
    StretchOn(walk, n, n - m, walk[m..]);
  }

  lemma PlannedIs(walk: seq<Key>, n: nat, rest: seq<Key>)
    requires walk != [] && Segment(walk) == n && rest == walk[n..]
    requires n == 1 || n > MAX_REPORT_USERS || walk[0].uid != walk[n - 1].uid
    ensures Planned(walk) == BatchesFor(n) + Planned(rest)
  {
  }

  /** The rest of a stretch beyond a full report. */
  lemma StretchOn(walk: seq<Key>, n: nat, m: nat, tail: seq<Key>)
    requires n == m + MAX_REPORT_USERS <= |walk| && tail == walk[MAX_REPORT_USERS..]
    requires Segment(walk) == n && 0 < m == Segment(tail)
    requires m >= 2 ==> tail[0].uid != tail[m - 1].uid
    ensures Planned(walk) == 1 + Planned(tail)
  {
    var rest := walk[n..];
    DropDrop(walk, MAX_REPORT_USERS, n);
    PlannedIs(walk, n, rest);
    PlannedIs(tail, m, rest);
    OneMore(Planned(walk), Planned(tail), n, m, Planned(rest));
  }

  lemma OneMore(all: nat, tail: nat, n: nat, m: nat, rest: nat)
    requires n == m + MAX_REPORT_USERS && m > 0
    requires all == BatchesFor(n) + rest && tail == BatchesFor(m) + rest
    ensures all == 1 + tail
  {
    OneLess(n);
  }

  lemma OneLess(accounts: nat)
    requires accounts > MAX_REPORT_USERS
    ensures BatchesFor(accounts) == 1 + BatchesFor(accounts - MAX_REPORT_USERS)
  {
  }

  /** A stretch that fits one report, but for a user at both ends. */
  lemma RoundSegment(walk: seq<Key>, p: int)
    requires walk != [] && Circular(walk, p)
    requires var n := Segment(walk); 2 <= n <= MAX_REPORT_USERS && walk[0].uid == walk[n - 1].uid
    ensures Planned(walk) == 1 + Planned(walk[Take(walk)..])
  {
    var n := Segment(walk);
    forall i, j | 0 <= i < j < n - 1 ensures walk[i].uid != walk[j].uid {
      SegmentEnds(walk, p, i, j);
    }
    TakeIs(walk, n - 1);
    var rest := walk[n - 1..];
    SegmentIs(rest, 1);
    assert rest[1..] == walk[n..];
  }

  lemma ShortSegment(walk: seq<Key>, p: int)
    requires walk != [] && Circular(walk, p)
    requires var n := Segment(walk); n <= MAX_REPORT_USERS && (n == 1 || walk[0].uid != walk[n - 1].uid)
    ensures Planned(walk) == 1 + Planned(walk[Take(walk)..])
  {
    var n := Segment(walk);
    forall i, j | 0 <= i < j < n ensures walk[i].uid != walk[j].uid {
      if i != 0 || j != n - 1 { SegmentEnds(walk, p, i, j); }
    }
    TakeIs(walk, n);
  }

  /** A report takes its part of the first stretch. */
  lemma OneCut(walk: seq<Key>, p: int)
    requires walk != [] && Circular(walk, p)
    ensures Planned(walk) == 1 + Planned(walk[Take(walk)..])
  {
    var n := Segment(walk);
    if n > MAX_REPORT_USERS {
      LongSegment(walk, p);
    } else if n >= 2 && walk[0].uid == walk[n - 1].uid {
      RoundSegment(walk, p);
    } else {
      ShortSegment(walk, p);
    }
  }

  /** The number of reports a walk needs is that of its stretches. */
  lemma {:induction false} NeededIsPlanned(walk: seq<Key>, p: int)
    requires Circular(walk, p)
    ensures Needed(walk) == Planned(walk)
    decreases |walk|
  {
    if walk != [] {
      var n := Take(walk);
      OneCut(walk, p);
      CircularRest(walk, p, n);
      NeededIsPlanned(walk[n..], p - n);
    }
  }

  lemma OneStretch(walk: seq<Key>)
    requires NoRepeat(walk, |walk|)
    ensures Planned(walk) == BatchesFor(|walk|)
  {
    if walk != [] {
      SegmentIs(walk, |walk|);
      assert walk[|walk|..] == [];
    }
  }
}
