/** Taking a patch back: swapping "+" and "-" and moving each start by what the hunks before it added. */
module PatchReverse {
  import opened Wrappers
  import opened Decimal
  import opened PatchText

  function SwapLine(line: string): string {
    if line != "" && line[0] == '+' then "-" + line[1..]
    else if line != "" && line[0] == '-' then "+" + line[1..]
    else line
  }

  function Swap(body: seq<string>): (r: seq<string>)
    ensures |r| == |body|
  {
    if body == [] then [] else Swap(body[..|body| - 1]) + [SwapLine(body[|body| - 1])]
  }

  function Header(start: nat): string { "@@ -" + Digits(start) + " @@\n" }

  /** Where a hunk's new block starts in the patched lines, counted from 1. */
  function NewStart(h: Hunk, delta: int): nat {
    if First(h) + delta + 1 >= 0 then First(h) + delta + 1 else 0
  }

  /** By how many lines a hunk and those before it have moved what follows. */
  function Moved(h: Hunk, delta: int): int {
    delta + |New(h.body)| - |Old(h.body)|
  }

  /** `delta` is by how many lines the hunks before have moved the rest. */
  function Reversed(hunks: seq<Hunk>, delta: int): seq<Hunk> {
    if hunks == [] then []
    else [Hunk(Header(NewStart(hunks[0], delta)), Swap(hunks[0].body))] + Reversed(hunks[1..], Moved(hunks[0], delta))
  }

  lemma {:induction false} SwapExchanges(body: seq<string>)
    ensures Old(Swap(body)) == New(body) && New(Swap(body)) == Old(body)
  {
    if body != [] {
      var init, last := body[..|body| - 1], body[|body| - 1];
      SwapExchanges(init);
      assert Swap(body)[..|body| - 1] == Swap(init);
      assert Swap(body)[|body| - 1] == SwapLine(last);
    }
  }

  // ---------------------------------------------------------------- reading a written header

  lemma StartOfHeader(n: nat)
    requires n <= MAX_INT64
    ensures IsHeader(Header(n)) && StartOf(Header(n)) == Some(n)
  {
    StartOfWritten(n, " @@\n");
  }

  // ---------------------------------------------------------------- taking the lines back

  /** Every body line is whole: no hunk touches a last line without newline. */
  ghost predicate WholeLines(hunks: seq<Hunk>) {
    forall i, j :: 0 <= i < |hunks| && 0 <= j < |hunks[i].body| ==> IsBody(hunks[i].body[j]) && IsLine(hunks[i].body[j])
  }

  ghost predicate AllLines(lines: seq<string>) {
    forall i :: 0 <= i < |lines| ==> IsLine(lines[i])
  }

  lemma {:induction false} BlocksAreLines(body: seq<string>)
    requires forall j :: 0 <= j < |body| ==> IsBody(body[j]) && IsLine(body[j])
    ensures AllLines(Old(body)) && AllLines(New(body))
  {
    if body != [] {
      BlocksAreLines(body[..|body| - 1]);
      RestIsLine(body[|body| - 1]);
    }
  }

  lemma RestIsLine(line: string)
    requires IsBody(line) && IsLine(line)
    ensures IsLine(line[1..])
  {
    assert |line| >= 2;
  }

  lemma NotALine(s: string)
    requires NoNewline(s)
    ensures !IsLine(s)
  {
  }

  lemma BlockEnds(lines: seq<string>, first: nat, block: seq<string>)
    requires IsSplit(lines) && first < |lines| && first + |block| <= |lines|
    requires lines[first..first + |block|] == block && AllLines(block)
    ensures first + |block| < |lines|
  {
    if block != [] {
      var k := |block| - 1;
      assert lines[first..first + |block|][k] == lines[first + k];
      NotALine(lines[|lines| - 1]);
    }
  }

  /** A fitting hunk of whole lines ends before the last line. */
  lemma EndsBefore(lines: seq<string>, cursor: nat, h: Hunk)
    requires IsSplit(lines) && cursor <= |lines| && FitsNext(lines, cursor, h) && AllLines(Old(h.body))
    ensures After(h) < |lines|
  {
    BlockEnds(lines, First(h), Old(h.body));
  }

  lemma {:induction false} PatchedKeepsEnd(lines: seq<string>, cursor: nat, hunks: seq<Hunk>)
    requires IsSplit(lines) && cursor < |lines| && Fits(lines, cursor, hunks) && WholeLines(hunks)
    ensures IsSplit(Patched(lines, cursor, hunks))
    decreases |hunks|
  {
    if hunks != [] {
      var h := hunks[0];
      BlocksAreLines(h.body);
      EndsBefore(lines, cursor, h);
      PatchedKeepsEnd(lines, After(h), hunks[1..]);
      LinesThenSplit(lines[cursor..First(h)], New(h.body), Patched(lines, After(h), hunks[1..]));
    }
  }

  lemma LinesThenSplit(a: seq<string>, b: seq<string>, rest: seq<string>)
    requires AllLines(a) && AllLines(b) && IsSplit(rest)
    ensures IsSplit(a + b + rest)
  {
  }

  lemma SuffixOf(all: seq<string>, at: nat, a: seq<string>, b: seq<string>, c: seq<string>)
    requires at <= |all| && all[at..] == a + b + c
    ensures |all| == at + |a| + |b| + |c|
    ensures all[at..at + |a|] == a && all[at + |a|..at + |a| + |b|] == b && all[at + |a| + |b|..] == c
  {
    assert all[at..][..|a|] == a;
    assert all[at..][|a|..|a| + |b|] == b;
    assert all[at..][|a| + |b|..] == c;
  }

  lemma SliceOn(lines: seq<string>, a: nat, b: nat, c: nat)
    requires a <= b <= c <= |lines|
    ensures lines[a..b] + lines[b..c] + lines[c..] == lines[a..]
  {
  }

  /** A reversed hunk fits where its new block stands. */
  lemma ReverseFits(all: seq<string>, at: nat, start: nat, body: seq<string>)
    requires at <= start && start + |New(body)| < |all| <= MAX_INT64 && all[start..start + |New(body)|] == New(body)
    ensures var r := Hunk(Header(start + 1), Swap(body));
            FitsNext(all, at, r) && First(r) == start && After(r) == start + |New(body)| && New(r.body) == Old(body)
  {
    StartOfHeader(start + 1);
    SwapExchanges(body);
    assert First(Hunk(Header(start + 1), Swap(body))) == start;
  }

  lemma ReverseCompose(all: seq<string>, at: nat, r: Hunk, back: seq<Hunk>, gap: seq<string>, block: seq<string>,
                       tail: seq<string>)
    requires at <= |all| && FitsNext(all, at, r) && Fits(all, After(r), back)
    requires all[at..First(r)] == gap && New(r.body) == block && Patched(all, After(r), back) == tail
    ensures Fits(all, at, [r] + back) && Patched(all, at, [r] + back) == gap + block + tail
  {
    FitsCons(all, at, r, back);
    PatchedCons(all, at, r, back);
  }

  /** One reversed hunk, in front of others that put back what follows its block. */
  lemma ReverseOne(lines: seq<string>, cursor: nat, h: Hunk, all: seq<string>, at: nat, start: nat, next: nat,
                   back: seq<Hunk>, hunks: seq<Hunk>)
    requires Stands(lines, cursor, h, all, at, start, next) && |all| <= MAX_INT64
    requires next <= |all| && Fits(all, next, back) && 0 <= After(h) <= |lines| &&
             Patched(all, next, back) == lines[After(h)..]
    requires hunks == [Hunk(Header(start + 1), Swap(h.body))] + back
    ensures Fits(all, at, hunks) && Patched(all, at, hunks) == lines[cursor..]
  {
    var r := Hunk(Header(start + 1), Swap(h.body));
    ReverseFits(all, at, start, h.body);
    ReverseCompose(all, at, r, back, lines[cursor..First(h)], Old(h.body), lines[After(h)..]);
    SliceOn(lines, cursor, First(h), After(h));
  }

  /** Where the pieces of one patched hunk stand. */
  lemma HunkStands(lines: seq<string>, cursor: nat, h: Hunk, tail: seq<string>, all: seq<string>, at: nat, start: nat,
                   next: nat)
    requires IsSplit(lines) && cursor < |lines| && FitsNext(lines, cursor, h) && AllLines(Old(h.body))
    requires at <= |all| && all[at..] == lines[cursor..First(h)] + New(h.body) + tail && tail != []
    requires start == at + First(h) - cursor && next == start + |New(h.body)|
    ensures Stands(lines, cursor, h, all, at, start, next) && all[next..] == tail
  {
    EndsBefore(lines, cursor, h);
    PiecesStand(lines[cursor..First(h)], New(h.body), tail, all, at, start, next);
  }

  lemma PiecesStand(gap: seq<string>, block: seq<string>, tail: seq<string>, all: seq<string>, at: nat, start: nat,
                    next: nat)
    requires at <= |all| && all[at..] == gap + block + tail && tail != []
    requires start == at + |gap| && next == start + |block|
    ensures next < |all| && all[at..start] == gap && all[start..next] == block && all[next..] == tail
  {
    SuffixOf(all, at, gap, block, tail);
  }

  lemma WholeRest(hunks: seq<Hunk>)
    requires WholeLines(hunks) && hunks != []
    ensures WholeLines(hunks[1..]) &&
            forall j :: 0 <= j < |hunks[0].body| ==> IsBody(hunks[0].body[j]) && IsLine(hunks[0].body[j])
  {
  }

  lemma PatchedFirst(lines: seq<string>, cursor: nat, hunks: seq<Hunk>)
    requires cursor <= |lines| && Fits(lines, cursor, hunks) && hunks != []
    ensures FitsNext(lines, cursor, hunks[0]) && Fits(lines, After(hunks[0]), hunks[1..])
    ensures Patched(lines, cursor, hunks) ==
            lines[cursor..First(hunks[0])] + New(hunks[0].body) + Patched(lines, After(hunks[0]), hunks[1..])
  {
  }

  /** What a list of whole-line hunks says of its first and of the rest. */
  lemma FirstAndRest(lines: seq<string>, cursor: nat, hunks: seq<Hunk>)
    requires IsSplit(lines) && cursor < |lines| && Fits(lines, cursor, hunks) && WholeLines(hunks) && hunks != []
    ensures FitsNext(lines, cursor, hunks[0]) && Fits(lines, After(hunks[0]), hunks[1..])
    ensures AllLines(Old(hunks[0].body)) && After(hunks[0]) < |lines| &&
            Patched(lines, After(hunks[0]), hunks[1..]) != []
  {
    PatchedFirst(lines, cursor, hunks);
    WholeRest(hunks);
    BlocksAreLines(hunks[0].body);
    EndsBefore(lines, cursor, hunks[0]);
    PatchedKeepsEnd(lines, After(hunks[0]), hunks[1..]);
  }

  lemma ReverseMore(lines: seq<string>, cursor: nat, hunks: seq<Hunk>, all: seq<string>, at: nat, start: nat,
                    next: nat, delta: int)
    requires hunks != [] && Stands(lines, cursor, hunks[0], all, at, start, next) && |all| <= MAX_INT64
    requires start == First(hunks[0]) + delta
    requires Fits(all, next, Reversed(hunks[1..], Moved(hunks[0], delta)))
    requires Patched(all, next, Reversed(hunks[1..], Moved(hunks[0], delta))) == lines[After(hunks[0])..]
    ensures Fits(all, at, Reversed(hunks, delta)) && Patched(all, at, Reversed(hunks, delta)) == lines[cursor..]
  {
    assert start + 1 == NewStart(hunks[0], delta);
    ReverseOne(lines, cursor, hunks[0], all, at, start, next, Reversed(hunks[1..], Moved(hunks[0], delta)),
               Reversed(hunks, delta));
  }

  /** The heart of it: where the patched lines stand in `all`, from `at` on, the reversed hunks fit and put the
      old lines back. */
  lemma {:induction false} ReverseRestores(lines: seq<string>, cursor: nat, hunks: seq<Hunk>, all: seq<string>,
                                           at: nat, delta: int)
    requires IsSplit(lines) && cursor < |lines| && Fits(lines, cursor, hunks) && WholeLines(hunks)
    requires at <= |all| <= MAX_INT64 && all[at..] == Patched(lines, cursor, hunks) && delta == at - cursor
    ensures Fits(all, at, Reversed(hunks, delta)) && Patched(all, at, Reversed(hunks, delta)) == lines[cursor..]
    decreases |hunks|
  {
    if hunks != [] {
      var h := hunks[0];
      FirstAndRest(lines, cursor, hunks);
      PatchedFirst(lines, cursor, hunks);
      WholeRest(hunks);
      var start := First(h) + delta;
      var next := start + |New(h.body)|;
      HunkStands(lines, cursor, h, Patched(lines, After(h), hunks[1..]), all, at, start, next);
      ReverseRestores(lines, After(h), hunks[1..], all, next, Moved(h, delta));
      ReverseMore(lines, cursor, hunks, all, at, start, next, delta);
    }
  }

  // ---------------------------------------------------------------- the reversed patch as text

  function Rendered(hunks: seq<Hunk>): seq<string> {
    if hunks == [] then [] else [hunks[0].header] + hunks[0].body + Rendered(hunks[1..])
  }

  /** A hunk that can be written down: a header line, then body lines, none ending in a carriage return and a
      newline. */
  ghost predicate Writable(h: Hunk) {
    && IsHeader(h.header) && IsLine(h.header) && NoReturn(h.header)
    && forall j :: 0 <= j < |h.body| ==> IsBody(h.body[j]) && IsLine(h.body[j]) && NoReturn(h.body[j])
  }

  /** What lets `AllWritable` be read, and is always true. */
  ghost predicate LookAtHunks(hunks: seq<Hunk>) { true }

  ghost predicate AllWritable(hunks: seq<Hunk>) {
    forall all: seq<Hunk> {:trigger LookAtHunks(all)} :: LookAtHunks(all) && all == hunks ==>
      forall i :: 0 <= i < |all| ==> Writable(all[i])
  }

  lemma WritableRest(hunks: seq<Hunk>)
    requires AllWritable(hunks) && hunks != []
    ensures Writable(hunks[0]) && AllWritable(hunks[1..])
  {
    assert LookAtHunks(hunks);
  }

  ghost predicate Plain(lines: seq<string>) {
    forall i :: 0 <= i < |lines| ==> IsLine(lines[i]) && NoReturn(lines[i])
  }

  lemma {:induction false} JoinNoReturn(lines: seq<string>)
    requires Plain(lines)
    ensures NoReturn(Join(lines))
  {
    if lines != [] {
      JoinNoReturn(lines[1..]);
      LineNoReturn(lines[0], Join(lines[1..]));
    }
  }

  lemma LineNoReturn(line: string, rest: string)
    requires IsLine(line) && NoReturn(line) && NoReturn(rest)
    ensures NoReturn(line + rest)
  {
  }

  lemma PlainConcat(a: seq<string>, b: seq<string>)
    requires Plain(a) && Plain(b)
    ensures Plain(a + b)
  {
  }

  lemma {:induction false} RenderedLines(hunks: seq<Hunk>)
    requires AllWritable(hunks)
    ensures Plain(Rendered(hunks))
  {
    if hunks != [] {
      WritableRest(hunks);
      RenderedLines(hunks[1..]);
      assert Plain([hunks[0].header]) && Plain(hunks[0].body);
      PlainConcat([hunks[0].header], hunks[0].body);
      PlainConcat([hunks[0].header] + hunks[0].body, Rendered(hunks[1..]));
    }
  }

  lemma {:induction false} BodyEndIs(p: seq<string>, i: nat, n: nat)
    requires i <= n < |p| && (forall j :: i <= j < n ==> IsBody(p[j])) && !IsBody(p[n])
    ensures BodyEnd(p, i) == n
    decreases n - i
  {
    if i < n { BodyEndIs(p, i + 1, n); }
  }

  /** What stands behind the body of a rendered hunk is no body line. */
  lemma NextIsNoBody(hunks: seq<Hunk>)
    requires AllWritable(hunks)
    ensures !IsBody((Rendered(hunks) + [""])[0])
  {
    if hunks != [] { WritableRest(hunks); }
  }

  lemma RenderedPieces(p: seq<string>, i: nat, h: Hunk, rest: seq<string>)
    requires i < |p| && rest != [] && p[i..] == [h.header] + h.body + rest
    ensures i + 1 + |h.body| < |p| && p[i] == h.header && p[i + 1..i + 1 + |h.body|] == h.body &&
            p[i + 1 + |h.body|..] == rest
    ensures forall j :: i + 1 <= j < i + 1 + |h.body| ==> p[j] == h.body[j - i - 1]
    ensures p[i + 1 + |h.body|] == rest[0]
  {
    assert p[i..][0] == h.header;
    SuffixOf(p, i, [h.header], h.body, rest);
    assert p[i + 1 + |h.body|..][0] == rest[0];
    forall j | i + 1 <= j < i + 1 + |h.body| ensures p[j] == h.body[j - i - 1] {
      assert p[i + 1..i + 1 + |h.body|][j - i - 1] == p[j];
    }
  }

  lemma LastIsNoHunk(p: seq<string>, i: nat)
    requires i < |p| && p[i..] == [""]
    ensures HunksFrom(p, i) == []
  {
    assert p[i..][0] == "";
    assert HunksFrom(p, i + 1) == [];
  }

  lemma ReadOn(p: seq<string>, i: nat, next: nat, hunks: seq<Hunk>)
    requires i <= |p| && next <= |p| && hunks != []
    requires HunksFrom(p, i) == [hunks[0]] + HunksFrom(p, next) && HunksFrom(p, next) == hunks[1..]
    ensures HunksFrom(p, i) == hunks
  {
  }

  lemma {:induction false} HunksOfRendered(p: seq<string>, i: nat, hunks: seq<Hunk>)
    requires i < |p| && p[i..] == Rendered(hunks) + [""] && AllWritable(hunks)
    ensures HunksFrom(p, i) == hunks
    decreases |hunks|
  {
    if hunks == [] {
      LastIsNoHunk(p, i);
    } else {
      RenderedFirst(hunks);
      FirstRendered(p, i, hunks, Rendered(hunks[1..]) + [""]);
      HunksOfRendered(p, i + 1 + |hunks[0].body|, hunks[1..]);
      ReadOn(p, i, i + 1 + |hunks[0].body|, hunks);
    }
  }

  lemma RenderedFirst(hunks: seq<Hunk>)
    requires hunks != []
    ensures Rendered(hunks) + [""] == [hunks[0].header] + hunks[0].body + (Rendered(hunks[1..]) + [""])
  {
    ConcatAssoc([hunks[0].header] + hunks[0].body, Rendered(hunks[1..]), [""]);
  }

  lemma FirstRendered(p: seq<string>, i: nat, hunks: seq<Hunk>, rest: seq<string>)
    requires i < |p| && hunks != [] && AllWritable(hunks) && rest == Rendered(hunks[1..]) + [""]
    requires p[i..] == [hunks[0].header] + hunks[0].body + rest
    ensures var next := i + 1 + |hunks[0].body|;
            && next < |p| && p[next..] == rest && AllWritable(hunks[1..])
            && HunksFrom(p, i) == [hunks[0]] + HunksFrom(p, next)
  {
    WritableRest(hunks);
    NextIsNoBody(hunks[1..]);
    FirstRead(p, i, hunks[0], rest);
  }

  /** A written hunk with no body line behind it is read as that hunk. */
  lemma FirstRead(p: seq<string>, i: nat, h: Hunk, rest: seq<string>)
    requires i < |p| && rest != [] && p[i..] == [h.header] + h.body + rest && Writable(h) && !IsBody(rest[0])
    ensures i + 1 + |h.body| < |p| && p[i + 1 + |h.body|..] == rest
    ensures HunksFrom(p, i) == [h] + HunksFrom(p, i + 1 + |h.body|)
  {
    RenderedPieces(p, i, h, rest);
    BodyEndIs(p, i + 1, i + 1 + |h.body|);
  }

  lemma RenderRoundTrip(hunks: seq<Hunk>)
    requires AllWritable(hunks)
    ensures Hunks(Join(Rendered(hunks))) == hunks
  {
    var lines := Rendered(hunks);
    RenderedLines(hunks);
    JoinNoReturn(lines);
    NormalizedSame(Join(lines));
    JoinConcat(lines, [""]);
    assert Join([""]) == "";
    assert Join(lines + [""]) == Join(lines);
    SplitOfJoin(lines + [""]);
    HunksOfRendered(lines + [""], 0, hunks);
  }

  lemma {:induction false} DigitsPlain(n: nat)
    ensures forall i :: 0 <= i < |Digits(n)| ==> Digits(n)[i] != '\r' && Digits(n)[i] != '\n'
  {
    assert forall i :: 0 <= i < |Digits(n)| ==> IsDigit(Digits(n)[i]);
  }

  lemma HeaderWritable(n: nat)
    ensures IsHeader(Header(n)) && IsLine(Header(n)) && NoReturn(Header(n))
  {
    DigitsPlain(n);
  }

  lemma {:induction false} SwapWritable(body: seq<string>)
    requires forall j :: 0 <= j < |body| ==> IsBody(body[j]) && IsLine(body[j]) && NoReturn(body[j])
    ensures forall j :: 0 <= j < |body| ==> IsBody(Swap(body)[j]) && IsLine(Swap(body)[j]) && NoReturn(Swap(body)[j])
  {
    if body != [] {
      SwapWritable(body[..|body| - 1]);
      SwapLineWritable(body[|body| - 1]);
    }
  }

  lemma SwapLineWritable(line: string)
    requires IsBody(line) && IsLine(line) && NoReturn(line)
    ensures IsBody(SwapLine(line)) && IsLine(SwapLine(line)) && NoReturn(SwapLine(line))
  {
    assert |line| >= 2;
    assert forall j :: 1 <= j < |line| ==> SwapLine(line)[j] == line[j];
  }

  lemma WritableCons(h: Hunk, rest: seq<Hunk>)
    requires Writable(h) && AllWritable(rest)
    ensures AllWritable([h] + rest)
  {
    assert LookAtHunks(rest);
  }

  lemma ReversedHunkWritable(h: Hunk, start: nat)
    requires Writable(h)
    ensures Writable(Hunk(Header(start), Swap(h.body)))
  {
    HeaderWritable(start);
    SwapWritable(h.body);
  }

  lemma {:induction false} ReversedWritable(hunks: seq<Hunk>, delta: int)
    requires AllWritable(hunks)
    ensures AllWritable(Reversed(hunks, delta))
    ensures hunks != [] ==> Reversed(hunks, delta) != []
  {
    if hunks != [] {
      WritableRest(hunks);
      ReversedHunkWritable(hunks[0], NewStart(hunks[0], delta));
      ReversedWritable(hunks[1..], Moved(hunks[0], delta));
      WritableCons(Hunk(Header(NewStart(hunks[0], delta)), Swap(hunks[0].body)),
                   Reversed(hunks[1..], Moved(hunks[0], delta)));
    }
  }

  lemma WritableIsWhole(hunks: seq<Hunk>)
    requires AllWritable(hunks)
    ensures WholeLines(hunks)
  {
    assert LookAtHunks(hunks);
    forall i, j | 0 <= i < |hunks| && 0 <= j < |hunks[i].body|
      ensures IsBody(hunks[i].body[j]) && IsLine(hunks[i].body[j])
    {
      assert Writable(hunks[i]);
    }
  }

  /** The reversed patch, written out, applies to the patched text and gives the source back. */
  lemma ReversePatchRestores(source: string, patch: string)
    requires var lines, hunks := SplitAfter(source), Hunks(patch);
             && hunks != [] && AllWritable(hunks) && Fits(lines, 0, hunks) && |Patched(lines, 0, hunks)| <= MAX_INT64
    ensures var patched := Join(Patched(SplitAfter(source), 0, Hunks(patch)));
            var back := Hunks(Join(Rendered(Reversed(Hunks(patch), 0))));
            && back != [] && Fits(SplitAfter(patched), 0, back)
            && Join(Patched(SplitAfter(patched), 0, back)) == source
  {
    var lines, hunks := SplitAfter(source), Hunks(patch);
    SplitIsSplit(source);
    WritableIsWhole(hunks);
    var all := Patched(lines, 0, hunks);
    PatchedKeepsEnd(lines, 0, hunks);
    SplitOfJoin(all);
    assert all[0..] == all && lines[0..] == lines;
    ReverseRestores(lines, 0, hunks, all, 0, 0);
    ReversedWritable(hunks, 0);
    RenderRoundTrip(Reversed(hunks, 0));
  }
}
