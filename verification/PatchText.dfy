/** A unified diff as `applyPatch` reads it: text cut into lines, lines into hunks. */
module PatchText {
  import opened Wrappers
  import opened Decimal

  // ---------------------------------------------------------------- lines

  /** `strings.SplitAfter(s, "\n")`: every newline ends a line, and a last line without one follows. */
  function SplitAfter(s: string): (lines: seq<string>)
    ensures |lines| > 0
    decreases |s|
  {
    var i := NewlineAt(s, 0);
    if i < |s| then [s[..i + 1]] + SplitAfter(s[i + 1..]) else [s]
  }

  /** The first newline at or after `i`, or the length. */
  function NewlineAt(s: string, i: nat): (n: nat)
    requires i <= |s|
    ensures i <= n <= |s| && (n < |s| ==> s[n] == '\n') && forall j :: i <= j < n ==> s[j] != '\n'
    decreases |s| - i
  {
    if i == |s| || s[i] == '\n' then i else NewlineAt(s, i + 1)
  }

  function Join(lines: seq<string>): string {
    if lines == [] then "" else lines[0] + Join(lines[1..])
  }

  /** A whole line: one newline, at its end. */
  predicate IsLine(s: string) {
    s != "" && s[|s| - 1] == '\n' && forall j :: 0 <= j < |s| - 1 ==> s[j] != '\n'
  }

  predicate NoNewline(s: string) { forall j :: 0 <= j < |s| ==> s[j] != '\n' }

  /** What splitting yields: whole lines, then a rest without a newline. */
  ghost predicate IsSplit(lines: seq<string>) {
    && lines != [] && NoNewline(lines[|lines| - 1])
    && forall i :: 0 <= i < |lines| - 1 ==> IsLine(lines[i])
  }

  lemma ConsSplit(first: string, rest: seq<string>)
    requires IsLine(first) && IsSplit(rest)
    ensures IsSplit([first] + rest) && Join([first] + rest) == first + Join(rest)
  {
    assert ([first] + rest)[1..] == rest;
  }

  lemma {:induction false} SplitIsSplit(s: string)
    ensures IsSplit(SplitAfter(s)) && Join(SplitAfter(s)) == s
    decreases |s|
  {
    var i := NewlineAt(s, 0);
    if i < |s| {
      FirstLine(s, i);
      SplitIsSplit(s[i + 1..]);
      ConsSplit(s[..i + 1], SplitAfter(s[i + 1..]));
    } else {
      assert [s][1..] == [];
      assert Join([s]) == s + "";
    }
  }

  lemma FirstLine(s: string, i: nat)
    requires i < |s| && s[i] == '\n' && forall j :: 0 <= j < i ==> s[j] != '\n'
    ensures IsLine(s[..i + 1]) && s[..i + 1] + s[i + 1..] == s
  {
  }

  /** Lines that could come from splitting do: the round trip the other way. */
  lemma {:induction false} SplitOfJoin(lines: seq<string>)
    requires IsSplit(lines)
    ensures SplitAfter(Join(lines)) == lines
  {
    var s := Join(lines);
    if |lines| == 1 {
      assert lines[1..] == [] && s == lines[0] + "";
      assert s == lines[0];
    } else {
      var rest := Join(lines[1..]);
      assert s == lines[0] + rest;
      var i := NewlineAt(s, 0);
      assert s[|lines[0]| - 1] == '\n';
      assert forall j :: 0 <= j < |lines[0]| - 1 ==> s[j] == lines[0][j] && lines[0][j] != '\n';
      assert i == |lines[0]| - 1;
      assert s[..i + 1] == lines[0] && s[i + 1..] == rest;
      SplitOfJoin(lines[1..]);
    }
  }

  lemma {:induction false} JoinConcat(a: seq<string>, b: seq<string>)
    ensures Join(a + b) == Join(a) + Join(b)
  {
    if a == [] {
      assert a + b == b;
    } else {
      JoinConcat(a[1..], b);
      assert (a + b)[0] == a[0] && (a + b)[1..] == a[1..] + b;
      ConcatAssoc(a[0], Join(a[1..]), Join(b));
    }
  }

  /** `strings.ReplaceAll(s, "\r\n", "\n")`. */
  function Normalized(s: string): string {
    if |s| >= 2 && s[0] == '\r' && s[1] == '\n' then "\n" + Normalized(s[2..])
    else if s == "" then ""
    else [s[0]] + Normalized(s[1..])
  }

  /** No line ends in a carriage return and a newline. */
  predicate NoReturn(s: string) {
    forall i :: 0 <= i < |s| - 1 ==> !(s[i] == '\r' && s[i + 1] == '\n')
  }

  lemma {:induction false} NormalizedSame(s: string)
    requires NoReturn(s)
    ensures Normalized(s) == s
  {
    if s != "" { NormalizedSame(s[1..]); }
  }

  lemma NormalizedCons(c: char, s: string)
    requires !(c == '\r' && s != "" && s[0] == '\n')
    ensures Normalized([c] + s) == [c] + Normalized(s)
  {
    assert ([c] + s)[1..] == s;
  }

  lemma NormalizedEnd(s: string)
    ensures Normalized("\r\n" + s) == "\n" + Normalized(s)
  {
    assert ("\r\n" + s)[2..] == s;
  }

  /** Texts that meet in no such pair are normalized each by itself. */
  lemma {:induction false} NormalizedJoins(a: string, b: string)
    requires !(a != "" && a[|a| - 1] == '\r' && b != "" && b[0] == '\n')
    ensures Normalized(a + b) == Normalized(a) + Normalized(b)
  {
    if a == "" {
      assert a + b == b && Normalized(a) + Normalized(b) == Normalized(b);
    } else if |a| >= 2 && a[0] == '\r' && a[1] == '\n' {
      NormalizedJoins(a[2..], b);
      NormalizedEnd(a[2..] + b);
      PairAhead(a, b);
      ConcatAssoc("\n", Normalized(a[2..]), Normalized(b));
    } else {
      NormalizedJoins(a[1..], b);
      NormalizedCons(a[0], a[1..] + b);
      ConcatAssoc([a[0]], a[1..], b);
      HeadTail(a);
      ConcatAssoc([a[0]], Normalized(a[1..]), Normalized(b));
    }
  }

  lemma PairAhead(a: string, b: string)
    requires |a| >= 2 && a[0] == '\r' && a[1] == '\n'
    ensures a + b == "\r\n" + (a[2..] + b)
  {
  }

  /** Every pair of carriage return and newline becomes a newline, wherever it stands. */
  lemma NormalizedPair(a: string, b: string)
    ensures Normalized(a + ("\r\n" + b)) == Normalized(a) + ("\n" + Normalized(b))
  {
    NormalizedJoins(a, "\r\n" + b);
    NormalizedEnd(b);
  }

  /** The text with every newline written as carriage return and newline. */
  function WithReturns(s: string): string {
    if s == "" then "" else (if s[0] == '\n' then "\r\n" else [s[0]]) + WithReturns(s[1..])
  }

  /** Normalizing takes exactly these line ends back. */
  lemma {:induction false} NormalizedUndoes(s: string)
    ensures Normalized(WithReturns(s)) == s
  {
    if s != "" {
      NormalizedUndoes(s[1..]);
      if s[0] == '\n' {
        NormalizedEnd(WithReturns(s[1..]));
      } else {
        NormalizedCons(s[0], WithReturns(s[1..]));
      }
    }
  }

  // ---------------------------------------------------------------- hunks

  predicate IsSpace(c: char) { c == ' ' || '\t' <= c <= '\r' }

  function SkipSpace(s: string): string {
    if s != "" && IsSpace(s[0]) then SkipSpace(s[1..]) else s
  }

  function WordEnd(s: string): (n: nat)
    ensures n <= |s|
  {
    if s == "" || IsSpace(s[0]) then 0 else 1 + WordEnd(s[1..])
  }

  /** The second of `strings.Fields`, empty if there is none. */
  function SecondField(line: string): string {
    var first := SkipSpace(line);
    var second := SkipSpace(first[WordEnd(first)..]);
    second[..WordEnd(second)]
  }

  function Before(s: string, c: char): string {
    if s == "" || s[0] == c then "" else [s[0]] + Before(s[1..], c)
  }

  predicate IsHeader(line: string) { |line| >= 3 && line[0] == '@' && line[1] == '@' && line[2] == ' ' }

  predicate IsBody(line: string) { line != "" && (line[0] == ' ' || line[0] == '+' || line[0] == '-') }

  /** The first line of the old block: the number after "-", up to a comma. */
  function StartOf(header: string): Option<int> {
    var field := SecondField(header);
    var number := Before(if field != "" && field[0] == '-' then field[1..] else field, ',');
    if AtoiOk(number) then Some(Atoi(number)) else None
  }

  datatype Hunk = Hunk(header: string, body: seq<string>)

  function BodyEnd(p: seq<string>, i: nat): (n: nat)
    requires i <= |p|
    ensures i <= n <= |p| && (forall j :: i <= j < n ==> IsBody(p[j])) && (n < |p| ==> !IsBody(p[n]))
    decreases |p| - i
  {
    if i < |p| && IsBody(p[i]) then BodyEnd(p, i + 1) else i
  }

  /** The body lines from `i` on. */
  function BodyAt(p: seq<string>, i: nat): seq<string>
    requires i <= |p|
  {
    p[i..BodyEnd(p, i)]
  }

  /** The hunks in the patch lines from `i` on: a header and the body lines right behind it. */
  function HunksFrom(p: seq<string>, i: nat): seq<Hunk>
    requires i <= |p|
    decreases |p| - i
  {
    if i == |p| then []
    else if !IsHeader(p[i]) then HunksFrom(p, i + 1)
    else [Hunk(p[i], BodyAt(p, i + 1))] + HunksFrom(p, BodyEnd(p, i + 1))
  }

  function Hunks(patch: string): seq<Hunk> {
    HunksFrom(SplitAfter(Normalized(patch)), 0)
  }

  /** A patch saved with carriage returns is read as the same patch. */
  lemma ReturnsDoNotMatter(patch: string)
    requires NoReturn(patch)
    ensures Hunks(WithReturns(patch)) == Hunks(patch)
  {
    NormalizedUndoes(patch);
    NormalizedSame(patch);
  }

  // ---------------------------------------------------------------- reading a header

  lemma {:induction false} WordOfDigits(digits: string, rest: string)
    requires AllDigits(digits)
    ensures WordEnd(digits + rest) == |digits| + WordEnd(rest)
  {
    if digits == "" {
      assert digits + rest == rest;
    } else {
      WordOfDigits(digits[1..], rest);
      assert (digits + rest)[1..] == digits[1..] + rest;
    }
  }

  /** A number is what stands before the first comma, or all of it. */
  lemma {:induction false} BeforeComma(digits: string, rest: string)
    requires AllDigits(digits) && (rest == "" || rest[0] == ',')
    ensures Before(digits + rest, ',') == digits
  {
    if digits == "" {
      assert digits + rest == rest;
    } else {
      BeforeComma(digits[1..], rest);
      assert (digits + rest)[1..] == digits[1..] + rest;
    }
  }

  lemma FirstWord(tail: string)
    ensures SkipSpace("@@ " + tail) == "@@ " + tail && WordEnd("@@ " + tail) == 2 && ("@@ " + tail)[2..] == " " + tail
  {
    assert ("@@ " + tail)[1..] == "@ " + tail;
    assert ("@ " + tail)[1..] == " " + tail;
    assert WordEnd(" " + tail) == 0;
    assert WordEnd("@ " + tail) == 1;
  }

  lemma SecondWord(digits: string, rest: string)
    requires AllDigits(digits) && digits != ""
    ensures var second := "-" + digits + rest;
            SkipSpace(" " + second) == second && WordEnd(second) == 1 + |digits| + WordEnd(rest)
  {
    var second := "-" + digits + rest;
    assert (" " + second)[1..] == second;
    assert second[1..] == digits + rest;
    WordOfDigits(digits, rest);
  }

  /** Which lines open a hunk and which belong to one, and what separates the fields of a header. */
  lemma LineKinds(line: string, c: char)
    ensures IsHeader(line) <==> "@@ " <= line
    ensures IsBody(line) <==> " " <= line || "+" <= line || "-" <= line
    ensures IsSpace(c) <==> c == ' ' || c == '\t' || c == '\n' || c == 11 as char || c == 12 as char || c == '\r'
  {
    if "@@ " <= line { assert line[0] == '@' && line[1] == '@' && line[2] == ' '; }
    if IsHeader(line) { assert line[..3] == "@@ "; }
  }

  /** The start of a hunk as any diff writes it: the number after "-", up to a comma or a space, whatever follows. */
  lemma StartOfWritten(n: nat, rest: string)
    requires n <= MAX_INT64 && rest != "" && (rest[0] == ',' || IsSpace(rest[0]))
    ensures IsHeader("@@ -" + Digits(n) + rest) && StartOf("@@ -" + Digits(n) + rest) == Some(n)
  {
    var digits, more := Digits(n), rest[..WordEnd(rest)];
    var second := "-" + digits + rest;
    assert "@@ -" + digits + rest == "@@ " + second;
    FirstWord(second);
    SecondWord(digits, rest);
    assert second[..WordEnd(second)] == "-" + (digits + more);
    assert ("-" + (digits + more))[1..] == digits + more;
    assert more == "" || more[0] == ',';
    BeforeComma(digits, more);
    AtoiOfItoa(n);
    AtoiOkDigits(n);
  }

  // ---------------------------------------------------------------- what a patch means

  /** The block a hunk expects: its context and removed lines. */
  function Old(body: seq<string>): seq<string> {
    if body == [] then []
    else
      Old(body[..|body| - 1]) +
      (if body[|body| - 1] != "" && body[|body| - 1][0] != '+' then [body[|body| - 1][1..]] else [])
  }

  /** The block it puts in its place: its context and added lines. */
  function New(body: seq<string>): seq<string> {
    if body == [] then []
    else
      New(body[..|body| - 1]) +
      (if body[|body| - 1] != "" && body[|body| - 1][0] != '-' then [body[|body| - 1][1..]] else [])
  }

  /** One more body line: context belongs to both blocks, a removed line to the old one, an added one to the new. */
  lemma BlocksMore(body: seq<string>, text: string)
    ensures Old(body + [" " + text]) == Old(body) + [text] && New(body + [" " + text]) == New(body) + [text]
    ensures Old(body + ["-" + text]) == Old(body) + [text] && New(body + ["-" + text]) == New(body)
    ensures Old(body + ["+" + text]) == Old(body) && New(body + ["+" + text]) == New(body) + [text]
    ensures Old([]) == [] && New([]) == []
  {
    BlocksSnoc(body, ' ', text);
    BlocksSnoc(body, '-', text);
    BlocksSnoc(body, '+', text);
  }

  lemma BlocksSnoc(body: seq<string>, sign: char, text: string)
    ensures Old(body + [[sign] + text]) == Old(body) + if sign != '+' then [text] else []
    ensures New(body + [[sign] + text]) == New(body) + if sign != '-' then [text] else []
  {
    InitSnoc(body, [sign] + text);
    assert ([sign] + text)[1..] == text;
  }

  /** The lines a hunk addresses, counted from 0; meaningless where the header is unreadable. */
  function First(h: Hunk): int { StartOf(h.header).GetOr(0) - 1 }

  function After(h: Hunk): int { First(h) + |Old(h.body)| }

  /** The hunks lie in order within the lines from `cursor` on, and each old block is there. */
  predicate Fits(lines: seq<string>, cursor: nat, hunks: seq<Hunk>)
    requires cursor <= |lines|
    decreases |hunks|
  {
    hunks == [] ||
    (var h := hunks[0];
     && StartOf(h.header).Some? && cursor <= First(h) < |lines| && After(h) <= |lines|
     && lines[First(h)..After(h)] == Old(h.body)
     && Fits(lines, After(h), hunks[1..]))
  }

  /** The lines with every old block replaced by its new block and everything between untouched. */
  function Patched(lines: seq<string>, cursor: nat, hunks: seq<Hunk>): seq<string>
    requires cursor <= |lines| && Fits(lines, cursor, hunks)
    decreases |hunks|
  {
    if hunks == [] then lines[cursor..]
    else lines[cursor..First(hunks[0])] + New(hunks[0].body) + Patched(lines, After(hunks[0]), hunks[1..])
  }

  // ---------------------------------------------------------------- reading a patch from front to back

  /** What lets `Ahead` be read, and is always true. */
  ghost predicate LookAhead(p: seq<string>) { true }

  /** How far the loops have come: `result` written so far, the hunks from `index` on still ahead. The loop only
      passes this on. */
  ghost predicate Ahead(lines: seq<string>, p: seq<string>, index: nat, cursor: nat, result: string)
    requires index <= |p| && cursor <= |lines|
  {
    forall q: seq<string> {:trigger LookAhead(q)} :: LookAhead(q) && q == p ==>
      var all, left := HunksFrom(q, 0), HunksFrom(q, index);
      && (Fits(lines, 0, all) <==> Fits(lines, cursor, left))
      && (Fits(lines, 0, all) ==> Join(Patched(lines, 0, all)) == result + Join(Patched(lines, cursor, left)))
  }

  predicate FitsNext(lines: seq<string>, cursor: nat, h: Hunk)
    requires cursor <= |lines|
  {
    StartOf(h.header).Some? && cursor <= First(h) < |lines| && BlockAt(lines, First(h), h.body)
  }

  lemma FitsFirst(lines: seq<string>, cursor: nat, hunks: seq<Hunk>)
    requires cursor <= |lines| && hunks != []
    ensures Fits(lines, cursor, hunks) <==>
              FitsNext(lines, cursor, hunks[0]) && Fits(lines, After(hunks[0]), hunks[1..])
  {
  }

  lemma FitsCons(lines: seq<string>, cursor: nat, h: Hunk, rest: seq<Hunk>)
    requires cursor <= |lines|
    ensures Fits(lines, cursor, [h] + rest) <==> FitsNext(lines, cursor, h) && Fits(lines, After(h), rest)
  {
    FitsFirst(lines, cursor, [h] + rest);
    assert ([h] + rest)[1..] == rest;
  }

  lemma PatchedCons(lines: seq<string>, cursor: nat, h: Hunk, rest: seq<Hunk>)
    requires cursor <= |lines| && FitsNext(lines, cursor, h) && Fits(lines, After(h), rest) &&
             Fits(lines, cursor, [h] + rest)
    ensures Patched(lines, cursor, [h] + rest) == lines[cursor..First(h)] + New(h.body) + Patched(lines, After(h), rest)
  {
    assert ([h] + rest)[0] == h && ([h] + rest)[1..] == rest;
  }

  lemma JoinThree(a: seq<string>, b: seq<string>, c: seq<string>)
    ensures Join(a + b + c) == Join(a) + Join(b) + Join(c)
  {
    JoinConcat(a + b, c);
    JoinConcat(a, b);
  }

  lemma NextHunk(p: seq<string>, index: nat)
    requires index < |p| && IsHeader(p[index])
    ensures HunksFrom(p, index) == [HunkAt(p, index)] + HunksFrom(p, BodyEnd(p, index + 1))
  {
  }

  lemma AheadMore(lines: seq<string>, p: seq<string>, index: nat, end: nat, cursor: nat, result: string, h: Hunk,
                  cursor2: nat, result2: string)
    requires index <= |p| && end <= |p| && cursor <= |lines| && Ahead(lines, p, index, cursor, result)
    requires HunksFrom(p, index) == [h] + HunksFrom(p, end) && FitsNext(lines, cursor, h) && cursor2 == After(h)
    requires result2 == result + Join(lines[cursor..First(h)]) + Join(New(h.body))
    ensures Ahead(lines, p, end, cursor2, result2)
  {
    assert LookAhead(p);
    var rest := HunksFrom(p, end);
    FitsCons(lines, cursor, h, rest);
    if Fits(lines, 0, HunksFrom(p, 0)) {
      PatchedCons(lines, cursor, h, rest);
      JoinThree(lines[cursor..First(h)], New(h.body), Patched(lines, After(h), rest));
      Regroup(result, Join(lines[cursor..First(h)]), Join(New(h.body)), Join(Patched(lines, After(h), rest)));
    }
  }

  lemma Regroup(a: string, b: string, c: string, d: string)
    ensures a + (b + c + d) == a + b + c + d
  {
  }

  /** The text as far as a hunk's body has been read. */
  lemma BodyStep(body: seq<string>, k: nat)
    requires k < |body| && body[k] != ""
    ensures Old(body[..k + 1]) == Old(body[..k]) + (if body[k][0] != '+' then [body[k][1..]] else [])
    ensures Join(New(body[..k + 1])) == Join(New(body[..k])) + (if body[k][0] != '-' then body[k][1..] else "")
  {
    TakeTake(body, k + 1, k);
    JoinConcat(New(body[..k]), if body[k][0] != '-' then [body[k][1..]] else []);
    assert Join([body[k][1..]]) == body[k][1..] + "";
  }

  lemma {:induction false} OldGrows(body: seq<string>, k: nat, m: nat)
    requires k <= m <= |body|
    ensures Old(body[..k]) <= Old(body[..m])
  {
    if k < m {
      OldGrows(body, k, m - 1);
      assert body[..m][..m - 1] == body[..m - 1];
    }
  }

  predicate HeaderOk(line: string, cursor: nat, count: nat) {
    StartOf(line).Some? && cursor <= StartOf(line).value - 1 < count
  }

  /** The hunk whose header stands at `index`. */
  function HunkAt(p: seq<string>, index: nat): Hunk
    requires index < |p|
  {
    Hunk(p[index], BodyAt(p, index + 1))
  }

  /** What applying a hunk makes of what was written before. */
  predicate HunkWrites(lines: seq<string>, h: Hunk, cursor: nat, result: string, cursor2: nat, result2: string)
    requires cursor <= |lines| && FitsNext(lines, cursor, h)
  {
    cursor2 == After(h) && result2 == result + Join(lines[cursor..First(h)]) + Join(New(h.body))
  }

  /** A hunk fits exactly when its header names a line from the cursor on and its old block stands there. */
  lemma HunkFits(lines: seq<string>, p: seq<string>, index: nat, cursor: nat)
    requires index < |p| && cursor <= |lines|
    ensures FitsNext(lines, cursor, HunkAt(p, index)) <==>
              HeaderOk(p[index], cursor, |lines|) &&
                BlockAt(lines, StartOf(p[index]).value - 1, BodyAt(p, index + 1))
  {
  }

  lemma HunkWritten(lines: seq<string>, h: Hunk, cursor: nat, result: string, start: int, cursor2: nat, text: string)
    requires cursor <= |lines| && FitsNext(lines, cursor, h) && Some(start) == StartOf(h.header)
    requires cursor2 == start - 1 + |Old(h.body)| && text == Join(New(h.body))
    ensures HunkWrites(lines, h, cursor, result, cursor2, result + Join(lines[cursor..start - 1]) + text)
  {
  }

  lemma HunkStep(lines: seq<string>, p: seq<string>, index: nat, cursor: nat, result: string, cursor2: nat,
                 result2: string)
    requires index < |p| && cursor <= |lines| && Ahead(lines, p, index, cursor, result) && IsHeader(p[index])
    requires FitsNext(lines, cursor, HunkAt(p, index)) &&
             HunkWrites(lines, HunkAt(p, index), cursor, result, cursor2, result2)
    ensures cursor2 <= |lines| && Ahead(lines, p, BodyEnd(p, index + 1), cursor2, result2)
  {
    NextHunk(p, index);
    AheadMore(lines, p, index, BodyEnd(p, index + 1), cursor, result, HunkAt(p, index), cursor2, result2);
  }

  lemma HunkFails(lines: seq<string>, p: seq<string>, index: nat, cursor: nat, result: string)
    requires index < |p| && cursor <= |lines| && Ahead(lines, p, index, cursor, result) && IsHeader(p[index])
    requires !FitsNext(lines, cursor, HunkAt(p, index))
    ensures !Fits(lines, 0, HunksFrom(p, 0))
  {
    assert LookAhead(p);
    NextHunk(p, index);
    FitsCons(lines, cursor, HunkAt(p, index), HunksFrom(p, BodyEnd(p, index + 1)));
  }

  /** How many hunks have been met tells whether there are any. */
  ghost predicate Counted(p: seq<string>, index: nat, hunks: nat)
    requires index <= |p|
  {
    if hunks == 0 then HunksFrom(p, 0) == HunksFrom(p, index) else HunksFrom(p, 0) != []
  }

  lemma CountSkip(p: seq<string>, index: nat, hunks: nat)
    requires index < |p| && Counted(p, index, hunks) && !IsHeader(p[index])
    ensures Counted(p, index + 1, hunks)
  {
  }

  lemma CountHunk(p: seq<string>, index: nat, hunks: nat)
    requires index < |p| && Counted(p, index, hunks) && IsHeader(p[index])
    ensures Counted(p, BodyEnd(p, index + 1), hunks + 1)
  {
  }

  lemma SkipLine(lines: seq<string>, p: seq<string>, index: nat, cursor: nat, result: string)
    requires index < |p| && cursor <= |lines| && Ahead(lines, p, index, cursor, result) && !IsHeader(p[index])
    ensures Ahead(lines, p, index + 1, cursor, result) && HunksFrom(p, index) == HunksFrom(p, index + 1)
  {
    assert LookAhead(p);
  }

  lemma AheadStart(lines: seq<string>, p: seq<string>)
    ensures Ahead(lines, p, 0, 0, "")
  {
    if Fits(lines, 0, HunksFrom(p, 0)) {
      assert "" + Join(Patched(lines, 0, HunksFrom(p, 0))) == Join(Patched(lines, 0, HunksFrom(p, 0)));
    }
  }

  lemma AheadDone(lines: seq<string>, p: seq<string>, cursor: nat, result: string)
    requires cursor <= |lines| && Ahead(lines, p, |p|, cursor, result)
    ensures Fits(lines, 0, HunksFrom(p, 0)) &&
            Join(Patched(lines, 0, HunksFrom(p, 0))) == result + Join(lines[cursor..])
  {
    assert LookAhead(p);
  }

  predicate BlockAt(lines: seq<string>, first: nat, body: seq<string>) {
    first + |Old(body)| <= |lines| && lines[first..first + |Old(body)|] == Old(body)
  }

  /** What lets `Reading` be read, and is always true. */
  ghost predicate LookAtBody(body: seq<string>) { true }

  /** The first `k` body lines match the lines up to `cursor` and wrote `text`. The loop only passes this on. */
  ghost predicate Reading(lines: seq<string>, first: nat, body: seq<string>, k: nat, cursor: nat, text: string) {
    && k <= |body| && first <= cursor <= |lines|
    && forall b: seq<string> {:trigger LookAtBody(b)} :: LookAtBody(b) && b == body && k <= |b| ==>
          lines[first..cursor] == Old(b[..k]) && text == Join(New(b[..k]))
  }

  lemma BlockDiffers(lines: seq<string>, first: nat, block: seq<string>, part: seq<string>, next: string)
    requires part + [next] <= block && first + |part| <= |lines|
    requires first + |part| == |lines| || lines[first + |part|] != next
    ensures !(first + |block| <= |lines| && lines[first..first + |block|] == block)
  {
    assert block[|part|] == (part + [next])[|part|] == next;
    if first + |block| <= |lines| {
      assert lines[first..first + |block|][|part|] == lines[first + |part|];
    }
  }

  lemma SliceSnoc(lines: seq<string>, a: nat, b: nat)
    requires a <= b < |lines|
    ensures lines[a..b + 1] == lines[a..b] + [lines[b]]
  {
  }

  lemma ReadingStep(lines: seq<string>, first: nat, body: seq<string>, k: nat, cursor: nat, text: string)
    requires Reading(lines, first, body, k, cursor, text) && k < |body| && IsBody(body[k])
    ensures var line := body[k];
            if line[0] == '+' then Reading(lines, first, body, k + 1, cursor, text + line[1..])
            else if cursor >= |lines| || lines[cursor] != line[1..] then !BlockAt(lines, first, body)
            else if line[0] == '-' then Reading(lines, first, body, k + 1, cursor + 1, text)
            else Reading(lines, first, body, k + 1, cursor + 1, text + line[1..])
  {
    assert LookAtBody(body);
    BodyStep(body, k);
    if body[k][0] != '+' && (cursor >= |lines| || lines[cursor] != body[k][1..]) {
      OldGrows(body, k + 1, |body|);
      TakeAll(body);
      BlockDiffers(lines, first, Old(body), Old(body[..k]), body[k][1..]);
    } else if body[k][0] != '+' {
      SliceSnoc(lines, first, cursor);
    }
  }

  lemma ReadingStart(lines: seq<string>, first: nat, body: seq<string>)
    requires first <= |lines|
    ensures Reading(lines, first, body, 0, first, "")
  {
  }

  /** Where the body has not ended, its next line stands. */
  lemma BodyHas(p: seq<string>, from: nat, k: nat)
    requires from + k < |p| && BodyEnd(p, from + k) == BodyEnd(p, from) && IsBody(p[from + k])
    ensures k < |BodyAt(p, from)| && BodyAt(p, from)[k] == p[from + k]
    ensures BodyEnd(p, from + k + 1) == BodyEnd(p, from)
  {
  }

  /** Where the lines end, or a line is no body line, the whole body has been read. */
  lemma BodyOver(p: seq<string>, from: nat, k: nat)
    requires from + k <= |p| && BodyEnd(p, from + k) == BodyEnd(p, from) && (from + k < |p| ==> !IsBody(p[from + k]))
    ensures k == |BodyAt(p, from)| && BodyEnd(p, from) == from + k
  {
  }

  lemma ReadingDone(lines: seq<string>, first: nat, body: seq<string>, cursor: nat, text: string)
    requires Reading(lines, first, body, |body|, cursor, text)
    ensures BlockAt(lines, first, body) && cursor == first + |Old(body)| && text == Join(New(body))
  {
    assert LookAtBody(body);
    TakeAll(body);
  }

  /** In the patched lines `all`, the gap before a hunk stands at `at`, its new block from `start` to `next`. */
  predicate Stands(lines: seq<string>, cursor: nat, h: Hunk, all: seq<string>, at: nat, start: nat, next: nat) {
    && cursor <= First(h) <= After(h) < |lines| && lines[First(h)..After(h)] == Old(h.body)
    && at <= start <= next < |all| && next == start + |New(h.body)|
    && all[at..start] == lines[cursor..First(h)] && all[start..next] == New(h.body)
  }
}
