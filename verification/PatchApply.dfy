/** Applying the TLS patch to a source file, and taking it back. */
module PatchApply {
  import opened Wrappers
  import opened Decimal
  import opened PatchText

  datatype Failure = NoField | BadPosition | Mismatch | NoHunks

  /** `strconv.Atoi` of the header's start, with the check of its range; a header without a second field makes
      the program panic. */
  method ReadHeader(line: string, cursor: nat, count: nat) returns (r: Result<int, Failure>)
    ensures r.Ok? <==> HeaderOk(line, cursor, count)
    ensures r.Ok? ==> Some(r.value) == StartOf(line)
  {
    var field := SecondField(line);
    if field == "" { return Err(NoField); }
    var number := Before(if field[0] == '-' then field[1..] else field, ',');
    if !AtoiOk(number) || Atoi(number) < cursor + 1 || Atoi(number) > count { return Err(BadPosition); }
    return Ok(Atoi(number));
  }

  /** `applyPatch`. */
  method ApplyPatch(source: string, patch: string) returns (r: Result<string, Failure>)
    ensures r.Ok? <==> Hunks(patch) != [] && Fits(SplitAfter(source), 0, Hunks(patch))
    ensures r.Ok? ==> r.value == Join(Patched(SplitAfter(source), 0, Hunks(patch)))
  {
    var lines, p := SplitAfter(source), SplitAfter(Normalized(patch));
    var result, cursor: nat, hunks, index := "", 0, 0, 0;
    AheadStart(lines, p);
    while index < |p|
      invariant index <= |p| && cursor <= |lines| && Ahead(lines, p, index, cursor, result)
      invariant 0 <= hunks && Counted(p, index, hunks)
    {
      if !IsHeader(p[index]) {
        SkipLine(lines, p, index, cursor, result);
        CountSkip(p, index, hunks);
        index := index + 1;
        continue;
      }
      CountHunk(p, index, hunks);
      hunks := hunks + 1;
      ghost var from, before, written := index, cursor, result;
      var failure;
      result, cursor, index, failure := ApplyHunk(lines, p, index, cursor, result);
      if failure.Some? {
        HunkFails(lines, p, from, before, written);
        return Err(failure.value);
      }
      HunkStep(lines, p, from, before, written, cursor, result);
    }
    if hunks == 0 { return Err(NoHunks); }
    AheadDone(lines, p, cursor, result);
    return Ok(result + Join(lines[cursor..]));
  }

  /** One hunk: the lines before it, then its body. */
  method ApplyHunk(lines: seq<string>, p: seq<string>, from: nat, before: nat, written: string)
    returns (result: string, cursor: nat, index: nat, failure: Option<Failure>)
    requires from < |p| && before <= |lines|
    ensures failure.None? <==> FitsNext(lines, before, HunkAt(p, from))
    ensures failure.None? ==>
              index == BodyEnd(p, from + 1) && HunkWrites(lines, HunkAt(p, from), before, written, cursor, result)
  {
    result, cursor, index := written, before, from + 1;
    HunkFits(lines, p, from, before);
    var start := ReadHeader(p[from], before, |lines|);
    if start.Err? { return result, cursor, index, Some(start.error); }
    result := result + Join(lines[before..start.value - 1]);
    var text, ok;
    text, cursor, index, ok := ApplyBody(lines, p, start.value - 1, from + 1);
    if !ok { return result, cursor, index, Some(Mismatch); }
    HunkWritten(lines, HunkAt(p, from), before, written, start.value, cursor, text);
    result := result + text;
    failure := None;
  }

  /** The inner loop: the body of one hunk, against the lines from `first` on. */
  method ApplyBody(lines: seq<string>, p: seq<string>, first: nat, from: nat)
    returns (text: string, cursor: nat, index: nat, ok: bool)
    requires first <= |lines| && from <= |p|
    ensures ok <==> BlockAt(lines, first, BodyAt(p, from))
    ensures ok ==>
              && index == BodyEnd(p, from) && cursor == first + |Old(BodyAt(p, from))|
              && text == Join(New(BodyAt(p, from)))
  {
    ghost var body, k: nat := BodyAt(p, from), 0;
    text, cursor, index := "", first, from;
    ReadingStart(lines, first, body);
    while index < |p|
      invariant from <= index <= |p| && index == from + k && BodyEnd(p, index) == BodyEnd(p, from)
      invariant Reading(lines, first, body, k, cursor, text)
    {
      var line := p[index];
      if line == "" || (line[0] != ' ' && line[0] != '+' && line[0] != '-') { break; }
      BodyHas(p, from, k);
      ReadingStep(lines, first, body, k, cursor, text);
      if line[0] != '+' {
        if cursor >= |lines| || lines[cursor] != line[1..] { return text, cursor, index, false; }
        cursor := cursor + 1;
      }
      if line[0] != '-' { text := text + line[1..]; }
      index, k := index + 1, k + 1;
    }
    BodyOver(p, from, k);
    ReadingDone(lines, first, body, cursor, text);
    ok := true;
  }
}
