/** Progress ticks out of HandBrake's chunked, carriage-return separated output. */
module HandBrakeProgress {
  import opened Options

  /** A matched progress line: the rounded percentage and what else the callback is given. */
  datatype Tick = Tick(pct: nat, eta: Option<nat>, pass: string, fps: Option<nat>)

  /** The progress pattern and the parsing of its groups. */
  type Parse = string -> Option<Tick>

  predicate IsBreak(c: char) { c == '\r' || c == '\n' }

  /** The pieces between breaks; the last one is what no break ends. */
  function Lines(s: string): (r: seq<string>)
    ensures |r| >= 1
  {
    if s == "" then [""]
    else
      var rest := Lines(s[1..]);
      if IsBreak(s[0]) then [""] + rest else [[s[0]] + rest[0]] + rest[1..]
  }

  function Concat(chunks: seq<string>): string {
    if chunks == [] then "" else Concat(chunks[..|chunks| - 1]) + chunks[|chunks| - 1]
  }

  /** The ticks of the lines that are progress lines, in order. */
  function Parsed(lines: seq<string>, parse: Parse): seq<Tick> {
    if lines == [] then []
    else
      var line := lines[|lines| - 1];
      Parsed(lines[..|lines| - 1], parse) + if line != "" && parse(line).Some? then [parse(line).value] else []
  }

  /** A tick counts when its percentage differs from the tick just before it. */
  function Changes(ticks: seq<Tick>): seq<Tick> {
    if |ticks| <= 1 then ticks
    else
      var n := |ticks| - 1;
      Changes(ticks[..n]) + if ticks[n].pct != ticks[n - 1].pct then [ticks[n]] else []
  }

  /** What the callback has to be given for a whole output. */
  function Fired(text: string, parse: Parse): seq<Tick> {
    Changes(Parsed(Lines(text), parse))
  }

  function LastPct(ticks: seq<Tick>): int {
    if ticks == [] then -1 else ticks[|ticks| - 1].pct
  }

  // ----- splitting across chunks ---------------------------------------------------------------

  function Front(r: seq<string>): seq<string>
    requires r != []
  {
    r[..|r| - 1]
  }

  function Rest(r: seq<string>): string
    requires r != []
  {
    r[|r| - 1]
  }

  /** A character in front of some lines. */
  function Prepend(c: char, rest: seq<string>): seq<string>
    requires rest != []
  {
    if IsBreak(c) then [""] + rest else [[c] + rest[0]] + rest[1..]
  }

  lemma PrependMore(c: char, rest: seq<string>, more: seq<string>)
    requires rest != [] && more != []
    ensures Front(rest) != [] || IsBreak(c) ==>
      Prepend(c, Front(rest) + more) == Front(Prepend(c, rest)) + more && Rest(Prepend(c, rest)) == Rest(rest)
    ensures Front(rest) == [] && !IsBreak(c) ==> Front(Prepend(c, rest)) == [] && Rest(Prepend(c, rest)) == [c] + Rest(rest)
  {
    if IsBreak(c) {
      PutBefore([""], rest, more);
    } else if Front(rest) != [] {
      PutBefore([[c] + rest[0]], rest[1..], more);
      assert (Front(rest) + more)[0] == rest[0] && (Front(rest) + more)[1..] == Front(rest[1..]) + more;
    }
  }

  lemma PutBefore(head: seq<string>, rest: seq<string>, more: seq<string>)
    requires rest != []
    ensures head + (Front(rest) + more) == Front(head + rest) + more && Rest(head + rest) == Rest(rest)
  {
  }

  lemma LinesCons(c: char, s: string)
    ensures Lines([c] + s) == Prepend(c, Lines(s))
  {
    assert ([c] + s)[1..] == s;
  }

  /** The complete lines of a text stay what they are when more text follows its remainder. */
  lemma {:induction false} LinesOfMore(a: string, b: string)
    ensures Lines(a + b) == Front(Lines(a)) + Lines(Rest(Lines(a)) + b)
  {
    if a == "" {
      assert a + b == b && "" + b == b;
    } else {
      var c, tail := a[0], a[1..];
      var rest := Lines(tail);
      LinesOfMore(tail, b);
      assert a == [c] + tail && a + b == [c] + (tail + b);
      LinesCons(c, tail);
      LinesCons(c, tail + b);
      PrependMore(c, rest, Lines(Rest(rest) + b));
      if Front(rest) == [] && !IsBreak(c) {
        assert [c] + Rest(rest) + b == [c] + (Rest(rest) + b);
        LinesCons(c, Rest(rest) + b);
        assert Front(rest) + Lines(Rest(rest) + b) == Lines(Rest(rest) + b);
      }
    }
  }

  lemma ParsedMore(lines: seq<string>, line: string, parse: Parse)
    ensures Parsed(lines + [line], parse) == Parsed(lines, parse) + if line != "" && parse(line).Some? then [parse(line).value] else []
  {
    assert (lines + [line])[..|lines|] == lines;
  }

  lemma ChangesMore(ticks: seq<Tick>, t: Tick)
    ensures Changes(ticks + [t]) == Changes(ticks) + if t.pct != LastPct(ticks) then [t] else []
    ensures LastPct(ticks + [t]) == t.pct
  {
    assert (ticks + [t])[..|ticks|] == ticks;
  }

  // ----- the loop --------------------------------------------------------------------------------

  /** `_process_progress_line`: the percentage last emitted, and the ticks the callback got. */
  method ProcessLine(line: string, parse: Parse, lastEmitted: int, fired: seq<Tick>, ghost before: seq<string>) returns (emitted: int, out: seq<Tick>)
    requires fired == Changes(Parsed(before, parse)) && lastEmitted == LastPct(Parsed(before, parse))
    ensures out == Changes(Parsed(before + [line], parse)) && emitted == LastPct(Parsed(before + [line], parse))
  {
    ParsedMore(before, line, parse);
    assert Parsed(before, parse) + [] == Parsed(before, parse);
    if line == "" { return lastEmitted, fired; }
    var match_ := parse(line);
    if match_.None? { return lastEmitted, fired; }
    ChangesMore(Parsed(before, parse), match_.value);
    if match_.value.pct == lastEmitted { return lastEmitted, fired; }
    return match_.value.pct, fired + [match_.value];
  }

  method ProcessLines(lines: seq<string>, parse: Parse, lastEmitted: int, fired: seq<Tick>, ghost before: seq<string>) returns (emitted: int, out: seq<Tick>)
    requires fired == Changes(Parsed(before, parse)) && lastEmitted == LastPct(Parsed(before, parse))
    ensures out == Changes(Parsed(before + lines, parse)) && emitted == LastPct(Parsed(before + lines, parse))
  {
    emitted, out := lastEmitted, fired;
    ghost var seen := before;
    for k := 0 to |lines|
      invariant seen == before + lines[..k] && Reported(seen, emitted, out, parse)
    {
      emitted, out := ProcessLine(lines[k], parse, emitted, out, seen);
      OneLineMore(before, lines, k);
      seen := seen + [lines[k]];
    }
    assert lines[..|lines|] == lines;
  }

  /** The callbacks and the last percentage after these lines. */
  ghost predicate Reported(lines: seq<string>, lastEmitted: int, fired: seq<Tick>, parse: Parse) {
    fired == Changes(Parsed(lines, parse)) && lastEmitted == LastPct(Parsed(lines, parse))
  }

  lemma OneLineMore(before: seq<string>, lines: seq<string>, k: nat)
    requires k < |lines|
    ensures before + lines[..k + 1] == (before + lines[..k]) + [lines[k]]
  {
  }

  lemma LinesStep(text: string, chunk: string)
    ensures var parts := Lines(Rest(Lines(text)) + chunk);
      Front(Lines(text + chunk)) == Front(Lines(text)) + Front(parts) && Rest(Lines(text + chunk)) == Rest(parts)
  {
    LinesOfMore(text, chunk);
    PutTogether(Front(Lines(text)), Lines(Rest(Lines(text)) + chunk));
  }

  lemma PutTogether(done: seq<string>, parts: seq<string>)
    requires parts != []
    ensures Front(done + parts) == done + Front(parts) && Rest(done + parts) == Rest(parts)
  {
  }

  /** Where the loop is: the complete lines so far are processed, the rest of the text is pending. */
  ghost predicate At(text: string, pending: string, lastEmitted: int, fired: seq<Tick>, parse: Parse) {
    var done := Front(Lines(text));
    pending == Rest(Lines(text)) && fired == Changes(Parsed(done, parse)) && lastEmitted == LastPct(Parsed(done, parse))
  }

  method TakeChunk(chunk: string, parse: Parse, pending: string, lastEmitted: int, fired: seq<Tick>, ghost text: string)
    returns (pending': string, emitted: int, out: seq<Tick>)
    requires At(text, pending, lastEmitted, fired, parse)
    ensures At(text + chunk, pending', emitted, out, parse)
  {
    LinesStep(text, chunk);
    var parts := Lines(pending + chunk);
    emitted, out := ProcessLines(Front(parts), parse, lastEmitted, fired, Front(Lines(text)));
    pending' := Rest(parts);
  }

  /** `_consume_progress`: whatever the chunks are, the callback gets what the whole text calls for. */
  method ConsumeProgress(chunks: seq<string>, parse: Parse) returns (fired: seq<Tick>)
    ensures fired == Fired(Concat(chunks), parse)
  {
    fired := [];
    var lastEmitted := -1;
    var pending := "";
    for i := 0 to |chunks|
      invariant At(Concat(chunks[..i]), pending, lastEmitted, fired, parse)
    {
      assert chunks[..i + 1][..i] == chunks[..i];
      pending, lastEmitted, fired := TakeChunk(chunks[i], parse, pending, lastEmitted, fired, Concat(chunks[..i]));
    }
    assert chunks[..|chunks|] == chunks;
    ghost var lines := Lines(Concat(chunks));
    assert lines == Front(lines) + [Rest(lines)];
    if pending != "" {
      lastEmitted, fired := ProcessLine(pending, parse, lastEmitted, fired, Front(lines));
    } else {
      ParsedMore(Front(lines), "", parse);
      assert Parsed(Front(lines), parse) + [] == Parsed(Front(lines), parse);
    }
  }

  // ----- what is fired ---------------------------------------------------------------------------

  /** Consecutive callbacks never repeat a percentage, and the last one is the last percentage printed. */
  lemma {:induction false} NoRepeats(ticks: seq<Tick>)
    ensures forall i | 0 < i < |Changes(ticks)| :: Changes(ticks)[i].pct != Changes(ticks)[i - 1].pct
    ensures LastPct(Changes(ticks)) == LastPct(ticks)
    ensures forall t | t in Changes(ticks) :: t in ticks
  {
    if |ticks| > 1 { NoRepeats(ticks[..|ticks| - 1]); }
  }

  /** Going through the ticks, the callback they belong to is the first, then the same or the next, and in the end
      the last; a callback is the first tick of its stretch. */
  predicate Shortens(at: seq<nat>, ticks: seq<Tick>, fired: seq<Tick>) {
    && |at| == |ticks| && (ticks == [] <==> fired == [])
    && (ticks != [] ==> at[0] == 0 && at[|ticks| - 1] == |fired| - 1 && fired[0] == ticks[0])
    && (forall i | 0 < i < |ticks| :: at[i] == if ticks[i].pct == ticks[i - 1].pct then at[i - 1] else at[i - 1] + 1)
    && (forall i | 0 <= i < |ticks| :: at[i] < |fired| && fired[at[i]].pct == ticks[i].pct)
    && (forall i | 0 < i < |ticks| && ticks[i].pct != ticks[i - 1].pct :: fired[at[i]] == ticks[i])
  }

  lemma SameStretch(at: seq<nat>, ticks: seq<Tick>, fired: seq<Tick>, t: Tick)
    requires ticks != [] && Shortens(at, ticks, fired) && t.pct == ticks[|ticks| - 1].pct
    ensures Shortens(at + [at[|ticks| - 1]], ticks + [t], fired)
  {
  }

  lemma NewStretch(at: seq<nat>, ticks: seq<Tick>, fired: seq<Tick>, t: Tick)
    requires ticks != [] && Shortens(at, ticks, fired) && t.pct != ticks[|ticks| - 1].pct
    ensures Shortens(at + [at[|ticks| - 1] + 1], ticks + [t], fired + [t])
  {
    assert forall i | 0 <= i < |ticks| :: (fired + [t])[at[i]] == fired[at[i]];
  }

  lemma OneTickMore(at: seq<nat>, ticks: seq<Tick>, fired: seq<Tick>, t: Tick) returns (more: seq<nat>)
    requires ticks != [] && Shortens(at, ticks, fired)
    ensures Shortens(more, ticks + [t], fired + if t.pct != ticks[|ticks| - 1].pct then [t] else [])
  {
    if t.pct == ticks[|ticks| - 1].pct {
      more := at + [at[|ticks| - 1]];
      SameStretch(at, ticks, fired, t);
      assert fired + [] == fired;
    } else {
      more := at + [at[|ticks| - 1] + 1];
      NewStretch(at, ticks, fired, t);
    }
  }

  /** The callbacks are the ticks with every stretch of one percentage shortened to its first tick. */
  lemma {:induction false} StretchesShortened(ticks: seq<Tick>) returns (at: seq<nat>)
    ensures Shortens(at, ticks, Changes(ticks))
  {
    if |ticks| <= 1 {
      at := if ticks == [] then [] else [0];
      assert Shortens(at, ticks, ticks);
    } else {
      var n := |ticks| - 1;
      at := StretchesShortened(ticks[..n]);
      at := OneTickMore(at, ticks[..n], Changes(ticks[..n]), ticks[n]);
      assert ticks == ticks[..n] + [ticks[n]];
    }
  }

  /** The text without its breaks. */
  function Unbroken(s: string): string {
    if s == "" then "" else (if IsBreak(s[0]) then "" else [s[0]]) + Unbroken(s[1..])
  }

  function Breaks(s: string): nat {
    if s == "" then 0 else (if IsBreak(s[0]) then 1 else 0) + Breaks(s[1..])
  }

  function Flat(lines: seq<string>): string {
    if lines == [] then "" else lines[0] + Flat(lines[1..])
  }

  /** The lines of a text are its characters in order, cut at every break and nowhere else. */
  lemma {:induction false} LinesExactly(s: string)
    ensures Flat(Lines(s)) == Unbroken(s) && |Lines(s)| == Breaks(s) + 1
    ensures forall line, c | line in Lines(s) && c in line :: !IsBreak(c)
  {
    if s == "" {
      assert Flat([""]) == "" + Flat([]);
    } else {
      var rest := Lines(s[1..]);
      LinesExactly(s[1..]);
      assert rest == [rest[0]] + rest[1..];
      if IsBreak(s[0]) {
        assert ([""] + rest)[1..] == rest;
      } else {
        assert ([[s[0]] + rest[0]] + rest[1..])[1..] == rest[1..];
        assert [s[0]] + rest[0] + Flat(rest[1..]) == [s[0]] + (rest[0] + Flat(rest[1..]));
      }
    }
  }
}
