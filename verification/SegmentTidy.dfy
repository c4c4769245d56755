/** What tidying a segment leaves: the text without the `E` of an empty episode number, but for white space,
    dashes and underscores. */
module SegmentTidy {
  import opened Text
  import opened PathSanitize
  import opened TrackPaths

  /** A character tidying never drops, unless it is a dangling `E`. */
  predicate IsSolid(c: char) { !DashOrSpace(c) && c != '_' }

  function IfSolid(c: char): string { if IsSolid(c) then [c] else "" }

  function Solid(s: string): string {
    if s == "" then "" else IfSolid(s[0]) + Solid(s[1..])
  }

  // ----- the dangling E --------------------------------------------------------------------------

  predicate AllDigits(s: string, from: nat, to: nat)
    requires from <= to <= |s|
  {
    forall k | from <= k < to :: IsDigit(s[k])
  }

  /** At `i` the `E` of an `S01E` that no letter or digit follows; its `S` at `b` starts a word. */
  predicate DanglesFrom(s: string, b: nat, i: nat) {
    && b + 1 < i < |s| && s[b] == 'S' && s[i] == 'E' && AllDigits(s, b + 1, i)
    && (b == 0 || !IsWord(s[b - 1])) && (i + 1 == |s| || !IsAlnum(s[i + 1]))
  }

  predicate Dangles(s: string, i: nat) {
    exists b: nat | b < |s| :: DanglesFrom(s, b, i)
  }

  /** The text from `k` on without the dangling ones. */
  function Without(s: string, k: nat): string
    requires k <= |s|
    decreases |s| - k
  {
    if k == |s| then "" else (if Dangles(s, k) then "" else [s[k]]) + Without(s, k + 1)
  }

  predicate AfterWord(s: string, k: nat)
    requires k <= |s|
  {
    k > 0 && IsWord(s[k - 1])
  }

  /** No mark reaches from before `k` to `k` or beyond. */
  predicate CutsNone(s: string, k: nat) {
    forall b: nat, i: nat | b < k <= i < |s| :: !DanglesFrom(s, b, i)
  }

  lemma {:induction false} DigitRunOf(s: string)
    ensures AllDigits(s, 0, DigitRun(s)) && (DigitRun(s) < |s| ==> !IsDigit(s[DigitRun(s)]))
  {
    if s != "" && IsDigit(s[0]) {
      DigitRunOf(s[1..]);
      assert forall k | 0 < k < DigitRun(s) :: s[k] == s[1..][k - 1];
    }
  }

  /** The mark the pattern finds at `k` is the one that ends in a dangling `E`. */
  lemma MarkDangles(s: string, k: nat, i: nat)
    requires k < |s| && !AfterWord(s, k)
    ensures DanglesFrom(s, k, i) <==> SeasonMark(s[k..]) > 0 && i == k + SeasonMark(s[k..])
  {
    var t := s[k..];
    DigitRunOf(t[1..]);
    var n := DigitRun(t[1..]);
    assert forall j | 0 <= j < |t| - 1 :: t[1..][j] == s[k + 1 + j];
    if DanglesFrom(s, k, i) {
      assert s[i] == t[1..][i - k - 1];
      assert n == i - k - 1;
    }
  }

  /** A cut after a mark cuts no other, and the mark holds no dangling `E` but its own. */
  lemma AfterMark(s: string, k: nat, n: nat)
    requires CutsNone(s, k) && n > 0 && k + n < |s| && DanglesFrom(s, k, k + n)
    ensures CutsNone(s, k + n + 1) && AfterWord(s, k + n + 1)
    ensures forall j | k <= j < k + n :: !Dangles(s, j)
  {
    forall b: nat, i: nat | b < k + n + 1 <= i < |s| ensures !DanglesFrom(s, b, i) {
      assert b > k && b < k + n ==> IsDigit(s[b]);
      assert s[k + n] == 'E';
    }
    forall j | k <= j < k + n ensures !Dangles(s, j) {
      if j > k { assert IsDigit(s[j]); }
    }
  }

  lemma WithoutKeeps(s: string, k: nat)
    requires k < |s| && !Dangles(s, k)
    ensures Without(s, k) == [s[k]] + Without(s, k + 1)
  {
  }

  lemma {:induction false} WithoutStretch(s: string, k: nat, m: nat)
    requires k <= m <= |s| && forall j | k <= j < m :: !Dangles(s, j)
    ensures Without(s, k) == s[k..m] + Without(s, m)
    decreases m - k
  {
    if k < m {
      WithoutKeeps(s, k);
      WithoutStretch(s, k + 1, m);
      Pushed(s[k], s[k + 1..m], Without(s, m));
      assert s[k..m] == [s[k]] + s[k + 1..m];
    }
  }

  lemma Pushed(c: char, a: string, b: string)
    ensures [c] + (a + b) == ([c] + a) + b
  {
  }

  lemma WithoutDrops(s: string, k: nat)
    requires k < |s| && Dangles(s, k)
    ensures Without(s, k) == Without(s, k + 1)
  {
  }

  /** Exactly the dangling ones go. */
  lemma {:induction false} DropsDangling(s: string, k: nat)
    requires k <= |s| && CutsNone(s, k)
    ensures DropDanglingE(s[k..], AfterWord(s, k)) == Without(s, k)
    decreases |s| - k
  {
    if k < |s| {
      if MarkAt(s, k) {
        var n := SeasonMark(s[k..]);
        DanglesAfterMark(s, k, n);
        DropsDangling(s, k + n + 1);
        MarkStep(s, k, n);
      } else {
        NoMarkAt(s, k);
        DropsDangling(s, k + 1);
        PlainStep(s, k);
      }
    }
  }

  predicate MarkAt(s: string, k: nat)
    requires k < |s|
  {
    !AfterWord(s, k) && SeasonMark(s[k..]) > 0
  }

  lemma DanglesAfterMark(s: string, k: nat, n: nat)
    requires k < |s| && MarkAt(s, k) && n == SeasonMark(s[k..]) && CutsNone(s, k)
    ensures k + n + 1 <= |s| && CutsNone(s, k + n + 1) && AfterWord(s, k + n + 1)
    ensures Without(s, k) == s[k..k + n] + Without(s, k + n + 1)
  {
    MarkDangles(s, k, k + n);
    WithoutMark(s, k, n);
  }

  lemma WithoutMark(s: string, k: nat, n: nat)
    requires CutsNone(s, k) && n > 0 && k + n < |s| && DanglesFrom(s, k, k + n)
    ensures CutsNone(s, k + n + 1) && AfterWord(s, k + n + 1)
    ensures Without(s, k) == s[k..k + n] + Without(s, k + n + 1)
  {
    AfterMark(s, k, n);
    WithoutStretch(s, k, k + n);
    assert Dangles(s, k + n);
    WithoutDrops(s, k + n);
  }

  lemma PlainStep(s: string, k: nat)
    requires k < |s| && !MarkAt(s, k) && !Dangles(s, k)
    ensures DropDanglingE(s[k..], AfterWord(s, k)) == [s[k]] + DropDanglingE(s[k + 1..], AfterWord(s, k + 1))
    ensures Without(s, k) == [s[k]] + Without(s, k + 1)
  {
    assert s[k..][1..] == s[k + 1..];
  }

  lemma MarkStep(s: string, k: nat, n: nat)
    requires k < |s| && n == SeasonMark(s[k..]) > 0
    ensures k + n + 1 <= |s| && DropDanglingE(s[k..], false) == s[k..k + n] + DropDanglingE(s[k + n + 1..], true)
  {
    assert s[k..][..n] == s[k..k + n] && s[k..][n + 1..] == s[k + n + 1..];
  }

  lemma NoMarkAt(s: string, k: nat)
    requires k < |s| && CutsNone(s, k) && !MarkAt(s, k)
    ensures CutsNone(s, k + 1) && !Dangles(s, k)
  {
    forall i: nat | k < i < |s| ensures !DanglesFrom(s, k, i) {
      if !AfterWord(s, k) { MarkDangles(s, k, i); }
    }
  }

  // ----- the rest keeps every solid character ------------------------------------------------------

  lemma {:induction false} SolidAppend(a: string, b: string)
    ensures Solid(a + b) == Solid(a) + Solid(b)
  {
    if a == "" {
      assert a + b == b;
    } else {
      assert (a + b)[1..] == a[1..] + b && (a + b)[0] == a[0];
      SolidAppend(a[1..], b);
      assert Solid(a + b) == IfSolid(a[0]) + (Solid(a[1..]) + Solid(b));
    }
  }

  lemma {:induction false} SolidNone(s: string)
    requires forall c | c in s :: !IsSolid(c)
    ensures Solid(s) == ""
  {
    if s != "" {
      assert s[0] in s;
      SolidNone(s[1..]);
    }
  }

  lemma {:induction false} SolidTrimLeft(s: string, drop: set<char>)
    requires forall c | c in drop :: !IsSolid(c)
    ensures Solid(TrimLeft(s, drop)) == Solid(s)
  {
    if s != "" && s[0] in drop { SolidTrimLeft(s[1..], drop); }
  }

  lemma {:induction false} SolidTrimRight(s: string, drop: set<char>)
    requires forall c | c in drop :: !IsSolid(c)
    ensures Solid(TrimRight(s, drop)) == Solid(s)
  {
    if s != "" && s[|s| - 1] in drop {
      SolidTrimRight(s[..|s| - 1], drop);
      SolidAppend(s[..|s| - 1], [s[|s| - 1]]);
      assert s == s[..|s| - 1] + [s[|s| - 1]];
      SolidNone([s[|s| - 1]]);
    }
  }

  lemma {:induction false} SolidCollapse(s: string)
    ensures Solid(Collapse(s)) == Solid(s)
    decreases |s|
  {
    if s != "" {
      if IsSpace(s[0]) {
        TrimLeftPart(s[1..], SPACES);
        assert s[0] in SPACES;
        SolidTrimLeft(s, SPACES);
        SolidCollapse(TrimLeft(s, SPACES));
        SolidAppend(" ", Collapse(TrimLeft(s, SPACES)));
        SolidNone(" ");
      } else {
        SolidCollapse(s[1..]);
        SolidAppend([s[0]], Collapse(s[1..]));
        SolidAppend([s[0]], s[1..]);
        assert s == [s[0]] + s[1..];
      }
    }
  }

  lemma {:induction false} DashRunOf(s: string)
    ensures forall c | c in s[..DashRun(s)] :: DashOrSpace(c)
  {
    if s != "" && DashOrSpace(s[0]) {
      DashRunOf(s[1..]);
      assert s[..DashRun(s)] == [s[0]] + s[1..][..DashRun(s[1..])];
    }
  }

  lemma {:induction false} SolidMergeDashes(s: string)
    ensures Solid(MergeDashes(s)) == Solid(s)
    decreases |s|
  {
    if s != "" {
      var n := DashRun(s);
      if n == 0 {
        SolidMergeDashes(s[1..]);
        SolidAppend([s[0]], MergeDashes(s[1..]));
        SolidAppend([s[0]], s[1..]);
        assert s == [s[0]] + s[1..];
      } else {
        SolidMergeDashes(s[n..]);
        DashRunOf(s);
        var run := if Dashes(s[..n]) >= 2 then " - " else s[..n];
        SolidNone(run);
        SolidNone(s[..n]);
        SolidAppend(run, MergeDashes(s[n..]));
        SolidAppend(s[..n], s[n..]);
        assert s == s[..n] + s[n..];
      }
    }
  }

  lemma SolidOneDash(stem: string)
    requires stem != "" && stem[|stem| - 1] == '-'
    ensures Solid(TrimRight(stem[..|stem| - 1], SPACES)) == Solid(stem)
  {
    var head := stem[..|stem| - 1];
    assert stem == head + ['-'];
    SolidAppend(head, ['-']);
    SolidNone(['-']);
    SolidTrimRight(head, SPACES);
  }

  lemma SolidParts(s: string, stem: string, ext: string)
    requires s == Stem(s) + ext && Solid(stem) == Solid(Stem(s))
    ensures Solid(stem + ext) == Solid(s)
  {
    SolidAppend(Stem(s), ext);
    SolidAppend(stem, ext);
  }

  lemma SolidDropDash(s: string)
    ensures Solid(DropDashBeforeExtension(s)) == Solid(s)
  {
    var ext, stem := Extension(s), TrimRight(Stem(s), SPACES);
    assert s == Stem(s) + ext;
    SolidTrimRight(Stem(s), SPACES);
    if ext != "" && stem != "" && stem[|stem| - 1] == '-' {
      SolidOneDash(stem);
      SolidParts(s, TrimRight(stem[..|stem| - 1], SPACES), ext);
    }
  }

  /** Tidying a segment drops exactly the dangling `E`s; every other character but white space, dashes and
      underscores stays, in order; no path level is added and no separator left at either end. */
  lemma TidyKeepsSolid(s: string)
    ensures Solid(Tidy(s)) == Solid(Without(s, 0))
    ensures Trimmed(Tidy(s), {' ', '-', '_'}) && ('/' !in s ==> '/' !in Tidy(s))
  {
    assert s[0..] == s;
    DropsDangling(s, 0);
    var text := DropDanglingE(s, false);
    SolidCollapse(text);
    SolidMergeDashes(Collapse(text));
    var merged := MergeDashes(Collapse(text));
    SolidDropDash(merged);
    var whole := DropDashBeforeExtension(merged);
    SolidTrimLeft(whole, {' ', '-', '_'});
    SolidTrimRight(TrimLeft(whole, {' ', '-', '_'}), {' ', '-', '_'});
    var k := TrimPart(whole, {' ', '-', '_'});
    if '/' !in s { TidyHasNoSlash(s); }
  }

  // ----- the dashes and spaces that stay -----------------------------------------------------------

  /** Between two dashes there is something else than dashes and white space. */
  predicate Calm(s: string) {
    forall i, j | 0 <= i < j < |s| && s[i] == '-' && s[j] == '-' :: Broken(s, i, j)
  }

  predicate Broken(s: string, i: nat, j: nat)
    requires i < j < |s|
  {
    exists k | i < k < j :: !DashOrSpace(s[k])
  }

  lemma CalmPart(s: string, k: nat, n: nat)
    requires k <= n <= |s| && Calm(s)
    ensures Calm(s[k..n])
  {
    var p := s[k..n];
    forall i, j | 0 <= i < j < |p| && p[i] == '-' && p[j] == '-' ensures Broken(p, i, j) {
      assert Broken(s, k + i, k + j);
      var m :| k + i < m < k + j && !DashOrSpace(s[m]);
      assert p[m - k] == s[m];
    }
  }

  /** Two calm texts, with a character at the start of the second that is neither, are calm together. */
  lemma CalmPair(a: string, b: string)
    requires Calm(a) && Calm(b) && (b == "" || !DashOrSpace(b[0]))
    ensures Calm(a + b)
  {
    var s := a + b;
    forall i, j | 0 <= i < j < |s| && s[i] == '-' && s[j] == '-' ensures Broken(s, i, j) {
      if j < |a| {
        assert Broken(a, i, j);
        var m :| i < m < j && !DashOrSpace(a[m]);
        assert s[m] == a[m];
      } else if i < |a| {
        assert s[|a|] == b[0];
      } else {
        assert Broken(b, i - |a|, j - |a|);
        var m :| i - |a| < m < j - |a| && !DashOrSpace(b[m]);
        assert s[|a| + m] == b[m];
      }
    }
  }

  lemma {:induction false} FewDashes(s: string)
    ensures Dashes(s) == 0 <==> '-' !in s
    ensures Dashes(s) <= 1 <==> forall i, j | 0 <= i < j < |s| :: !(s[i] == '-' && s[j] == '-')
  {
    if s != "" {
      var rest := s[1..];
      FewDashes(rest);
      assert s == [s[0]] + rest;
      assert forall i | 0 < i < |s| :: s[i] == rest[i - 1];
      if s[0] == '-' && '-' in rest {
        var j :| 0 <= j < |rest| && rest[j] == '-';
        assert s[j + 1] == '-';
      }
      forall i, j | 0 <= i < j < |rest| && rest[i] == '-' && rest[j] == '-' ensures s[i + 1] == '-' && s[j + 1] == '-' {
      }
    }
  }

  lemma {:induction false} AfterDashRun(s: string)
    ensures var n := DashRun(s); n == |s| || !DashOrSpace(s[n])
  {
    if s != "" && DashOrSpace(s[0]) { AfterDashRun(s[1..]); }
  }

  /** After merging no run of dashes and spaces has two dashes. */
  lemma {:induction false} MergedIsCalm(s: string)
    ensures Calm(MergeDashes(s))
    ensures s != "" && DashRun(s) == 0 ==> MergeDashes(s) != "" && MergeDashes(s)[0] == s[0]
    ensures s == "" ==> MergeDashes(s) == ""
    decreases |s|
  {
    if s != "" {
      var n := DashRun(s);
      if n == 0 {
        MergedIsCalm(s[1..]);
        assert !DashOrSpace(s[0]);
        var rest := MergeDashes(s[1..]);
        forall i, j | 0 <= i < j < |[s[0]] + rest| && ([s[0]] + rest)[i] == '-' && ([s[0]] + rest)[j] == '-' ensures Broken([s[0]] + rest, i, j) {
          assert Broken(rest, i - 1, j - 1);
          var m :| i - 1 < m < j - 1 && !DashOrSpace(rest[m]);
          assert ([s[0]] + rest)[m + 1] == rest[m];
        }
      } else {
        MergedIsCalm(s[n..]);
        AfterDashRun(s);
        StartsPlain(s[n..]);
        var run := if Dashes(s[..n]) >= 2 then " - " else s[..n];
        FewDashes(s[..n]);
        CalmPair(run, MergeDashes(s[n..]));
      }
    }
  }

  lemma StartsPlain(s: string)
    ensures s == "" || !DashOrSpace(s[0]) ==> DashRun(s) == 0
  {
  }

  /** The run of dashes and spaces a calm text starts with has at most one dash. */
  lemma CalmRun(s: string, n: nat)
    requires Calm(s) && n <= |s| && forall c | c in s[..n] :: DashOrSpace(c)
    ensures Dashes(s[..n]) <= 1
  {
    FewDashes(s[..n]);
    assert forall k | 0 <= k < n :: s[..n][k] in s[..n] && DashOrSpace(s[k]);
    assert forall i, j | 0 <= i < j < n :: !Broken(s, i, j);
    assert forall i, j | 0 <= i < j < n :: s[..n][i] == s[i] && s[..n][j] == s[j];
  }

  lemma CalmStep(s: string) returns (n: nat)
    requires Calm(s) && s != ""
    ensures 0 < n <= |s| && MergeDashes(s) == s[..n] + MergeDashes(s[n..]) && Calm(s[n..])
  {
    n := if DashRun(s) == 0 then 1 else DashRun(s);
    if DashRun(s) > 0 {
      DashRunOf(s);
      CalmRun(s, n);
    }
    RestIsCalm(s, n);
    if DashRun(s) == 0 { MergePlain(s); } else { MergeRun(s, n); }
  }

  lemma RestIsCalm(s: string, n: nat)
    requires Calm(s) && n <= |s|
    ensures Calm(s[n..])
  {
    CalmPart(s, n, |s|);
    assert s[n..|s|] == s[n..];
  }

  lemma MergePlain(s: string)
    requires s != "" && DashRun(s) == 0
    ensures MergeDashes(s) == s[..1] + MergeDashes(s[1..])
  {
    assert s[..1] == [s[0]];
  }

  lemma MergeRun(s: string, n: nat)
    requires s != "" && 0 < n == DashRun(s) && Dashes(s[..n]) <= 1
    ensures MergeDashes(s) == s[..n] + MergeDashes(s[n..])
  {
  }

  /** A calm text is left alone. */
  lemma {:induction false} CalmStays(s: string)
    requires Calm(s)
    ensures MergeDashes(s) == s
    decreases |s|
  {
    if s != "" {
      var n := CalmStep(s);
      CalmStays(s[n..]);
      assert s == s[..n] + s[n..];
    }
  }

  /** Merging keeps white space to single spaces. */
  lemma {:induction false} MergedIsSpaced(s: string)
    requires SingleSpaced(s)
    ensures SingleSpaced(MergeDashes(s))
    ensures s != "" && DashRun(s) == 0 ==> MergeDashes(s) != "" && MergeDashes(s)[0] == s[0]
    decreases |s|
  {
    if s != "" {
      var n := DashRun(s);
      if n == 0 {
        SpacedPart(s, 1, |s|);
        MergedIsSpaced(s[1..]);
        SpacedPair([s[0]], MergeDashes(s[1..]));
      } else {
        SpacedPart(s, n, |s|);
        SpacedPart(s, 0, n);
        MergedIsSpaced(s[n..]);
        AfterDashRun(s);
        StartsPlain(s[n..]);
        var run := if Dashes(s[..n]) >= 2 then " - " else s[..n];
        SpacedPair(run, MergeDashes(s[n..]));
      }
    }
  }

  lemma SpacedPart(s: string, k: nat, n: nat)
    requires k <= n <= |s| && SingleSpaced(s)
    ensures SingleSpaced(s[k..n])
  {
    var p := s[k..n];
    assert forall i | 0 <= i < |p| :: p[i] == s[k + i];
  }

  lemma SpacedPair(a: string, b: string)
    requires SingleSpaced(a) && SingleSpaced(b) && a != "" && (b == "" || b[0] != ' ' || a[|a| - 1] != ' ')
    ensures SingleSpaced(a + b)
  {
    var s := a + b;
    assert forall i | 0 <= i < |s| :: s[i] == if i < |a| then a[i] else b[i - |a|];
  }

  /** Without the dash before the extension: a beginning of the text and its extension. */
  lemma DropDashParts(s: string) returns (n: nat)
    ensures n <= |s| && DropDashBeforeExtension(s) == s[..n] + Extension(s)
  {
    ExtensionShape(s);
    n := |s| - |Extension(s)|;
    var stem := TrimRight(Stem(s), SPACES);
    if Extension(s) != "" && stem != "" && stem[|stem| - 1] == '-' { n := StemParts(s, stem); }
  }

  lemma StemParts(s: string, stem: string) returns (n: nat)
    requires stem == TrimRight(Stem(s), SPACES) && stem != ""
    ensures n <= |s| && TrimRight(stem[..|stem| - 1], SPACES) == s[..n]
  {
    TrimRightPart(Stem(s), SPACES);
    TrimRightPart(stem[..|stem| - 1], SPACES);
    n := |TrimRight(stem[..|stem| - 1], SPACES)|;
    assert s[..n] == stem[..n];
  }

  lemma PlainExtension(s: string)
    ensures var ext := Extension(s); Calm(ext) && SingleSpaced(ext) && (ext == "" || (!DashOrSpace(ext[0]) && ext[0] != ' '))
  {
    ExtensionShape(s);
  }

  lemma DropDashKeepsCalm(s: string)
    requires Calm(s) && SingleSpaced(s)
    ensures Calm(DropDashBeforeExtension(s)) && SingleSpaced(DropDashBeforeExtension(s))
  {
    var n := DropDashParts(s);
    PlainExtension(s);
    PartAndPlain(s, n, Extension(s));
  }

  lemma PartAndPlain(s: string, n: nat, ext: string)
    requires n <= |s| && Calm(s) && SingleSpaced(s) && Calm(ext) && SingleSpaced(ext)
    requires ext == "" || (!DashOrSpace(ext[0]) && ext[0] != ' ')
    ensures Calm(s[..n] + ext) && SingleSpaced(s[..n] + ext)
  {
    CalmPart(s, 0, n);
    SpacedPart(s, 0, n);
    assert s[0..n] == s[..n];
    CalmPair(s[..n], ext);
    if n == 0 { assert s[..n] + ext == ext; } else { SpacedPair(s[..n], ext); }
  }

  lemma TrimmedPart(s: string, drop: set<char>)
    requires Calm(s) && SingleSpaced(s)
    ensures Calm(Trim(s, drop)) && SingleSpaced(Trim(s, drop))
  {
    var k := TrimPart(s, drop);
    CalmPart(s, k, k + |Trim(s, drop)|);
    SpacedPart(s, k, k + |Trim(s, drop)|);
  }

  /** A tidied segment has single spaces only, and no two dashes with nothing but dashes and spaces between. */
  lemma TidyIsCalm(s: string)
    ensures Calm(Tidy(s)) && SingleSpaced(Tidy(s))
  {
    var text := Collapse(DropDanglingE(s, false));
    CollapseSpaced(DropDanglingE(s, false));
    MergedIsCalm(text);
    MergedIsSpaced(text);
    DropDashKeepsCalm(MergeDashes(text));
    TrimmedPart(DropDashBeforeExtension(MergeDashes(text)), {' ', '-', '_'});
  }

  /** And a segment that is so already stays as it is, when it has no dangling `E`, no separator at either end and
      no dash before its extension. */
  lemma TidyStays(s: string)
    requires Calm(s) && SingleSpaced(s) && Trimmed(s, {' ', '-', '_'}) && (forall i | 0 <= i < |s| :: !Dangles(s, i))
    requires var stem := TrimRight(Stem(s), SPACES); Extension(s) == "" || stem == "" || stem[|stem| - 1] != '-'
    ensures Tidy(s) == s
  {
    assert s[0..] == s;
    DropsDangling(s, 0);
    WithoutStretch(s, 0, |s|);
    assert s[0..|s|] + Without(s, |s|) == s;
    CollapseFixed(s);
    CalmStays(s);
    TrimFixed(s, {' ', '-', '_'});
  }
}
