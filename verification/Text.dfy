/** Strings as the path code handles them: trimming, splitting at a separator, joining back. */
module Text {
  /** The characters `str.strip` and the `\s` of a pattern treat as white space. */
  predicate IsSpace(c: char) {
    || c in " \t\n\r" || '\U{0B}' <= c <= '\U{0C}' || '\U{1C}' <= c <= '\U{1F}' || c == '\U{85}' || c == '\U{A0}'
    || c == '\U{1680}' || '\U{2000}' <= c <= '\U{200A}' || '\U{2028}' <= c <= '\U{2029}' || c == '\U{202F}'
    || c == '\U{205F}' || c == '\U{3000}'
  }

  const SPACES: set<char> := set c: char | IsSpace(c)

  predicate IsDigit(c: char) { '0' <= c <= '9' }

  predicate IsAlnum(c: char) { IsDigit(c) || 'a' <= c <= 'z' || 'A' <= c <= 'Z' }

  function TrimLeft(s: string, drop: set<char>): string {
    if s == "" || s[0] !in drop then s else TrimLeft(s[1..], drop)
  }

  function TrimRight(s: string, drop: set<char>): string {
    if s == "" || s[|s| - 1] !in drop then s else TrimRight(s[..|s| - 1], drop)
  }

  /** `s.strip(...)`: `s` without its leading and trailing run of dropped characters. */
  function Trim(s: string, drop: set<char>): string {
    TrimRight(TrimLeft(s, drop), drop)
  }

  predicate Trimmed(s: string, drop: set<char>) {
    s == "" || (s[0] !in drop && s[|s| - 1] !in drop)
  }

  lemma {:induction false} TrimLeftPart(s: string, drop: set<char>)
    ensures var r := TrimLeft(s, drop); |r| <= |s| && r == s[|s| - |r|..] && (r == "" || r[0] !in drop)
  {
    if s != "" && s[0] in drop { TrimLeftPart(s[1..], drop); }
  }

  lemma {:induction false} TrimRightPart(s: string, drop: set<char>)
    ensures var r := TrimRight(s, drop); |r| <= |s| && r == s[..|r|] && (r == "" || r[|r| - 1] !in drop)
  {
    if s != "" && s[|s| - 1] in drop { TrimRightPart(s[..|s| - 1], drop); }
  }

  /** What is left is a stretch of the string that neither starts nor ends with a dropped character. */
  lemma TrimPart(s: string, drop: set<char>) returns (k: nat)
    ensures var r := Trim(s, drop); k + |r| <= |s| && r == s[k..k + |r|] && Trimmed(r, drop)
  {
    TrimLeftPart(s, drop);
    TrimRightPart(TrimLeft(s, drop), drop);
    k := |s| - |TrimLeft(s, drop)|;
  }

  lemma TrimFixed(s: string, drop: set<char>)
    requires Trimmed(s, drop)
    ensures Trim(s, drop) == s
  {
  }

  lemma {:induction false} TrimLeftEmpty(s: string, drop: set<char>)
    ensures TrimLeft(s, drop) == "" <==> forall c | c in s :: c in drop
  {
    if s != "" && s[0] in drop {
      assert s == [s[0]] + s[1..];
      TrimLeftEmpty(s[1..], drop);
    }
  }

  lemma {:induction false} TrimRightEmpty(s: string, drop: set<char>)
    ensures TrimRight(s, drop) == "" <==> forall c | c in s :: c in drop
  {
    if s != "" && s[|s| - 1] in drop {
      assert s == s[..|s| - 1] + [s[|s| - 1]];
      TrimRightEmpty(s[..|s| - 1], drop);
    }
  }

  /** Trimming leaves nothing exactly when every character is dropped. */
  lemma TrimEmpty(s: string, drop: set<char>)
    ensures Trim(s, drop) == "" <==> forall c | c in s :: c in drop
  {
    TrimLeftPart(s, drop);
    TrimLeftEmpty(s, drop);
    TrimRightEmpty(TrimLeft(s, drop), drop);
  }

  // ----- splitting and joining ---------------------------------------------------------------

  function Split(s: string, sep: char): (r: seq<string>)
    ensures |r| >= 1 && forall p | p in r :: sep !in p
  {
    if s == "" then [""]
    else
      var rest := Split(s[1..], sep);
      if s[0] == sep then [""] + rest else [[s[0]] + rest[0]] + rest[1..]
  }

  function Join(parts: seq<string>, sep: char): string {
    if parts == [] then "" else if |parts| == 1 then parts[0] else parts[0] + [sep] + Join(parts[1..], sep)
  }

  lemma {:induction false} SplitJoinedPair(a: string, b: string, sep: char)
    ensures Split(a + [sep] + b, sep) == Split(a, sep) + Split(b, sep)
  {
    var s := a + [sep] + b;
    if a == "" {
      assert s[1..] == b;
    } else {
      assert s[1..] == a[1..] + [sep] + b;
      SplitJoinedPair(a[1..], b, sep);
    }
  }

  lemma {:induction false} SplitWhole(s: string, sep: char)
    requires sep !in s
    ensures Split(s, sep) == [s]
  {
    if s != "" {
      SplitWhole(s[1..], sep);
      assert s == [s[0]] + s[1..];
    }
  }

  /** Separator-free parts come back from the joined text. */
  lemma {:induction false} SplitJoin(parts: seq<string>, sep: char)
    requires parts != [] && forall p | p in parts :: sep !in p
    ensures Split(Join(parts, sep), sep) == parts
  {
    SplitWhole(parts[0], sep);
    if |parts| > 1 {
      SplitJoin(parts[1..], sep);
      SplitJoinedPair(parts[0], Join(parts[1..], sep), sep);
      assert parts == [parts[0]] + parts[1..];
    }
  }

  // ----- an order on strings -----------------------------------------------------------------

  /** Code-point order, as `sorted` compares strings. */
  predicate Leq(a: string, b: string) {
    a == "" || (b != "" && (a[0] < b[0] || (a[0] == b[0] && Leq(a[1..], b[1..]))))
  }

  lemma {:induction false} LeqTotal(a: string, b: string)
    ensures Leq(a, b) || Leq(b, a)
  {
    if a != "" && b != "" && a[0] == b[0] { LeqTotal(a[1..], b[1..]); }
  }

  lemma {:induction false} LeqTransitive(a: string, b: string, c: string)
    requires Leq(a, b) && Leq(b, c)
    ensures Leq(a, c)
  {
    if a != "" && a[0] == b[0] && b[0] == c[0] { LeqTransitive(a[1..], b[1..], c[1..]); }
  }
}
