/** `sanitize_path_component`: making one metadata value safe as one path segment. */
module PathSanitize {
  import opened Text

  const ILLEGAL: set<char> := {'/', '\\', '\0', '<', '>', ':', '\"', '|', '?', '*'}
  const EDGES: set<char> := {' ', '-', '.'}

  function Replace(s: string): string {
    if s == "" then "" else (if s[0] in ILLEGAL then " - " else [s[0]]) + Replace(s[1..])
  }

  /** Every run of white space becomes one space. */
  function Collapse(s: string): string
    decreases |s|
  {
    if s == "" then ""
    else if IsSpace(s[0]) then
      TrimLeftPart(s, SPACES);
      var rest := TrimLeft(s, SPACES);
      assert |rest| < |s| by { assert s[0] in SPACES; TrimLeftPart(s[1..], SPACES); }
      " " + Collapse(rest)
    else [s[0]] + Collapse(s[1..])
  }

  function Sanitize(value: string): string {
    if value == "" then value else Trim(Collapse(Replace(value)), EDGES)
  }

  // ----- what the result looks like ----------------------------------------------------------

  predicate NoIllegal(s: string) {
    forall c | c in s :: c !in ILLEGAL
  }

  /** The only white space is single spaces. */
  predicate SingleSpaced(s: string) {
    && (forall c | c in s && IsSpace(c) :: c == ' ')
    && (forall i | 0 < i < |s| && s[i] == ' ' :: s[i - 1] != ' ')
  }

  predicate Safe(s: string) {
    NoIllegal(s) && SingleSpaced(s) && Trimmed(s, EDGES)
  }

  lemma {:induction false} ReplaceLegal(s: string)
    ensures NoIllegal(Replace(s))
    ensures NoIllegal(s) ==> Replace(s) == s
  {
    if s != "" {
      ReplaceLegal(s[1..]);
      assert s == [s[0]] + s[1..];
      assert forall c | c in " - " :: c !in ILLEGAL;
    }
  }

  lemma {:induction false} CollapseSpaced(s: string)
    ensures SingleSpaced(Collapse(s))
    ensures forall c | c in Collapse(s) :: c in s || c == ' '
    ensures Collapse(s) != "" && Collapse(s)[0] == ' ' ==> IsSpace(s[0])
    decreases |s|
  {
    if s != "" {
      if IsSpace(s[0]) {
        TrimLeftPart(s, SPACES);
        TrimLeftPart(s[1..], SPACES);
        assert s[0] in SPACES;
        var rest := TrimLeft(s, SPACES);
        CollapseSpaced(rest);
        assert Collapse(rest) != "" ==> !IsSpace(rest[0]);
      } else {
        CollapseSpaced(s[1..]);
        assert s == [s[0]] + s[1..];
      }
    }
  }

  lemma {:induction false} CollapseFixed(s: string)
    requires SingleSpaced(s)
    ensures Collapse(s) == s
    decreases |s|
  {
    if s != "" {
      assert s == [s[0]] + s[1..];
      assert SingleSpaced(s[1..]) by { assert forall c | c in s[1..] :: c in s; }
      CollapseFixed(s[1..]);
      if IsSpace(s[0]) {
        assert s[0] in s && s[0] == ' ';
        if |s| > 1 { assert s[1] in s && s[1] != ' '; assert !IsSpace(s[1]); }
        assert TrimLeft(s[1..], SPACES) == s[1..];
      }
    }
  }

  /** A sanitised value is one safe path component: no separator or forbidden character, single spaces
      only, no dash, dot or space at either end. */
  lemma SanitizeSafe(value: string)
    ensures Safe(Sanitize(value))
  {
    if value != "" {
      var text := Collapse(Replace(value));
      ReplaceLegal(value);
      CollapseSpaced(Replace(value));
      var k := TrimPart(text, EDGES);
      var r := Sanitize(value);
      assert forall i | 0 <= i < |r| :: r[i] == text[k + i];
      assert forall c | c in r :: c in text;
    }
  }

  /** Exactly the safe values are kept as they are; so sanitising twice changes nothing. */
  lemma SafeIsFixed(value: string)
    ensures Safe(value) <==> Sanitize(value) == value
    ensures Sanitize(Sanitize(value)) == Sanitize(value)
  {
    SanitizeSafe(value);
    Fixed(Sanitize(value));
    if Safe(value) { Fixed(value); }
  }

  lemma Fixed(value: string)
    requires Safe(value)
    ensures Sanitize(value) == value
  {
    ReplaceLegal(value);
    CollapseFixed(value);
    TrimFixed(value, EDGES);
  }

  // ----- what is kept ------------------------------------------------------------------------

  predicate Ordinary(c: char) {
    c !in ILLEGAL && !IsSpace(c) && c !in EDGES
  }

  /** The ordinary characters of a text, in order. */
  function Letters(s: string): string {
    if s == "" then "" else (if Ordinary(s[0]) then [s[0]] else "") + Letters(s[1..])
  }

  lemma {:induction false} LettersAppend(a: string, b: string)
    ensures Letters(a + b) == Letters(a) + Letters(b)
  {
    if a == "" {
      assert a + b == b;
    } else {
      assert (a + b)[1..] == a[1..] + b;
      LettersAppend(a[1..], b);
    }
  }

  lemma {:induction false} LettersReplace(s: string)
    ensures Letters(Replace(s)) == Letters(s)
  {
    if s != "" {
      LettersReplace(s[1..]);
      var head := if s[0] in ILLEGAL then " - " else [s[0]];
      LettersAppend(head, Replace(s[1..]));
      assert " - "[1..] == "- " && "- "[1..] == " " && " "[1..] == "";
      assert Letters("") == "" && Letters(" ") == "" && Letters("- ") == "" && Letters(" - ") == "";
      assert [s[0]][1..] == "";
    }
  }

  lemma {:induction false} LettersTrimLeft(s: string, drop: set<char>)
    requires forall c | c in drop :: !Ordinary(c)
    ensures Letters(TrimLeft(s, drop)) == Letters(s)
  {
    if s != "" && s[0] in drop { LettersTrimLeft(s[1..], drop); }
  }

  lemma {:induction false} LettersTrimRight(s: string, drop: set<char>)
    requires forall c | c in drop :: !Ordinary(c)
    ensures Letters(TrimRight(s, drop)) == Letters(s)
  {
    if s != "" && s[|s| - 1] in drop {
      LettersTrimRight(s[..|s| - 1], drop);
      LettersAppend(s[..|s| - 1], [s[|s| - 1]]);
      assert s == s[..|s| - 1] + [s[|s| - 1]];
      assert [s[|s| - 1]][1..] == "";
    }
  }

  lemma {:induction false} LettersCollapse(s: string)
    ensures Letters(Collapse(s)) == Letters(s)
    decreases |s|
  {
    if s != "" {
      if IsSpace(s[0]) {
        TrimLeftPart(s[1..], SPACES);
        assert s[0] in SPACES;
        LettersTrimLeft(s, SPACES);
        LettersCollapse(TrimLeft(s, SPACES));
      } else {
        LettersCollapse(s[1..]);
      }
    }
  }

  /** No ordinary character is lost, added or moved; the result is empty exactly when there was none. */
  lemma SanitizeKeepsLetters(value: string)
    ensures Letters(Sanitize(value)) == Letters(value)
    ensures Sanitize(value) == "" <==> Letters(value) == ""
  {
    if value != "" {
      var text := Collapse(Replace(value));
      LettersReplace(value);
      LettersCollapse(Replace(value));
      LettersTrimLeft(text, EDGES);
      LettersTrimRight(TrimLeft(text, EDGES), EDGES);
      SanitizeSafe(value);
      SafeHasLetter(Sanitize(value));
    }
  }

  lemma SafeHasLetter(s: string)
    requires Safe(s)
    ensures s != "" ==> Ordinary(s[0]) && Letters(s) != ""
  {
    if s != "" { assert s[0] in s; }
  }
}
