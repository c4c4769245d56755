/** The operator's own file name for a track: it replaces the last component of the rendered path and keeps the
    folders and the extension. Paths are taken apart the way `PurePosixPath` does. */
module CustomNames {
  import opened Text
  import opened PathSanitize

  // ----- a pure path ---------------------------------------------------------------------------

  function Root(path: string): string {
    if path == "" || path[0] != '/' then ""
    else if |path| >= 2 && path[1] == '/' && (|path| == 2 || path[2] != '/') then "//"
    else "/"
  }

  predicate IsComponent(part: string) { part != "" && part != "." }

  function Components(parts: seq<string>): (r: seq<string>)
    ensures forall p | p in r :: p in parts && IsComponent(p)
    ensures |r| <= |parts|
  {
    if parts == [] then [] else (if IsComponent(parts[0]) then [parts[0]] else []) + Components(parts[1..])
  }

  /** The components of a path: neither empty nor a single dot. */
  function Parts(path: string): (r: seq<string>)
    ensures forall p | p in r :: IsComponent(p) && '/' !in p
  {
    Components(Split(path, '/'))
  }

  function Front(parts: seq<string>): seq<string> {
    if parts == [] then [] else parts[..|parts| - 1]
  }

  function FileName(path: string): (name: string)
    ensures '/' !in name
  {
    var parts := Parts(path);
    if parts == [] then "" else parts[|parts| - 1]
  }

  /** The parent folder as text, empty where `str` says a dot. */
  function Folder(path: string): string {
    Root(path) + Join(Front(Parts(path)), '/')
  }

  // ----- the extension of a file name --------------------------------------------------------------

  /** The length of the text before the last dot, or of all of it. */
  function BeforeLastDot(s: string): (n: nat)
    ensures n <= |s|
    ensures n < |s| ==> s[n] == '.' && '.' !in s[n + 1..]
    ensures n == |s| ==> '.' !in s
  {
    if s == "" || '.' !in s then |s|
    else if s[|s| - 1] == '.' then |s| - 1
    else
      assert s == s[..|s| - 1] + [s[|s| - 1]];
      BeforeLastDot(s[..|s| - 1])
  }

  predicate OnlyDots(s: string) { forall c | c in s :: c == '.' }

  /** `splitext`: the extension, unless only dots come before it. */
  function Suffix(name: string): (ext: string)
    ensures |ext| <= |name|
  {
    var n := BeforeLastDot(name);
    if OnlyDots(name[..n]) then "" else name[n..]
  }

  function NameStem(name: string): string {
    name[..|name| - |Suffix(name)|]
  }

  // ----- the renamed path ----------------------------------------------------------------------------

  /** The sanitised name without an extension the operator typed. */
  function CustomStem(custom: string): string {
    var stem := NameStem(Sanitize(custom));
    if stem == "" then "untitled" else stem
  }

  function CustomName(path: string, custom: string): string {
    CustomStem(custom) + Suffix(FileName(path))
  }

  function Renamed(path: string, custom: string): string {
    if Folder(path) == "" then CustomName(path, custom) else Folder(path) + "/" + CustomName(path, custom)
  }

  // ----- what it keeps -----------------------------------------------------------------------------------

  lemma PlainStem(custom: string)
    ensures var stem := CustomStem(custom); stem != "" && '/' !in stem && stem[0] != '.'
  {
    var value := Sanitize(custom);
    SanitizeSafe(custom);
    assert '/' !in value;
    var stem := NameStem(value);
    if stem != "" { assert stem[0] == value[0]; }
  }

  lemma SuffixShape(name: string)
    requires '/' !in name
    ensures var ext := Suffix(name); ext == "" || (ext[0] == '.' && '.' !in ext[1..])
    ensures '/' !in Suffix(name)
  {
  }

  /** A stem that starts with another character gives the extension back. */
  lemma SuffixOf(stem: string, ext: string)
    requires stem != "" && stem[0] != '.' && ext != "" && ext[0] == '.' && '.' !in ext[1..]
    ensures Suffix(stem + ext) == ext && NameStem(stem + ext) == stem
  {
    BeforeLastDotOf(stem, ext);
    assert stem[0] in stem && (stem + ext)[..|stem|] == stem;
  }

  lemma {:induction false} BeforeLastDotOf(stem: string, ext: string)
    requires ext != "" && ext[0] == '.' && '.' !in ext[1..]
    ensures BeforeLastDot(stem + ext) == |stem|
    decreases |ext|
  {
    var s := stem + ext;
    assert s[|stem|] == '.' && s[|s| - 1] == ext[|ext| - 1];
    if |ext| > 1 {
      assert ext[|ext| - 1] in ext[1..];
      assert s[..|s| - 1] == stem + ext[..|ext| - 1];
      assert ext[..|ext| - 1][1..] <= ext[1..];
      BeforeLastDotOf(stem, ext[..|ext| - 1]);
    }
  }

  lemma {:induction false} ComponentsAppend(a: seq<string>, b: seq<string>)
    ensures Components(a + b) == Components(a) + Components(b)
  {
    if a == [] {
      assert a + b == b;
    } else {
      assert (a + b)[1..] == a[1..] + b;
      ComponentsAppend(a[1..], b);
    }
  }

  lemma {:induction false} ComponentsFixed(parts: seq<string>)
    requires forall p | p in parts :: IsComponent(p)
    ensures Components(parts) == parts
  {
    if parts != [] {
      assert parts[0] in parts;
      ComponentsFixed(parts[1..]);
      assert parts == [parts[0]] + parts[1..];
    }
  }

  /** The components of a joined folder, under any root, are the folder's. */
  lemma JoinedParts(root: string, parts: seq<string>)
    requires root in {"", "/", "//"} && forall p | p in parts :: IsComponent(p) && '/' !in p
    ensures Parts(root + Join(parts, '/')) == parts
  {
    var text := Join(parts, '/');
    if parts == [] {
      assert Split(text, '/') == [""];
    } else {
      SplitJoin(parts, '/');
      ComponentsFixed(parts);
    }
    assert "" + text == text;
    LeadingSlash(text);
    LeadingSlash("/" + text);
    assert "/" + ("/" + text) == "//" + text;
  }

  lemma LeadingSlash(text: string)
    ensures Parts("/" + text) == Parts(text)
  {
    assert ("/" + text)[1..] == text;
    assert Split("/" + text, '/') == [""] + Split(text, '/');
  }

  lemma PartsOfPair(folder: string, name: string)
    requires '/' !in name && IsComponent(name)
    ensures Parts(folder + "/" + name) == Parts(folder) + [name]
  {
    SplitJoinedPair(folder, name, '/');
    SplitWhole(name, '/');
    ComponentsAppend(Split(folder, '/'), [name]);
    assert Components([name]) == [name] by { ComponentsFixed([name]); }
    assert "/" == ['/'];
  }

  lemma CustomNamePlain(path: string, custom: string)
    ensures var name := CustomName(path, custom); '/' !in name && IsComponent(name)
  {
    PlainStem(custom);
    SuffixShape(FileName(path));
    var stem := CustomStem(custom);
    assert CustomName(path, custom)[0] == stem[0];
  }

  /** The folders stay, the last component is the custom name: exactly one component, whatever the operator
      typed; and the extension of the rendered file stays, whatever was typed for one. */
  lemma RenamedKeepsFolders(path: string, custom: string)
    ensures Parts(Renamed(path, custom)) == Front(Parts(path)) + [CustomName(path, custom)]
    ensures Suffix(FileName(path)) != "" ==> Suffix(FileName(Renamed(path, custom))) == Suffix(FileName(path))
  {
    var name := CustomName(path, custom);
    CustomNamePlain(path, custom);
    JoinedParts(Root(path), Front(Parts(path)));
    if Folder(path) == "" {
      SplitWhole(name, '/');
      ComponentsFixed([name]);
      assert Parts("") == [] by { assert Split("", '/') == [""]; }
      assert Renamed(path, custom) == name;
    } else {
      PartsOfPair(Folder(path), name);
    }
    assert FileName(Renamed(path, custom)) == name;
    PlainStem(custom);
    SuffixShape(FileName(path));
    if Suffix(FileName(path)) != "" { SuffixOf(CustomStem(custom), Suffix(FileName(path))); }
  }

  /** A custom name is used as it is when it is one safe component without a dot. */
  lemma PlainNameUsed(path: string, custom: string)
    requires Safe(custom) && custom != "" && '.' !in custom
    ensures CustomName(path, custom) == custom + Suffix(FileName(path))
  {
    SafeIsFixed(custom);
  }
}
