/** `find`: the disc folders of a library, by a bounded work-list walk. */
module DiscFolders {
  import opened Options
  import opened Text

  datatype DiscType = Bluray | Dvd

  /** A directory as the walk sees it: whether it can be listed, whether it is a disc folder, and its real
      sub-directories in the order of their names. */
  datatype Folder = Folder(readable: bool, kind: Option<DiscType>, children: seq<Child>)
  datatype Child = Child(name: string, folder: Folder)

  datatype DiscFolder = DiscFolder(path: string, kind: DiscType)

  predicate Hidden(name: string) { name != "" && name[0] == '.' }

  function Shown(cs: seq<Child>): (r: seq<Child>)
    ensures |r| <= |cs| && forall c | c in r :: c in cs && !Hidden(c.name)
  {
    if cs == [] then [] else (if Hidden(cs[0].name) then [] else [cs[0]]) + Shown(cs[1..])
  }

  function Below(rel: string, name: string): string {
    if rel == "" then name else rel + "/" + name
  }

  // ----- what a full walk finds ----------------------------------------------------------------

  function Size(f: Folder): nat {
    1 + SizeOf(f.children)
  }

  function SizeOf(cs: seq<Child>): nat {
    if cs == [] then 0 else 1 + Size(cs[0].folder) + SizeOf(cs[1..])
  }

  /** The disc folders under `f`, which lies at `rel` and `depth`. */
  function Discs(f: Folder, rel: string, depth: nat, maxDepth: int): multiset<DiscFolder>
    decreases Size(f), 0
  {
    if f.readable then DiscsOf(f.children, rel, depth, maxDepth) else multiset{}
  }

  function DiscsOf(cs: seq<Child>, rel: string, depth: nat, maxDepth: int): multiset<DiscFolder>
    decreases SizeOf(cs), 0
  {
    if cs == [] then multiset{}
    else (if Hidden(cs[0].name) then multiset{} else DiscsAt(cs[0], rel, depth, maxDepth)) + DiscsOf(cs[1..], rel, depth, maxDepth)
  }

  /** A visited child: a disc folder, or searched in turn while the depth allows. */
  function DiscsAt(c: Child, rel: string, depth: nat, maxDepth: int): multiset<DiscFolder>
    decreases Size(c.folder), 1
  {
    if c.folder.kind.Some? then multiset{DiscFolder(Below(rel, c.name), c.folder.kind.value)}
    else if depth + 1 < maxDepth then Discs(c.folder, Below(rel, c.name), depth + 1, maxDepth)
    else multiset{}
  }

  /** How many folders a full walk visits. */
  function Visits(f: Folder, depth: nat, maxDepth: int): nat
    decreases Size(f), 0
  {
    if f.readable then VisitsOf(f.children, depth, maxDepth) else 0
  }

  function VisitsOf(cs: seq<Child>, depth: nat, maxDepth: int): nat
    decreases SizeOf(cs), 0
  {
    if cs == [] then 0
    else (if Hidden(cs[0].name) then 0 else 1 + VisitsAt(cs[0], depth, maxDepth)) + VisitsOf(cs[1..], depth, maxDepth)
  }

  function VisitsAt(c: Child, depth: nat, maxDepth: int): nat
    decreases Size(c.folder), 1
  {
    if c.folder.kind.None? && depth + 1 < maxDepth then Visits(c.folder, depth + 1, maxDepth) else 0
  }

  // ----- the work list ---------------------------------------------------------------------------

  datatype Entry = Entry(folder: Folder, rel: string, depth: nat)

  function StackDiscs(stack: seq<Entry>, maxDepth: int): multiset<DiscFolder> {
    if stack == [] then multiset{}
    else var e := stack[|stack| - 1]; StackDiscs(stack[..|stack| - 1], maxDepth) + Discs(e.folder, e.rel, e.depth, maxDepth)
  }

  function StackVisits(stack: seq<Entry>, maxDepth: int): nat {
    if stack == [] then 0
    else var e := stack[|stack| - 1]; StackVisits(stack[..|stack| - 1], maxDepth) + Visits(e.folder, e.depth, maxDepth)
  }

  function StackSize(stack: seq<Entry>): nat {
    if stack == [] then 0 else StackSize(stack[..|stack| - 1]) + Size(stack[|stack| - 1].folder)
  }

  lemma Pushed(stack: seq<Entry>, e: Entry, maxDepth: int)
    ensures StackDiscs(stack + [e], maxDepth) == StackDiscs(stack, maxDepth) + Discs(e.folder, e.rel, e.depth, maxDepth)
    ensures StackVisits(stack + [e], maxDepth) == StackVisits(stack, maxDepth) + Visits(e.folder, e.depth, maxDepth)
    ensures StackSize(stack + [e]) == StackSize(stack) + Size(e.folder)
  {
    assert (stack + [e])[..|stack|] == stack;
  }

  lemma ShownCons(cs: seq<Child>)
    requires cs != []
    ensures Shown(cs) == if Hidden(cs[0].name) then Shown(cs[1..]) else [cs[0]] + Shown(cs[1..])
  {
  }

  /** Hidden children count for nothing. */
  lemma {:induction false} ShownDiscs(cs: seq<Child>, rel: string, depth: nat, maxDepth: int)
    ensures DiscsOf(Shown(cs), rel, depth, maxDepth) == DiscsOf(cs, rel, depth, maxDepth)
  {
    if cs != [] {
      ShownCons(cs);
      ShownDiscs(cs[1..], rel, depth, maxDepth);
      if !Hidden(cs[0].name) { assert Shown(cs)[1..] == Shown(cs[1..]); }
    }
  }

  lemma {:induction false} ShownVisits(cs: seq<Child>, depth: nat, maxDepth: int)
    ensures VisitsOf(Shown(cs), depth, maxDepth) == VisitsOf(cs, depth, maxDepth)
  {
    if cs != [] {
      ShownCons(cs);
      ShownVisits(cs[1..], depth, maxDepth);
      if !Hidden(cs[0].name) { assert Shown(cs)[1..] == Shown(cs[1..]); }
    }
  }

  lemma {:induction false} ShownSize(cs: seq<Child>)
    ensures SizeOf(Shown(cs)) <= SizeOf(cs)
  {
    if cs != [] {
      ShownCons(cs);
      ShownSize(cs[1..]);
      if !Hidden(cs[0].name) { assert Shown(cs)[1..] == Shown(cs[1..]); }
    }
  }

  // ----- sorting -----------------------------------------------------------------------------------

  predicate Sorted(fs: seq<DiscFolder>) {
    forall i, j | 0 <= i < j < |fs| :: Leq(fs[i].path, fs[j].path)
  }

  function Insert(f: DiscFolder, fs: seq<DiscFolder>): seq<DiscFolder> {
    if fs == [] || Leq(f.path, fs[0].path) then [f] + fs else [fs[0]] + Insert(f, fs[1..])
  }

  function Sort(fs: seq<DiscFolder>): seq<DiscFolder> {
    if fs == [] then [] else Insert(fs[0], Sort(fs[1..]))
  }

  lemma {:induction false} InsertSorted(f: DiscFolder, fs: seq<DiscFolder>)
    requires Sorted(fs)
    ensures Sorted(Insert(f, fs)) && multiset(Insert(f, fs)) == multiset(fs) + multiset{f}
  {
    if fs != [] {
      assert fs == [fs[0]] + fs[1..];
      if Leq(f.path, fs[0].path) {
        forall j | 0 <= j < |fs| ensures Leq(f.path, fs[j].path) {
          if j > 0 { LeqTransitive(f.path, fs[0].path, fs[j].path); }
        }
      } else {
        LeqTotal(f.path, fs[0].path);
        InsertSorted(f, fs[1..]);
        var rest := Insert(f, fs[1..]);
        forall j | 0 <= j < |rest| ensures Leq(fs[0].path, rest[j].path) {
          assert rest[j] in multiset(rest);
          assert rest[j] == f || rest[j] in fs[1..];
        }
      }
    }
  }

  lemma {:induction false} SortSorted(fs: seq<DiscFolder>)
    ensures Sorted(Sort(fs)) && multiset(Sort(fs)) == multiset(fs)
  {
    if fs != [] {
      SortSorted(fs[1..]);
      InsertSorted(fs[0], Sort(fs[1..]));
      assert fs == [fs[0]] + fs[1..];
    }
  }

  // ----- the walk ----------------------------------------------------------------------------------

  /** One child: found, pushed, or passed by. */
  method VisitChild(c: Child, at: Entry, maxDepth: int, found: seq<DiscFolder>, stack: seq<Entry>) returns (found': seq<DiscFolder>, stack': seq<Entry>)
    requires !Hidden(c.name)
    ensures multiset(found') + StackDiscs(stack', maxDepth) == multiset(found) + StackDiscs(stack, maxDepth) + DiscsAt(c, at.rel, at.depth, maxDepth)
    ensures StackVisits(stack', maxDepth) == StackVisits(stack, maxDepth) + VisitsAt(c, at.depth, maxDepth)
    ensures StackSize(stack') <= StackSize(stack) + Size(c.folder)
  {
    found', stack' := found, stack;
    var childRel := Below(at.rel, c.name);
    if c.folder.kind.Some? {
      found' := found + [DiscFolder(childRel, c.folder.kind.value)];
    } else if at.depth + 1 < maxDepth {
      Pushed(stack, Entry(c.folder, childRel, at.depth + 1), maxDepth);
      stack' := stack + [Entry(c.folder, childRel, at.depth + 1)];
    }
  }

  lemma NextChild(cs: seq<Child>, i: nat, at: Entry, maxDepth: int)
    requires i < |cs| && !Hidden(cs[i].name)
    ensures DiscsOf(cs[i..], at.rel, at.depth, maxDepth) == DiscsAt(cs[i], at.rel, at.depth, maxDepth) + DiscsOf(cs[i + 1..], at.rel, at.depth, maxDepth)
    ensures VisitsOf(cs[i..], at.depth, maxDepth) == 1 + VisitsAt(cs[i], at.depth, maxDepth) + VisitsOf(cs[i + 1..], at.depth, maxDepth)
    ensures SizeOf(cs[i..]) == 1 + Size(cs[i].folder) + SizeOf(cs[i + 1..])
  {
    assert cs[i..][1..] == cs[i + 1..] && cs[i..][0] == cs[i];
  }

  /** What has been found and what is still to be found, from the children at hand and from the stack. */
  function Total(found: seq<DiscFolder>, stack: seq<Entry>, cs: seq<Child>, at: Entry, maxDepth: int): multiset<DiscFolder> {
    multiset(found) + StackDiscs(stack, maxDepth) + DiscsOf(cs, at.rel, at.depth, maxDepth)
  }

  /** The children of one directory, until the budget runs out. */
  method VisitChildren(cs: seq<Child>, at: Entry, maxDepth: int, maxDirs: nat, found: seq<DiscFolder>, stack: seq<Entry>, visited: nat)
    returns (found': seq<DiscFolder>, stack': seq<Entry>, visited': nat, over: bool)
    requires visited <= maxDirs && forall c | c in cs :: !Hidden(c.name)
    ensures !over ==>
      && visited' <= maxDirs
      && visited' + StackVisits(stack', maxDepth) == visited + StackVisits(stack, maxDepth) + VisitsOf(cs, at.depth, maxDepth)
      && Total(found', stack', [], at, maxDepth) == Total(found, stack, cs, at, maxDepth)
      && StackSize(stack') <= StackSize(stack) + SizeOf(cs)
    ensures over ==>
      && visited + StackVisits(stack, maxDepth) + VisitsOf(cs, at.depth, maxDepth) > maxDirs
      && multiset(found') <= Total(found, stack, cs, at, maxDepth)
  {
    found', stack', visited' := found, stack, visited;
    assert cs[0..] == cs;
    for i := 0 to |cs|
      invariant visited' <= maxDirs
      invariant visited' + StackVisits(stack', maxDepth) + VisitsOf(cs[i..], at.depth, maxDepth)
             == visited + StackVisits(stack, maxDepth) + VisitsOf(cs, at.depth, maxDepth)
      invariant Total(found', stack', cs[i..], at, maxDepth) == Total(found, stack, cs, at, maxDepth)
      invariant StackSize(stack') + SizeOf(cs[i..]) <= StackSize(stack) + SizeOf(cs)
    {
      NextChild(cs, i, at, maxDepth);
      visited' := visited' + 1;
      if visited' > maxDirs { return found', stack', visited', true; }
      found', stack' := VisitChild(cs[i], at, maxDepth, found', stack');
    }
    assert cs[|cs|..] == [];
    over := false;
  }

  /** One directory off the stack; one that cannot be listed is passed by. */
  method Take(at: Entry, maxDepth: int, maxDirs: nat, found: seq<DiscFolder>, stack: seq<Entry>, visited: nat)
    returns (found': seq<DiscFolder>, stack': seq<Entry>, visited': nat, over: bool)
    requires visited <= maxDirs
    ensures !over ==>
      && visited' <= maxDirs
      && visited' + StackVisits(stack', maxDepth) == visited + StackVisits(stack, maxDepth) + Visits(at.folder, at.depth, maxDepth)
      && multiset(found') + StackDiscs(stack', maxDepth) == multiset(found) + StackDiscs(stack, maxDepth) + Discs(at.folder, at.rel, at.depth, maxDepth)
      && StackSize(stack') < StackSize(stack) + Size(at.folder)
    ensures over ==>
      && visited + StackVisits(stack, maxDepth) + Visits(at.folder, at.depth, maxDepth) > maxDirs
      && multiset(found') <= multiset(found) + StackDiscs(stack, maxDepth) + Discs(at.folder, at.rel, at.depth, maxDepth)
  {
    if !at.folder.readable { return found, stack, visited, false; }
    ShownDiscs(at.folder.children, at.rel, at.depth, maxDepth);
    ShownVisits(at.folder.children, at.depth, maxDepth);
    ShownSize(at.folder.children);
    found', stack', visited', over := VisitChildren(Shown(at.folder.children), at, maxDepth, maxDirs, found, stack, visited);
  }

  /** The disc folders below the root, sorted by path, and whether the budget cut the walk short: it does so
      exactly when a full walk would visit more than `maxDirs` folders. A full walk returns every disc
      folder, each once; a cut one returns some of them. */
  method Find(root: Folder, maxDepth: int, maxDirs: nat) returns (found: seq<DiscFolder>, partial_: bool)
    ensures Sorted(found)
    ensures partial_ <==> Visits(root, 0, maxDepth) > maxDirs
    ensures !partial_ ==> multiset(found) == Discs(root, "", 0, maxDepth)
    ensures multiset(found) <= Discs(root, "", 0, maxDepth)
  {
    found := [];
    var visited: nat := 0;
    var stack := [Entry(root, "", 0)];
    Pushed([], stack[0], maxDepth);
    assert [] + stack == stack;
    while stack != []
      invariant visited <= maxDirs && visited + StackVisits(stack, maxDepth) == Visits(root, 0, maxDepth)
      invariant multiset(found) + StackDiscs(stack, maxDepth) == Discs(root, "", 0, maxDepth)
      decreases StackSize(stack)
    {
      var at := stack[|stack| - 1];
      stack := stack[..|stack| - 1];
      var over: bool;
      found, stack, visited, over := Take(at, maxDepth, maxDirs, found, stack, visited);
      if over {
        SortSorted(found);
        return Sort(found), true;
      }
    }
    SortSorted(found);
    return Sort(found), false;
  }

  // ----- what a disc folder is ---------------------------------------------------------------------

  /** The folder that `names` lead to from `f`, when every folder on the way is listed and shown and none
      but the last is a disc folder, and that last one is. */
  predicate Leads(f: Folder, names: seq<string>, kind: DiscType) {
    && names != [] && f.readable
    && exists i | 0 <= i < |f.children| ::
         && f.children[i].name == names[0] && !Hidden(names[0])
         && if |names| == 1 then f.children[i].folder.kind == Some(kind)
            else f.children[i].folder.kind.None? && Leads(f.children[i].folder, names[1..], kind)
  }

  function PathOf(rel: string, names: seq<string>): string
    decreases |names|
  {
    if names == [] then rel else PathOf(Below(rel, names[0]), names[1..])
  }

  predicate Reached(f: Folder, rel: string, depth: nat, maxDepth: int, d: DiscFolder, names: seq<string>) {
    Leads(f, names, d.kind) && (|names| == 1 || depth + |names| <= maxDepth) && d.path == PathOf(rel, names)
  }

  lemma {:induction false} InDiscsOf(cs: seq<Child>, rel: string, depth: nat, maxDepth: int, d: DiscFolder)
    ensures d in DiscsOf(cs, rel, depth, maxDepth) <==>
      exists i | 0 <= i < |cs| :: !Hidden(cs[i].name) && d in DiscsAt(cs[i], rel, depth, maxDepth)
  {
    if cs != [] {
      InDiscsOf(cs[1..], rel, depth, maxDepth, d);
      if d in DiscsOf(cs[1..], rel, depth, maxDepth) {
        var i :| 0 <= i < |cs[1..]| && !Hidden(cs[1..][i].name) && d in DiscsAt(cs[1..][i], rel, depth, maxDepth);
        assert cs[i + 1] == cs[1..][i];
      }
      assert forall i | 0 < i < |cs| :: cs[i] == cs[1..][i - 1];
    }
  }

  lemma FoundLeads(f: Folder, rel: string, depth: nat, maxDepth: int, d: DiscFolder) returns (names: seq<string>)
    requires d in Discs(f, rel, depth, maxDepth)
    ensures Reached(f, rel, depth, maxDepth, d, names)
    decreases Size(f)
  {
    InDiscsOf(f.children, rel, depth, maxDepth, d);
    var i :| 0 <= i < |f.children| && !Hidden(f.children[i].name) && d in DiscsAt(f.children[i], rel, depth, maxDepth);
    var c := f.children[i];
    ChildSmaller(f.children, i);
    names := [c.name];
    if c.folder.kind.None? {
      var rest := FoundLeads(c.folder, Below(rel, c.name), depth + 1, maxDepth, d);
      names := [c.name] + rest;
      assert names[1..] == rest;
    }
  }

  lemma {:induction false} LeadsFound(f: Folder, rel: string, depth: nat, maxDepth: int, d: DiscFolder, names: seq<string>)
    requires Reached(f, rel, depth, maxDepth, d, names)
    ensures d in Discs(f, rel, depth, maxDepth)
    decreases Size(f)
  {
    var i :| 0 <= i < |f.children| && f.children[i].name == names[0] && !Hidden(names[0])
      && if |names| == 1 then f.children[i].folder.kind == Some(d.kind)
         else f.children[i].folder.kind.None? && Leads(f.children[i].folder, names[1..], d.kind);
    ChildSmaller(f.children, i);
    if |names| > 1 {
      LeadsFound(f.children[i].folder, Below(rel, names[0]), depth + 1, maxDepth, d, names[1..]);
    } else {
      assert names[1..] == [] && PathOf(rel, names) == PathOf(Below(rel, names[0]), []);
      assert d == DiscFolder(Below(rel, f.children[i].name), f.children[i].folder.kind.value);
    }
    assert d in DiscsAt(f.children[i], rel, depth, maxDepth);
    InDiscsOf(f.children, rel, depth, maxDepth, d);
  }

  lemma {:induction false} ChildSmaller(cs: seq<Child>, i: nat)
    requires i < |cs|
    ensures Size(cs[i].folder) < SizeOf(cs)
  {
    if i > 0 { ChildSmaller(cs[1..], i - 1); }
  }

  /** What a full walk finds is exactly the disc folders at most `maxDepth` deep (a child of the root at any
      limit) whose ancestors below the root are shown, listed and no disc folders themselves. */
  lemma FoundExactly(root: Folder, maxDepth: int, d: DiscFolder)
    ensures d in Discs(root, "", 0, maxDepth) <==>
      exists names :: Leads(root, names, d.kind) && (|names| == 1 || |names| <= maxDepth) && d.path == PathOf("", names)
  {
    if d in Discs(root, "", 0, maxDepth) {
      var names := FoundLeads(root, "", 0, maxDepth, d);
    }
    if names :| Leads(root, names, d.kind) && (|names| == 1 || |names| <= maxDepth) && d.path == PathOf("", names) {
      LeadsFound(root, "", 0, maxDepth, d, names);
    }
  }
}
