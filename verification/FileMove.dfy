/** The passthrough file moves, over a disk that remembers every state it has been in.

    A crash or a cancel can stop the process after any single file-system call, so what holds of every
    remembered state holds whenever it stops. */
module FileMove {
  /** An entry below `root`; the root itself, file or folder, is the one with an empty relative name. */
  datatype Path = Path(root: string, rel: string)

  /** A file's content, in copy chunks. */
  type Data = seq<nat>
  datatype Node = File(data: Data) | Folder
  type Files = map<Path, Node>

  const INPROGRESS_SUFFIX := ".arm-inprogress"

  function Temporary(p: Path): Path { p.(root := p.root + INPROGRESS_SUFFIX) }

  /** `Refused`: the destination exists. */
  datatype Result = Ok | CopyCancelled | Failed | Refused

  /** How the calls of a copy go: when the cancel event is seen, which call fails. */
  datatype Fate = Fate(rename: bool, open: bool, cancelled: nat -> bool, written: nat -> bool, synced: bool, replaced: bool, unlinked: bool)

  /** How the calls of a folder's move go: whether the rename succeeds, the source can be listed and the destination
      folder be made, the calls for every entry, which entries the clean-up can remove, how many removals of the
      source succeed, and whether the final flush does. */
  datatype TreeFate = TreeFate(renames: bool, made: bool, fates: seq<Fate>, removable: string -> bool, stopsAt: nat, flushed: bool)

  class Disk {
    var files: Files
    ghost var history: seq<Files>

    constructor (files: Files)
      ensures this.files == files && history == []
    {
      this.files := files;
      history := [];
    }

    method Put(p: Path, node: Node)
      modifies this
      ensures files == old(files)[p := node] && history == old(history) + [files]
    {
      files := files[p := node];
      history := history + [files];
    }

    method Unlink(p: Path)
      modifies this
      ensures files == old(files) - {p} && history == old(history) + [files]
    {
      files := files - {p};
      history := history + [files];
    }

    /** Atomic on one file system, and it replaces the destination. */
    method Rename(p: Path, q: Path)
      requires p in files && p != q
      modifies this
      ensures files == (old(files) - {p})[q := old(files)[p]] && history == old(history) + [files]
    {
      files := (files - {p})[q := files[p]];
      history := history + [files];
    }

    /** `_copy_file`: every state on the way has some beginning of the source at `dst` and is else unchanged. */
    method CopyFile(src: Path, dst: Path, fate: Fate) returns (r: Result)
      requires src in files && src != dst
      modifies this
      ensures r != Refused && (r == Ok ==> files == old(files)[dst := old(files)[src]])
      ensures old(history) <= history
      ensures history == old(history) ==> files == old(files)
      ensures history != old(history) ==> Growing(files, old(files), dst, old(files)[src])
      ensures forall k | |old(history)| <= k < |history| :: Growing(history[k], old(files), dst, old(files)[src])
      ensures r == Ok <==> CopiesWhole(old(files)[src], fate)
      ensures r == CopyCancelled <==> SeesCancel(old(files)[src], fate)
      ensures history != old(history) <==> fate.open && old(files)[src].File?
      ensures Recorded(history, |old(history)|, files)
    {
      if !fate.open || files[src].Folder? { return Failed; }
      var data := files[src].data;
      Put(dst, File([]));
      var n := 0;
      while true
        invariant 0 <= n <= |data|
        invariant files == old(files)[dst := File(data[..n])]
        invariant |history| > |old(history)| && old(history) <= history && Recorded(history, |old(history)|, files)
        invariant forall k | |old(history)| <= k < |history| :: Growing(history[k], old(files), dst, File(data))
        invariant forall m | 0 <= m < n :: !fate.cancelled(m) && fate.written(m)
        decreases |data| - n
      {
        if fate.cancelled(n) { return CopyCancelled; }
        if n == |data| { break; }
        if !fate.written(n) { return Failed; }
        Put(dst, File(data[..n + 1]));
        n := n + 1;
      }
      assert data[..|data|] == data;
      return Ok;
    }

    /** `transcode_none`. At every step the source is as it was or the final path is complete, and the final
        path never shows anything but the whole file or what was there before. */
    method TranscodeNone(input: Path, output: Path, fate: Fate) returns (r: Result)
      requires input != output && Temporary(output) != input
      modifies this
      ensures old(history) <= history
      ensures input in old(files) ==>
        forall k | |old(history)| <= k < |history| :: Safe(history[k], old(files), input, output)
      ensures input !in old(files) ==> r == Failed
      ensures input in old(files) && fate.rename ==> r == Ok
      ensures input in old(files) && !fate.rename && !(old(files)[input].File? && fate.open) ==> r == Failed
      ensures input in old(files) && !fate.rename && old(files)[input].File? && fate.open ==>
        var chunks := |old(files)[input].data|;
        var cancelled := exists n | 0 <= n <= chunks :: fate.cancelled(n) && forall m | 0 <= m < n :: fate.written(m);
        var written := forall n | 0 <= n < chunks :: fate.written(n);
        r == if cancelled then CopyCancelled else if written && fate.synced && fate.replaced then Ok else Failed
      ensures r != Refused
      ensures r == Ok ==> output in files && files[output] == old(files)[input] && (input !in files <==> fate.rename || fate.unlinked)
      ensures r != Ok ==> Same(files, old(files), input) && Same(files, old(files), output)
      ensures r != Ok && (fate.replaced || !fate.synced) ==> Temporary(output) !in files
    {
      var tmp := Temporary(output);
      assert |tmp.root| > |output.root|;
      if input !in files {
        Unlink(tmp);
        return Failed;
      }
      if fate.rename {
        Rename(input, output);
        return Ok;
      }
      r := CopyFile(input, tmp, fate);
      if r == Ok && !fate.synced { r := Failed; }
      if r != Ok {
        Unlink(tmp);
        return;
      }
      if !fate.replaced { return Failed; }
      Rename(tmp, output);
      if fate.unlinked { Unlink(input); }
    }

    /** `atomic_output` around a writer that puts `drafts` at the temporary path, one after the other, and
        may raise: the final path changes once, to what the writer left. */
    method AtomicOutput(final: Path, drafts: seq<Data>, raises: bool, fate: Fate) returns (r: Result)
      modifies this
      ensures old(history) <= history
      ensures forall k | |old(history)| <= k < |history| ::
        Same(history[k], old(files), final) || (r == Ok && Holds(history[k], final, Draft(old(files), final, drafts)))
      ensures r == Ok <==> !raises && (drafts != [] || Temporary(final) in old(files)) && fate.synced && fate.replaced
      ensures r == Ok ==> Holds(files, final, Draft(old(files), final, drafts)) && Temporary(final) !in files
      ensures r != Ok ==> r == Failed && Same(files, old(files), final)
    {
      var tmp := Temporary(final);
      assert |tmp.root| > |final.root|;
      for i := 0 to |drafts|
        invariant old(history) <= history && Same(files, old(files), final)
        invariant forall k | |old(history)| <= k < |history| :: Same(history[k], old(files), final)
        invariant if i > 0 then tmp in files && files[tmp] == File(drafts[i - 1]) else files == old(files)
      {
        Put(tmp, File(drafts[i]));
      }
      if raises || tmp !in files || !fate.synced || !fate.replaced { return Failed; }
      Rename(tmp, final);
      return Ok;
    }

    // ----- folders -----------------------------------------------------------------------------

    /** Renaming a folder moves all its entries at once. */
    method RenameTree(src: string, dst: string, rels: seq<string>)
      requires Tree(files, src, rels) && !OnShow(files, dst)
      modifies this
      ensures Copied(files, dst, old(files), src, rels) && !OnShow(files, src)
      ensures history == old(history) + [files]
    {
      RelocatedMeans(files, src, dst, rels);
      files := Relocated(files, src, dst, rels);
      history := history + [files];
    }

    /** `shutil.rmtree`, children first; the first removal that fails ends it. */
    method RemoveTree(root: string, rels: seq<string>, stopsAt: nat) returns (ok: bool)
      requires Within(files, root, rels)
      modifies this
      ensures old(history) <= history
      ensures forall k | |old(history)| <= k < |history| :: OnlyTree(history[k], old(files), root)
      ensures OnlyTree(files, old(files), root)
      ensures ok <==> stopsAt > |rels|
      ensures ok ==> !OnShow(files, root)
    {
      var n := |rels|;
      while n > 0
        invariant 0 <= n <= |rels| && |rels| - n <= stopsAt && old(history) <= history
        invariant OnlyTree(files, old(files), root) && Within(files, root, rels[..n])
        invariant forall k | |old(history)| <= k < |history| :: OnlyTree(history[k], old(files), root)
      {
        if |rels| - n == stopsAt { return false; }
        assert rels[..n] == rels[..n - 1] + [rels[n - 1]];
        n := n - 1;
        Unlink(Path(root, rels[n]));
      }
      if |rels| == stopsAt { return false; }
      Unlink(Path(root, ""));
      return true;
    }

    /** `shutil.rmtree` that ignores errors: what cannot be removed stays, and a folder with something in it. */
    method ClearTree(root: string, rels: seq<string>, removable: string -> bool)
      requires Within(files, root, rels) && ParentsFirst(rels) && Distinct(rels)
      modifies this
      ensures old(history) <= history
      ensures OnlyTree(files, old(files), root) && files.Keys <= old(files).Keys
      ensures forall k | |old(history)| <= k < |history| :: OnlyTree(history[k], old(files), root) && history[k].Keys <= old(files).Keys
      ensures OnShow(files, root) <==> Sticks(old(files), root, removable)
    {
      var n := |rels|;
      while n > 0
        invariant 0 <= n <= |rels| && old(history) <= history
        invariant OnlyTree(files, old(files), root) && files.Keys <= old(files).Keys
        invariant forall k | |old(history)| <= k < |history| :: OnlyTree(history[k], old(files), root) && history[k].Keys <= old(files).Keys
        invariant Sticks(files, root, removable) <==> Sticks(old(files), root, removable)
        invariant !Sticks(files, root, removable) ==> Within(files, root, rels[..n])
      {
        assert rels[..n] == rels[..n - 1] + [rels[n - 1]];
        n := n - 1;
        ghost var was := files;
        var p := Path(root, rels[n]);
        if p in files && removable(rels[n]) && !HasEntry(files, p) { Unlink(p); }
        ClearedOne(was, files, root, rels, n, removable);
      }
      var top := Path(root, "");
      if top in files && removable("") && !HasEntry(files, top) { Unlink(top); }
    }

    /** One entry of a folder being copied: a folder is made, a file copied and flushed; below a folder that could
        not be made nothing is. */
    method CopyOne(src: string, dst: string, rel: string, fate: Fate) returns (r: Result)
      requires Path(src, rel) in files && src != dst
      modifies this
      ensures r != Refused && old(history) <= history
      ensures Adds(files, old(files), Path(dst, rel)) && Recorded(history, |old(history)|, files)
      ensures history == old(history) ==> files == old(files)
      ensures forall k | |old(history)| <= k < |history| :: Adds(history[k], old(files), Path(dst, rel)) && history[k].Keys <= files.Keys
      ensures r == Ok ==> files == old(files)[Path(dst, rel) := old(files)[Path(src, rel)]]
      ensures r == Ok <==> Path(dst, ParentOf(rel)) in old(files) && EntryCopies(old(files)[Path(src, rel)], fate)
      ensures r == CopyCancelled <==> Path(dst, ParentOf(rel)) in old(files) && SeesCancel(old(files)[Path(src, rel)], fate)
      ensures old(files)[Path(src, rel)].Folder? && r != Ok ==> files == old(files)
    {
      if Path(dst, ParentOf(rel)) !in files { return Failed; }
      if files[Path(src, rel)].Folder? {
        if !fate.open { return Failed; }
        Put(Path(dst, rel), Folder);
        return Ok;
      }
      r := CopyFile(Path(src, rel), Path(dst, rel), fate);
      if r == Ok && !fate.synced { r := Failed; }
    }

    /** The next entry of a copy under way. */
    method CopyNext(src: string, dst: string, rels: seq<string>, fates: seq<Fate>, i: nat, ghost before: Files, ghost base: nat,
        ghost failed: bool) returns (one: Result)
      requires i < |rels| == |fates| && Tree(before, src, rels) && src != dst
      requires Copying(files, history, base, before, dst, rels) && Progress(files, dst, before, src, rels, fates, i, failed)
      modifies this
      ensures old(history) <= history && Copying(files, history, base, before, dst, rels)
      ensures one in {Ok, Failed, CopyCancelled}
      ensures one == CopyCancelled ==> Stopped(before, src, rels, fates, |rels|)
      ensures one != CopyCancelled ==> Progress(files, dst, before, src, rels, fates, i + 1, failed || one != Ok)
      ensures one == Ok && Copied(old(files), dst, before, src, rels[..i]) ==> Copied(files, dst, before, src, rels[..i + 1])
    {
      ghost var was, past := files, history;
      assert Same(was, before, Path(src, rels[i]));
      ParentThere(files, dst, before, src, rels, fates, i);
      one := CopyOne(src, dst, rels[i], fates[i]);
      CopyingGoesOn(was, past, files, history, base, before, dst, rels, i);
      ProgressGoesOn(was, files, dst, before, src, rels, fates, i, failed, one);
      if one == Ok && Copied(was, dst, before, src, rels[..i]) { CopiedOneMore(was, files, before, src, dst, rels, i); }
    }

    /** `shutil.copytree` where there was nothing: the folder is made before any entry, then the destination grows
        and nothing else changes; an entry that fails is passed over, a cancel stops it. */
    method CopyTree(src: string, dst: string, rels: seq<string>, fate: TreeFate) returns (r: Result)
      requires Tree(files, src, rels) && !OnShow(files, dst) && |fate.fates| == |rels|
      modifies this
      ensures r != Refused && old(history) <= history
      ensures !fate.made ==> r == Failed && files == old(files) && history == old(history)
      ensures fate.made ==> Copying(files, history, |old(history)|, old(files), dst, rels)
      ensures r == Ok ==> Copied(files, dst, old(files), src, rels)
      ensures r == Ok <==> fate.made && AllCopy(old(files), src, rels, fate.fates)
      ensures r == CopyCancelled <==> fate.made && Stopped(old(files), src, rels, fate.fates, |rels|)
      ensures r == CopyCancelled ==> rels != []
    {
      if !fate.made { return Failed; }
      ghost var before, base := files, |history|;
      CopyingStarts(history, files, dst, rels);
      Put(Path(dst, ""), Folder);
      var failed := false;
      for i := 0 to |rels|
        invariant old(history) <= history && Copying(files, history, base, before, dst, rels)
        invariant !failed ==> Copied(files, dst, before, src, rels[..i])
        invariant Progress(files, dst, before, src, rels, fate.fates, i, failed)
      {
        var one := CopyNext(src, dst, rels, fate.fates, i, before, base, failed);
        if one == CopyCancelled { return CopyCancelled; }
        if one == Failed { failed := true; }
      }
      assert rels[..|rels|] == rels;
      NothingFailed(before, src, rels, fate.fates);
      return if failed then Failed else Ok;
    }

    /** What `shutil.move` falls back to when the rename fails: copy, then remove the source. */
    method CopyAcross(src: string, dst: string, rels: seq<string>, fate: TreeFate) returns (r: Result)
      requires !OnShow(files, dst) && Tree(files, src, rels) && |fate.fates| == |rels|
      modifies this
      ensures old(history) <= history && r != Refused
      ensures forall k | |old(history)| <= k < |history| ::
        Copied(history[k], src, old(files), src, rels) || Copied(history[k], dst, old(files), src, rels)
      ensures r == Ok ==> Copied(files, dst, old(files), src, rels) && !OnShow(files, src)
      ensures r == CopyCancelled ==> Copied(files, src, old(files), src, rels)
      ensures Exposed(history, |old(history)|, dst, old(files), src, rels) <==> fate.made && rels != []
      ensures r == Failed ==> (OnShow(files, dst) <==> fate.made)
      ensures !fate.made ==> r == Failed && files == old(files) && history == old(history)
      ensures r == Ok <==> fate.made && AllCopy(old(files), src, rels, fate.fates) && fate.stopsAt > |rels| && fate.flushed
      ensures r == CopyCancelled <==> fate.made && Stopped(old(files), src, rels, fate.fates, |rels|)
      ensures r == CopyCancelled ==> (OnShow(files, dst) <==> Stuck(history, |old(history)|, dst, fate.removable))
    {
      ghost var before, base := files, |history|;
      r := CopyTree(src, dst, rels, fate);
      if r == CopyCancelled {
        ClearCopy(src, dst, rels, fate.removable, before, base);
      } else if r == Ok {
        r := RemoveSource(src, dst, rels, fate, before, base);
      } else {
        if fate.made { SourceStays(history, base, before, src, dst, rels); }
        ExposedExactly(files, history, history, base, before, src, dst, rels, fate.made);
      }
    }

    /** The clean-up after a cancel. */
    method ClearCopy(src: string, dst: string, rels: seq<string>, removable: string -> bool, ghost before: Files, ghost base: nat)
      requires Tree(before, src, rels) && !OnShow(before, dst) && rels != [] && Copying(files, history, base, before, dst, rels)
      modifies this
      ensures old(history) <= history && Copied(files, src, before, src, rels)
      ensures forall k | base <= k < |history| :: Copied(history[k], src, before, src, rels)
      ensures Exposed(history, base, dst, before, src, rels)
      ensures OnShow(files, dst) <==> Stuck(history, base, dst, removable)
    {
      ghost var copied, past := files, history;
      assert Within(files, dst, rels);
      ClearTree(dst, rels, removable);
      ClearedSource(files, copied, past, history, base, before, src, dst, rels);
      StuckMeans(copied, past, history, base, before, dst, rels, removable);
      ExposedExactly(copied, past, history, base, before, src, dst, rels, true);
    }

    /** The source goes once all of it was copied. */
    method RemoveSource(src: string, dst: string, rels: seq<string>, fate: TreeFate, ghost before: Files, ghost base: nat) returns (r: Result)
      requires Tree(before, src, rels) && !OnShow(before, dst) && Copying(files, history, base, before, dst, rels)
      requires Copied(files, dst, before, src, rels)
      modifies this
      ensures old(history) <= history && OnShow(files, dst)
      ensures forall k | base <= k < |history| :: Copied(history[k], src, before, src, rels) || Copied(history[k], dst, before, src, rels)
      ensures r == if fate.stopsAt > |rels| && fate.flushed then Ok else Failed
      ensures r == Ok ==> Copied(files, dst, before, src, rels) && !OnShow(files, src)
      ensures Exposed(history, base, dst, before, src, rels) <==> rels != []
    {
      ghost var copied, past := files, history;
      SourceStays(history, base, before, src, dst, rels);
      SourceWithin(files, before, src, dst, rels);
      var removed := RemoveTree(src, rels, fate.stopsAt);
      DestinationStays(history, |past|, copied, before, src, dst, rels);
      DestinationStays([files], 0, copied, before, src, dst, rels);
      assert [files][0] == files;
      ExposedExactly(copied, past, history, base, before, src, dst, rels, true);
      r := if removed && fate.flushed then Ok else Failed;
    }

    /** `move_tree`. A destination that exists is refused. At every step the whole source is there or the whole
        destination is; unlike the move of a single file, a copy puts the destination on show while it is
        incomplete, and leaves it there when it fails or cannot be cleared. */
    method MoveTree(src: string, dst: string, rels: seq<string>, fate: TreeFate) returns (r: Result)
      requires !OnShow(files, dst) ==> Tree(files, src, rels) && |fate.fates| == |rels|
      modifies this
      ensures old(history) <= history
      ensures r == Refused <==> OnShow(old(files), dst)
      ensures r == Refused ==> files == old(files) && history == old(history)
      ensures r != Refused ==> forall k | |old(history)| <= k < |history| ::
        Copied(history[k], src, old(files), src, rels) || Copied(history[k], dst, old(files), src, rels)
      ensures r == Ok ==> Copied(files, dst, old(files), src, rels) && !OnShow(files, src)
      ensures r == CopyCancelled ==> Copied(files, src, old(files), src, rels)
      ensures r != Refused ==>
        (Exposed(history, |old(history)|, dst, old(files), src, rels) <==> !fate.renames && fate.made && rels != [])
      ensures r != Refused ==> (r == Ok <==>
        fate.flushed && (fate.renames || (fate.made && AllCopy(old(files), src, rels, fate.fates) && fate.stopsAt > |rels|)))
      ensures r != Refused && Smooth(fate, |rels|) ==> r == Ok
      ensures r != Refused ==>
        (r == CopyCancelled <==> !fate.renames && fate.made && Stopped(old(files), src, rels, fate.fates, |rels|))
      ensures r == Failed ==> (OnShow(files, dst) <==> fate.renames || fate.made)
      ensures r == Failed && !OnShow(files, dst) ==> files == old(files) && history == old(history)
      ensures r == CopyCancelled ==> (OnShow(files, dst) <==> Stuck(history, |old(history)|, dst, fate.removable))
    {
      if exists p | p in files :: p.root == dst { return Refused; }
      if fate.renames {
        RenameTree(src, dst, rels);
        return if fate.flushed then Ok else Failed;
      }
      if Smooth(fate, |rels|) { SmoothCopies(files, src, rels, fate); }
      r := CopyAcross(src, dst, rels, fate);
    }

    /** Two moves of one folder: after the first failed, the second is refused if and only if the first made the
        destination, by a rename or for a copy; otherwise nothing has changed and the second is as the first. */
    method MoveTwice(src: string, dst: string, rels: seq<string>, first: TreeFate, second: TreeFate) returns (r1: Result, r2: Result)
      requires !OnShow(files, dst) && Tree(files, src, rels) && |first.fates| == |rels| && |second.fates| == |rels|
      modifies this
      ensures r1 == Failed ==> (r2 == Refused <==> first.renames || first.made)
      ensures r1 == Failed && !(first.renames || first.made) && second.renames && second.flushed ==> r2 == Ok
    {
      r1 := MoveTree(src, dst, rels, first);
      r2 := r1;
      if r1 == Failed { r2 := MoveTree(src, dst, rels, second); }
    }
  }

  /** `now` is `before` with a beginning of the file `node` at `dst`. */
  predicate Growing(now: Files, before: Files, dst: Path, node: Node) {
    && node.File? && dst in now && now[dst].File? && now[dst].data <= node.data
    && now == before[dst := now[dst]]
  }

  /** The copy opens both files, sees no cancel and writes every chunk. */
  predicate CopiesWhole(node: Node, fate: Fate) {
    && node.File? && fate.open && (forall n | 0 <= n <= |node.data| :: !fate.cancelled(n))
    && (forall n | 0 <= n < |node.data| :: fate.written(n))
  }

  /** It sees a cancel before some chunk, or after the last, and no write before that failed. */
  predicate SeesCancel(node: Node, fate: Fate) {
    node.File? && fate.open && exists n | 0 <= n <= |node.data| :: fate.cancelled(n) && forall m | 0 <= m < n :: fate.written(m)
  }

  predicate Same(now: Files, before: Files, p: Path) {
    (p in now <==> p in before) && (p in now ==> now[p] == before[p])
  }

  predicate Holds(now: Files, p: Path, node: Node) { p in now && now[p] == node }

  predicate Safe(now: Files, before: Files, input: Path, output: Path)
    requires input in before
  {
    && (Same(now, before, input) || (output in now && now[output] == before[input]))
    && (Same(now, before, output) || (output in now && now[output] == before[input]))
  }

  /** What the writer leaves at the temporary path: its last draft, or what lay there before. */
  function Draft(files: Files, final: Path, drafts: seq<Data>): Node {
    if drafts != [] then File(drafts[|drafts| - 1])
    else if Temporary(final) in files then files[Temporary(final)]
    else File([])
  }

  // ----- folders -------------------------------------------------------------------------------

  /** The folder an entry lies in. */
  function ParentOf(rel: string): string {
    if rel == "" then ""
    else if rel[|rel| - 1] == '/' then rel[..|rel| - 1]
    else ParentOf(rel[..|rel| - 1])
  }

  predicate Distinct(rels: seq<string>) {
    forall i, j | 0 <= i < j < |rels| :: rels[i] != rels[j]
  }

  /** As a walk lists them: a folder before what lies in it. */
  predicate ParentsFirst(rels: seq<string>) {
    forall i | 0 <= i < |rels| :: rels[i] != "" && (ParentOf(rels[i]) == "" || ParentOf(rels[i]) in rels[..i])
  }

  /** Nothing lies below `root` but these entries. */
  predicate Within(now: Files, root: string, rels: seq<string>) {
    forall p | p in now && p.root == root :: p.rel == "" || p.rel in rels
  }

  /** `root` is a folder, and `rels` lists what lies in it, folders before their entries. */
  predicate Tree(files: Files, root: string, rels: seq<string>) {
    && Holds(files, Path(root, ""), Folder) && (forall rel | rel in rels :: Path(root, rel) in files)
    && Within(files, root, rels) && Distinct(rels) && ParentsFirst(rels)
    && (forall rel | rel in rels :: Holds(files, Path(root, ParentOf(rel)), Folder))
  }

  /** The folder `root` has every entry as `src` had it. */
  predicate Copied(now: Files, root: string, before: Files, src: string, rels: seq<string>)
    requires forall rel | rel in rels :: Path(src, rel) in before
  {
    Holds(now, Path(root, ""), Folder) && forall rel | rel in rels :: Holds(now, Path(root, rel), before[Path(src, rel)])
  }

  /** Nothing outside the folder `root` has changed. */
  ghost predicate OnlyTree(now: Files, before: Files, root: string) {
    forall p: Path | p.root != root :: Same(now, before, p)
  }

  /** The last state since `base`, if there is one, is the present one. */
  predicate Recorded(history: seq<Files>, base: nat, now: Files) {
    |history| > base ==> history[|history| - 1] == now
  }

  predicate OnShow(now: Files, root: string) {
    exists p | p in now :: p.root == root
  }

  /** Something of the folder is on show, but not all of it as `src` had it. */
  predicate Incomplete(now: Files, root: string, before: Files, src: string, rels: seq<string>)
    requires forall rel | rel in rels :: Path(src, rel) in before
  {
    OnShow(now, root) && !Copied(now, root, before, src, rels)
  }

  /** The folder was on show incomplete in some state since `base`. */
  predicate Exposed(history: seq<Files>, base: nat, root: string, before: Files, src: string, rels: seq<string>)
    requires forall rel | rel in rels :: Path(src, rel) in before
  {
    exists k | base <= k < |history| :: Incomplete(history[k], root, before, src, rels)
  }

  predicate HasEntry(files: Files, p: Path) {
    exists q | q in files :: q.root == p.root && q.rel != "" && ParentOf(q.rel) == p.rel
  }

  /** Something below `root` cannot be removed. */
  predicate Sticks(files: Files, root: string, removable: string -> bool) {
    exists p | p in files :: p.root == root && !removable(p.rel)
  }

  /** In some state since `base` something below `root` could not be removed. */
  predicate Stuck(history: seq<Files>, base: nat, root: string, removable: string -> bool) {
    exists k | base <= k < |history| :: Sticks(history[k], root, removable)
  }

  /** `p` is there as it was, or new, and nothing else has changed. */
  ghost predicate Adds(now: Files, before: Files, p: Path) {
    before.Keys <= now.Keys <= before.Keys + {p} && forall q | q in before && q != p :: now[q] == before[q]
  }

  /** The folder `dst` and entries of `rels` below it have come, nothing else has changed. */
  ghost predicate Grown(now: Files, before: Files, dst: string, rels: seq<string>) {
    OnlyTree(now, before, dst) && Within(now, dst, rels) && Holds(now, Path(dst, ""), Folder)
  }

  function Relocated(files: Files, src: string, dst: string, rels: seq<string>): Files
    requires Tree(files, src, rels)
  {
    var arrived := map p | p in (set rel | rel in [""] + rels :: Path(dst, rel)) :: files[Path(src, p.rel)];
    var stayed := map p | p in files && p.root != src :: files[p];
    stayed + arrived
  }

  lemma RelocatedMeans(files: Files, src: string, dst: string, rels: seq<string>)
    requires Tree(files, src, rels) && src != dst
    ensures var now := Relocated(files, src, dst, rels); Copied(now, dst, files, src, rels) && !OnShow(now, src)
  {
    forall rel | rel in [""] + rels ensures Holds(Relocated(files, src, dst, rels), Path(dst, rel), files[Path(src, rel)]) {
    }
  }

  /** A copy of a folder under way. */
  ghost predicate Copying(now: Files, history: seq<Files>, base: nat, before: Files, dst: string, rels: seq<string>) {
    && base < |history| && history[base] == before[Path(dst, "") := Folder]
    && Grown(now, before, dst, rels) && Recorded(history, base, now)
    && forall k | base <= k < |history| :: Grown(history[k], before, dst, rels) && history[k].Keys <= now.Keys
  }

  /** A folder is made, a file copied and flushed. */
  predicate EntryCopies(node: Node, fate: Fate) {
    if node.Folder? then fate.open else CopiesWhole(node, fate) && fate.synced
  }

  predicate AllCopy(before: Files, src: string, rels: seq<string>, fates: seq<Fate>)
    requires |fates| == |rels| && forall rel | rel in rels :: Path(src, rel) in before
  {
    forall i | 0 <= i < |rels| :: EntryCopies(before[Path(src, rels[i])], fates[i])
  }

  /** The copy comes to entry `i`: every folder it lies in could be made. */
  predicate Reached(before: Files, src: string, rels: seq<string>, fates: seq<Fate>, i: nat)
    requires i < |rels| == |fates| && forall rel | rel in rels :: Path(src, rel) in before
  {
    ParentOf(rels[i]) == "" || exists j | 0 <= j < i :: rels[j] == ParentOf(rels[i]) && fates[j].open && Reached(before, src, rels, fates, j)
  }

  /** Among the first `n` entries one is come to and its copy cancelled. */
  predicate Stopped(before: Files, src: string, rels: seq<string>, fates: seq<Fate>, n: nat)
    requires n <= |rels| == |fates| && forall rel | rel in rels :: Path(src, rel) in before
  {
    exists i | 0 <= i < n :: Reached(before, src, rels, fates, i) && SeesCancel(before[Path(src, rels[i])], fates[i])
  }

  /** Among the first `i` entries one was not come to or not copied. */
  predicate FailedBy(before: Files, src: string, rels: seq<string>, fates: seq<Fate>, i: nat)
    requires i <= |rels| == |fates| && forall rel | rel in rels :: Path(src, rel) in before
  {
    exists j | 0 <= j < i :: !(Reached(before, src, rels, fates, j) && EntryCopies(before[Path(src, rels[j])], fates[j]))
  }

  /** Of the first `i` entries the folders that could be made are there; the entries to come are not. */
  predicate MadeSoFar(now: Files, dst: string, before: Files, src: string, rels: seq<string>, fates: seq<Fate>, i: nat)
    requires i <= |rels| == |fates| && forall rel | rel in rels :: Path(src, rel) in before
  {
    && Path(dst, "") in now && (forall j | i <= j < |rels| :: Path(dst, rels[j]) !in now)
    && (forall j | 0 <= j < i && before[Path(src, rels[j])].Folder? ::
          Path(dst, rels[j]) in now <==> fates[j].open && Reached(before, src, rels, fates, j))
  }

  predicate Progress(now: Files, dst: string, before: Files, src: string, rels: seq<string>, fates: seq<Fate>, i: nat, failed: bool)
    requires i <= |rels| == |fates| && forall rel | rel in rels :: Path(src, rel) in before
  {
    && MadeSoFar(now, dst, before, src, rels, fates, i) && !Stopped(before, src, rels, fates, i)
    && (failed <==> FailedBy(before, src, rels, fates, i))
  }

  lemma ParentThere(now: Files, dst: string, before: Files, src: string, rels: seq<string>, fates: seq<Fate>, i: nat)
    requires i < |rels| == |fates| && Tree(before, src, rels) && MadeSoFar(now, dst, before, src, rels, fates, i)
    ensures Path(dst, ParentOf(rels[i])) in now <==> Reached(before, src, rels, fates, i)
  {
    var parent := ParentOf(rels[i]);
    if parent != "" {
      assert parent in rels[..i];
      var j :| 0 <= j < i && rels[..i][j] == parent;
      assert rels[j] == parent && Holds(before, Path(src, ParentOf(rels[i])), Folder);
    }
  }

  lemma StoppedMore(before: Files, src: string, rels: seq<string>, fates: seq<Fate>, i: nat)
    requires i < |rels| == |fates| && forall rel | rel in rels :: Path(src, rel) in before
    ensures Stopped(before, src, rels, fates, i + 1) <==>
      Stopped(before, src, rels, fates, i) || (Reached(before, src, rels, fates, i) && SeesCancel(before[Path(src, rels[i])], fates[i]))
    ensures Stopped(before, src, rels, fates, i + 1) ==> Stopped(before, src, rels, fates, |rels|)
  {
  }

  lemma FailedMore(before: Files, src: string, rels: seq<string>, fates: seq<Fate>, i: nat)
    requires i < |rels| == |fates| && forall rel | rel in rels :: Path(src, rel) in before
    ensures FailedBy(before, src, rels, fates, i + 1) <==>
      FailedBy(before, src, rels, fates, i) || !(Reached(before, src, rels, fates, i) && EntryCopies(before[Path(src, rels[i])], fates[i]))
  {
  }

  lemma MadeMore(was: Files, now: Files, dst: string, before: Files, src: string, rels: seq<string>, fates: seq<Fate>, i: nat)
    requires i < |rels| == |fates| && Tree(before, src, rels) && MadeSoFar(was, dst, before, src, rels, fates, i)
    requires Adds(now, was, Path(dst, rels[i]))
    requires before[Path(src, rels[i])].Folder? ==> (Path(dst, rels[i]) in now <==> fates[i].open && Reached(before, src, rels, fates, i))
    ensures MadeSoFar(now, dst, before, src, rels, fates, i + 1)
  {
    forall j | 0 <= j < |rels| && j != i ensures Path(dst, rels[j]) in now <==> Path(dst, rels[j]) in was {
      assert rels[j] != rels[i];
    }
  }

  lemma ProgressGoesOn(was: Files, now: Files, dst: string, before: Files, src: string, rels: seq<string>, fates: seq<Fate>, i: nat,
      failed: bool, one: Result)
    requires i < |rels| == |fates| && Tree(before, src, rels) && Progress(was, dst, before, src, rels, fates, i, failed)
    requires Adds(now, was, Path(dst, rels[i]))
    requires var there := Reached(before, src, rels, fates, i); var node := before[Path(src, rels[i])];
      && (one == Ok <==> there && EntryCopies(node, fates[i])) && (one == CopyCancelled <==> there && SeesCancel(node, fates[i]))
      && (one == Ok ==> Path(dst, rels[i]) in now) && (node.Folder? && one != Ok ==> now == was)
    ensures one == CopyCancelled ==> Stopped(before, src, rels, fates, |rels|)
    ensures one != CopyCancelled ==> Progress(now, dst, before, src, rels, fates, i + 1, failed || one != Ok)
  {
    StoppedMore(before, src, rels, fates, i);
    FailedMore(before, src, rels, fates, i);
    MadeMore(was, now, dst, before, src, rels, fates, i);
  }

  /** Every call of a move across file systems succeeds and nobody cancels it. */
  ghost predicate Smooth(fate: TreeFate, n: nat)
    requires |fate.fates| == n
  {
    && fate.made && fate.flushed && fate.stopsAt > n
    && forall i | 0 <= i < n :: fate.fates[i].open && fate.fates[i].synced && forall k: nat :: !fate.fates[i].cancelled(k) && fate.fates[i].written(k)
  }

  lemma SmoothCopies(before: Files, src: string, rels: seq<string>, fate: TreeFate)
    requires |fate.fates| == |rels| && Tree(before, src, rels) && Smooth(fate, |rels|)
    ensures AllCopy(before, src, rels, fate.fates)
  {
  }

  lemma NothingFailed(before: Files, src: string, rels: seq<string>, fates: seq<Fate>)
    requires |fates| == |rels| && Tree(before, src, rels)
    ensures !FailedBy(before, src, rels, fates, |rels|) <==> AllCopy(before, src, rels, fates)
    ensures AllCopy(before, src, rels, fates) ==> !Stopped(before, src, rels, fates, |rels|)
  {
    AllReached(before, src, rels, fates);
  }

  /** When every entry copies, every entry is come to. */
  lemma AllReached(before: Files, src: string, rels: seq<string>, fates: seq<Fate>)
    requires |fates| == |rels| && Tree(before, src, rels)
    ensures AllCopy(before, src, rels, fates) ==> forall i | 0 <= i < |rels| :: Reached(before, src, rels, fates, i)
    ensures AllCopy(before, src, rels, fates) ==> !Stopped(before, src, rels, fates, |rels|)
  {
    if AllCopy(before, src, rels, fates) {
      forall i | 0 <= i < |rels| ensures Reached(before, src, rels, fates, i) {
        ReachedWhenAllCopy(before, src, rels, fates, i);
      }
    }
  }

  lemma {:induction false} ReachedWhenAllCopy(before: Files, src: string, rels: seq<string>, fates: seq<Fate>, i: nat)
    requires i < |rels| == |fates| && Tree(before, src, rels) && AllCopy(before, src, rels, fates)
    ensures Reached(before, src, rels, fates, i)
    decreases i
  {
    if ParentOf(rels[i]) != "" {
      var j :| 0 <= j < i && rels[..i][j] == ParentOf(rels[i]);
      assert rels[j] == ParentOf(rels[i]) && Holds(before, Path(src, ParentOf(rels[i])), Folder);
      ReachedWhenAllCopy(before, src, rels, fates, j);
    }
  }

  lemma CopyingStarts(history: seq<Files>, before: Files, dst: string, rels: seq<string>)
    requires !OnShow(before, dst)
    ensures var now := before[Path(dst, "") := Folder]; Copying(now, history + [now], |history|, before, dst, rels)
  {
  }

  lemma CopyingGoesOn(was: Files, past: seq<Files>, now: Files, history: seq<Files>, base: nat, before: Files, dst: string,
      rels: seq<string>, i: nat)
    requires i < |rels| && rels[i] != "" && Copying(was, past, base, before, dst, rels)
    requires past <= history && Adds(now, was, Path(dst, rels[i])) && Recorded(history, |past|, now) && (history == past ==> now == was)
    requires forall k | |past| <= k < |history| :: Adds(history[k], was, Path(dst, rels[i])) && history[k].Keys <= now.Keys
    ensures Copying(now, history, base, before, dst, rels)
  {
    forall k | base <= k < |history| ensures Grown(history[k], before, dst, rels) && history[k].Keys <= now.Keys {
      if k < |past| { assert history[k] == past[k]; } else { AddsGrown(history[k], was, before, dst, rels, i); }
    }
    AddsGrown(now, was, before, dst, rels, i);
  }

  lemma CopiedOneMore(was: Files, now: Files, before: Files, src: string, dst: string, rels: seq<string>, i: nat)
    requires i < |rels| && src != dst && rels[i] != "" && Distinct(rels) && forall rel | rel in rels :: Path(src, rel) in before
    requires Grown(was, before, dst, rels) && Copied(was, dst, before, src, rels[..i])
    requires Path(src, rels[i]) in was && now == was[Path(dst, rels[i]) := was[Path(src, rels[i])]]
    ensures Copied(now, dst, before, src, rels[..i + 1])
  {
    assert rels[..i + 1] == rels[..i] + [rels[i]];
    assert Same(was, before, Path(src, rels[i]));
  }

  lemma AddsGrown(now: Files, was: Files, before: Files, dst: string, rels: seq<string>, i: nat)
    requires i < |rels| && rels[i] != "" && Grown(was, before, dst, rels) && Adds(now, was, Path(dst, rels[i]))
    ensures Grown(now, before, dst, rels)
  {
    forall p: Path | p.root != dst ensures Same(now, before, p) {
      assert Same(was, before, p);
    }
  }

  /** While only the destination changes the whole source is there. */
  lemma SourceStays(history: seq<Files>, base: nat, before: Files, src: string, dst: string, rels: seq<string>)
    requires Tree(before, src, rels) && src != dst && forall k | base <= k < |history| :: OnlyTree(history[k], before, dst)
    ensures forall k | base <= k < |history| :: Copied(history[k], src, before, src, rels)
  {
    forall k | base <= k < |history| ensures Copied(history[k], src, before, src, rels) {
      assert Same(history[k], before, Path(src, ""));
      assert forall rel | rel in rels :: Same(history[k], before, Path(src, rel));
    }
  }

  lemma ClearedSource(now: Files, copied: Files, past: seq<Files>, history: seq<Files>, base: nat, before: Files, src: string, dst: string, rels: seq<string>)
    requires Tree(before, src, rels) && src != dst && past <= history && Copying(copied, past, base, before, dst, rels)
    requires OnlyTree(now, copied, dst) && forall k | |past| <= k < |history| :: OnlyTree(history[k], copied, dst)
    ensures Copied(now, src, before, src, rels)
    ensures forall k | base <= k < |history| :: Copied(history[k], src, before, src, rels)
  {
    OnlyTreeTwice(now, copied, before, dst);
    SourceStays([now], 0, before, src, dst, rels);
    assert [now][0] == now;
    forall k | base <= k < |history| ensures OnlyTree(history[k], before, dst) {
      if k < |past| { assert history[k] == past[k]; } else { OnlyTreeTwice(history[k], copied, before, dst); }
    }
    SourceStays(history, base, before, src, dst, rels);
  }

  lemma OnlyTreeTwice(now: Files, copied: Files, before: Files, root: string)
    requires OnlyTree(now, copied, root) && OnlyTree(copied, before, root)
    ensures OnlyTree(now, before, root)
  {
    forall p: Path | p.root != root ensures Same(now, before, p) {
      assert Same(now, copied, p) && Same(copied, before, p);
    }
  }

  lemma SourceWithin(now: Files, before: Files, src: string, dst: string, rels: seq<string>)
    requires Tree(before, src, rels) && src != dst && OnlyTree(now, before, dst)
    ensures Within(now, src, rels)
  {
    forall p | p in now && p.root == src ensures p.rel == "" || p.rel in rels {
      assert Same(now, before, p);
    }
  }

  /** While only the source is removed the whole destination is there. */
  lemma DestinationStays(history: seq<Files>, base: nat, copied: Files, before: Files, src: string, dst: string, rels: seq<string>)
    requires Tree(before, src, rels) && src != dst && Copied(copied, dst, before, src, rels)
    requires forall k | base <= k < |history| :: OnlyTree(history[k], copied, src)
    ensures forall k | base <= k < |history| :: Copied(history[k], dst, before, src, rels)
  {
    forall k | base <= k < |history| ensures Copied(history[k], dst, before, src, rels) {
      assert Same(history[k], copied, Path(dst, ""));
      assert forall rel | rel in rels :: Same(history[k], copied, Path(dst, rel));
    }
  }

  /** Once entry `n` was tried, nothing that can be removed is left from there on, unless something sticks. */
  lemma ClearedOne(was: Files, now: Files, root: string, rels: seq<string>, n: nat, removable: string -> bool)
    requires n < |rels| && ParentsFirst(rels) && Distinct(rels)
    requires var p := Path(root, rels[n]);
      now == if p in was && removable(rels[n]) && !HasEntry(was, p) then was - {p} else was
    requires !Sticks(was, root, removable) ==> Within(was, root, rels[..n + 1])
    ensures Sticks(now, root, removable) <==> Sticks(was, root, removable)
    ensures !Sticks(now, root, removable) ==> Within(now, root, rels[..n])
  {
    assert rels[..n + 1] == rels[..n] + [rels[n]];
    var p := Path(root, rels[n]);
    if q :| q in was && q.root == root && !removable(q.rel) {
      assert q in now;
    } else if p in was {
      NoEntryLeft(was, root, rels, n);
    }
  }

  lemma NoEntryLeft(was: Files, root: string, rels: seq<string>, n: nat)
    requires n < |rels| && ParentsFirst(rels) && Distinct(rels) && Within(was, root, rels[..n + 1])
    ensures !HasEntry(was, Path(root, rels[n]))
  {
    forall q | q in was && q.root == root && q.rel != "" ensures ParentOf(q.rel) != rels[n] {
      assert q.rel in rels[..n + 1];
      var j :| 0 <= j <= n && rels[j] == q.rel;
      assert rels[n] !in rels[..j];
    }
  }

  /** What stays on show after the clean-up is what could not be removed of anything the copy made. */
  lemma StuckMeans(copied: Files, past: seq<Files>, history: seq<Files>, base: nat, before: Files, dst: string, rels: seq<string>, removable: string -> bool)
    requires past <= history && Copying(copied, past, base, before, dst, rels)
    requires forall k | |past| <= k < |history| :: history[k].Keys <= copied.Keys
    ensures Stuck(history, base, dst, removable) <==> Sticks(copied, dst, removable)
  {
  }

  /** The destination is on show incomplete as soon as it was made for a copy and there is an entry to copy. */
  lemma ExposedExactly(copied: Files, past: seq<Files>, history: seq<Files>, base: nat, before: Files, src: string, dst: string,
      rels: seq<string>, made: bool)
    requires base <= |past| && past <= history && Tree(before, src, rels) && !OnShow(before, dst)
    requires if made then Copying(copied, past, base, before, dst, rels) else |history| == base
    requires forall k | |past| <= k < |history| :: rels != [] || Copied(history[k], dst, before, src, rels)
    ensures Exposed(history, base, dst, before, src, rels) <==> made && rels != []
  {
    if made && rels != [] {
      assert history[base] == past[base];
      assert rels[0] in rels && Path(dst, rels[0]) !in history[base];
      assert Path(dst, "") in history[base];
      assert Incomplete(history[base], dst, before, src, rels);
    } else if made {
      forall k | base <= k < |history| ensures Copied(history[k], dst, before, src, rels) {
        if k < |past| { assert history[k] == past[k] && Grown(past[k], before, dst, rels); }
      }
    }
  }
}
