/**
 The operations of `WasmFileSystem` on the tree of the origin private file system,
 down to the calls that open, create and remove one entry. Every call into the
 browser may fail; when none does the file system is calm.

 Paths here are lists of names: the paths that `copy_directory` builds and resolves
 again give the same names (`OpfsPath.SplitOneMore`, `OpfsPath.SplitJoined`).
 */
module OpfsFiles {
  import opened Common
  import opened OpfsPath
  import opened OpfsTree

  datatype Failure =
    | BadPath(error: Error) | NotFound | NotADirectory | IsADirectory | NotEmpty | Device

  datatype Outcome<T> = Done(value: T) | Failed(failure: Failure)

  datatype Renaming = Renamed | IntoItself | NotRenamed(failure: Failure)

  datatype Kind = FileKind | DirectoryKind

  /** What is at `k` once the directories on the way to `names` exist. */
  ghost function MadeAt(t: Tree, names: Path, k: Path): Option<Entry> {
    if k in t then Some(t[k])
    else if k <= names then Some(Directory)
    else None
  }

  ghost predicate IsMade(t: Tree, names: Path, u: Tree) {
    forall k :: At(u, k) == MadeAt(t, names, k)
  }

  ghost predicate IsPartlyMade(t: Tree, names: Path, u: Tree) {
    exists i :: 0 <= i <= |names| && IsMade(t, names[..i], u)
  }

  lemma StepMade(t: Tree, names: Path, i: nat, u: Tree, v: Tree)
    requires WellFormed(t) && i < |names| && IsMade(t, names[..i], u)
    requires names[..i + 1] !in u && v == u[names[..i + 1] := Directory]
    ensures IsMade(t, names[..i + 1], v)
  {
    var path := names[..i + 1];
    forall k ensures At(v, k) == MadeAt(t, path, k) {
      assert At(u, k) == MadeAt(t, names[..i], k);
      if k <= path && k != path {
        assert k == path[..|k|] == names[..i][..|k|];
      }
    }
  }

  lemma StepPresent(t: Tree, names: Path, i: nat, u: Tree)
    requires WellFormed(u) && i < |names| && IsMade(t, names[..i], u)
    requires names[..i + 1] in u
    ensures IsMade(t, names[..i + 1], u)
  {
    var path := names[..i + 1];
    forall k ensures At(u, k) == MadeAt(t, path, k) {
      assert At(u, k) == MadeAt(t, names[..i], k);
      if k <= path {
        PrefixPresent(u, path, k);
        assert k == path[..|k|];
        if |k| <= i {
          assert path[..|k|] == names[..i][..|k|];
        }
      }
    }
  }

  lemma StaysWellFormed(t: Tree, path: Path, entry: Entry)
    requires WellFormed(t) && path != [] && IsDir(t, Parent(path)) && !IsDir(t, path)
    ensures WellFormed(t[path := entry])
  {
    forall k | k in t && k != [] ensures Parent(k) != path {
    }
  }

  lemma PathMissing(t: Tree, names: Path, i: nat)
    requires WellFormed(t) && i <= |names| && !IsDir(t, names[..i])
    ensures !IsDir(t, names)
  {
    if i < |names| && names in t {
      AncestorIsDir(t, names, i);
    } else if i == |names| {
      assert names[..i] == names;
    }
  }

  lemma WasReachable(t: Tree, names: Path, u: Tree)
    requires WellFormed(u) && IsDir(u, names) && IsMade(t, names, u)
    ensures Reachable(t, names)
  {
    forall i | 0 <= i <= |names| && names[..i] in t ensures t[names[..i]].Directory? {
      assert At(u, names[..i]) == MadeAt(t, names, names[..i]);
      if i < |names| {
        AncestorIsDir(u, names, i);
      } else {
        assert names[..i] == names;
      }
    }
  }

  lemma FileHasParent(t: Tree, path: Path)
    requires WellFormed(t) && IsFile(t, path)
    ensures path != [] && IsDir(t, Parent(path))
  {
  }

  lemma FileReplaced(t: Tree, path: Path, contents: seq<byte>)
    requires WellFormed(t) && IsFile(t, path)
    ensures WellFormed(t[path := File(contents)])
  {
  }

  /** A file was made at `path`, and not written. */
  ghost predicate IsNewFile(t: Tree, path: Path, u: Tree) {
    path !in t && path != [] && IsDir(t, Parent(path)) && u == t[path := File([])]
  }

  ghost predicate CanRemove(t: Tree, path: Path, kind: Kind, recursive: bool) {
    path != [] && path in t && (kind.FileKind? <==> t[path].File?) &&
    (recursive || forall k :: k in t ==> !(path < k))
  }

  lemma WithoutWellFormed(t: Tree, path: Path)
    requires WellFormed(t) && path != []
    ensures WellFormed(Without(t, path))
  {
    forall k | k in Without(t, path) && k != [] ensures IsDir(Without(t, path), Parent(k)) {
    }
  }

  // Bounds on what is copied

  ghost predicate Fits(k: Path, depth: nat, names: set<Name>) {
    |k| <= depth && forall i :: 0 <= i < |k| ==> k[i] in names
  }

  /** The source of a move is finite, and stays so while it is copied. */
  ghost predicate Bounded(t: Tree, top: Path, depth: nat, names: set<Name>) {
    forall k :: k in t && top <= k ==> Fits(k, depth, names)
  }

  /** Where a copy of `from` to `to` meets the source of the move that it is part of, it
      copies upwards. */
  ghost predicate Upwards(top: Path, from: Path, to: Path, depth: nat, names: set<Name>) {
    top <= from && Fits(from, depth, names) &&
    (top <= to ==> |to| < |from| && Fits(to, depth, names))
  }

  lemma ChildUpwards(t: Tree, top: Path, from: Path, to: Path, depth: nat, names: set<Name>, name: Name)
    requires Upwards(top, from, to, depth, names) && Bounded(t, top, depth, names)
    requires from + [name] in t
    ensures Upwards(top, from + [name], to + [name], depth, names) && name in names && |from| < depth
  {
    var source, dest := from + [name], to + [name];
    assert Fits(source, depth, names);
    assert source[|from|] == name;
    if top <= dest && !(top <= to) {
      assert top == dest;
    }
  }

  /** No entry goes away or changes its kind. */
  ghost predicate KeepsEntries(t: Tree, u: Tree) {
    forall k :: k in t ==> k in u && (u[k].Directory? <==> t[k].Directory?)
  }

  ghost predicate OnlyDirs(t: Tree) {
    forall k :: k in t ==> t[k].Directory?
  }

  lemma KeepsEntriesOn(t: Tree, u: Tree, v: Tree, k: Path)
    requires KeepsEntries(t, u) && KeepsEntries(u, v)
    ensures KeepsEntries(t, v) && (IsDir(u, k) ==> IsDir(v, k))
  {
  }

  lemma MadeBounded(t: Tree, to: Path, u: Tree, top: Path, from: Path, depth: nat, names: set<Name>)
    requires IsPartlyMade(t, to, u)
    requires Bounded(t, top, depth, names) && Upwards(top, from, to, depth, names)
    ensures Bounded(u, top, depth, names) && KeepsEntries(t, u)
    ensures OnlyDirs(t) ==> OnlyDirs(u) && Reachable(t, to)
  {
    var i :| 0 <= i <= |to| && IsMade(t, to[..i], u);
    forall k | k in u ensures k in t || u[k].Directory? {
      assert At(u, k) == MadeAt(t, to[..i], k);
    }
    forall k | k in t ensures k in u && u[k] == t[k] {
      assert At(u, k) == MadeAt(t, to[..i], k);
    }
    forall k | k in u && top <= k ensures Fits(k, depth, names) {
      assert At(u, k) == MadeAt(t, to[..i], k);
      if k !in t {
        assert k == to[..i][..|k|] == to[..|k|];
        assert top <= to;
      }
    }
  }

  // Steps of a copy

  lemma StartCopy(t: Tree, from: Path, to: Path, u: Tree)
    requires IsPartlyMade(t, to, u)
    ensures Between(t, from, to, u)
    ensures IsMade(t, to, u) && Reachable(t, to) ==>
      IsCopied(t, from, to, iset{}, u) && Mergeable(t, from, to, iset{})
  {
    var i :| 0 <= i <= |to| && IsMade(t, to[..i], u);
    forall k ensures At(u, k) == At(t, k) || At(u, k) == CopiedAt(t, from, to, ALL, k) {
      assert At(u, k) == MadeAt(t, to[..i], k);
      if k !in t && k <= to[..i] {
        assert k == to[..i][..|k|] == to[..|k|];
      }
    }
    if IsMade(t, to, u) {
      forall k ensures At(u, k) == CopiedAt(t, from, to, iset{}, k) {
        assert At(u, k) == MadeAt(t, to, k);
      }
    }
  }

  lemma PartKeepsSource(t: Tree, from: Path, to: Path, names: iset<Name>, u: Tree)
    requires from in t && Apart(t, from, to) && IsCopied(t, from, to, names, u)
    ensures SourceKept(t, from, u) && At(u, from) == At(t, from)
  {
    PartIsBetween(t, from, to, names, u);
    KeepsSource(t, from, to, u);
  }

  lemma FinishCopy(t: Tree, from: Path, to: Path, names: iset<Name>, u: Tree)
    requires WellFormed(t) && IsCopied(t, from, to, names, u) && Mergeable(t, from, to, names)
    requires SourceKept(t, from, u)
    requires forall name :: from + [name] in u ==> name in names
    ensures IsCopied(t, from, to, ALL, u) && Mergeable(t, from, to, ALL)
  {
    forall name | from + [name] in t ensures name in names {
      assert At(u, from + [name]) == At(t, from + [name]);
    }
    AllCopied(t, from, to, names, u);
  }

  lemma BeforePut(t: Tree, from: Path, to: Path, names: iset<Name>, u: Tree, name: Name)
    requires SourceKept(t, from, u) && IsCopied(t, from, to, names, u)
    requires name !in names && from + [name] in u
    ensures Mergeable(t, from, to, ALL) ==> CanPut(u, from + [name], to + [name])
  {
    assert At(u, from + [name]) == At(t, from + [name]);
    if Mergeable(t, from, to, ALL) {
      assert Mergeable(t, from, to, names + iset{name});
      CanPutNext(t, from, to, names, u, name);
    }
  }

  lemma AfterPut(t: Tree, from: Path, to: Path, names: iset<Name>, u: Tree, name: Name, v: Tree, done: bool)
    requires WellFormed(t) && WellFormed(u) && SourceKept(t, from, u) && to in u
    requires IsCopied(t, from, to, names, u) && Mergeable(t, from, to, names) && name !in names
    requires if done then IsPut(u, from + [name], to + [name], v) else IsPartlyPut(u, from + [name], to + [name], v)
    ensures done ==>
      IsCopied(t, from, to, names + iset{name}, v) && Mergeable(t, from, to, names + iset{name})
    ensures !done ==> Between(t, from, to, v)
  {
    if done {
      PutOne(t, from, to, names, u, name, v);
      PutIsMergeable(t, from, to, names, u, name);
    } else {
      PartlyPutOne(t, from, to, names, u, name, v);
    }
  }

  // Renaming

  /** A directory that is renamed to its ancestor holds an entry at the path that leads
      to it from there. */
  ghost predicate Overlaps(t: Tree, from: Path, to: Path) {
    to <= from && from + from[|to|..] in t
  }

  /** When a rename of different paths is possible. */
  ghost predicate CanRename(t: Tree, from: Path, to: Path) {
    from in t &&
    if t[from].File? then to != [] && IsDir(t, Parent(to)) && !IsDir(t, to)
    else !(from <= to) && Mergeable(t, from, to, ALL)
  }

  /** What a rename that fails may leave. */
  ghost predicate FailedBetween(t: Tree, from: Path, to: Path, u: Tree) {
    u == t ||
    (IsDir(t, from) && Between(t, from, to, u)) ||
    (IsFile(t, from) && (u == t[to := t[from]] || IsNewFile(t, to, u)))
  }

  /** What a rename promises: `u` is the tree after a rename of `from` to `to` in the tree
      `t`, which was calm or not, with the result `r`. */
  ghost predicate RenamesAs(t: Tree, from: Path, to: Path, calm: bool, r: Renaming, u: Tree) {
    && KeepsUnlessMoved(t, from, to, r, u)
    && (r.IntoItself? ==> IsDir(t, from) && from < to)
    && (calm && IsDir(t, from) && from < to ==> r.IntoItself?)
    && (calm && from == to && from in t ==> r.Renamed?)
    && (from != to && r.Renamed? ==> from in t && from !in u)
    && (from != to && r.Renamed? ==> (IsMoved(t, from, to, u) <==> !Overlaps(t, from, to)))
    && (from != to && !Overlaps(t, from, to) ==>
          && (r.Renamed? ==> CanRename(t, from, to))
          && (calm && CanRename(t, from, to) ==> r.Renamed?)
          && (!r.Renamed? ==> SourceKept(t, from, u) && FailedBetween(t, from, to, u)))
    && (calm && OnlyDirs(t) && from in t && !(from < to) ==> r.Renamed?)
  }

  /** Equal paths and a path below the source change nothing; a failure in any other case
      keeps every entry, if not its contents. */
  ghost predicate KeepsUnlessMoved(t: Tree, from: Path, to: Path, r: Renaming, u: Tree) {
    && (from == to ==> u == t && !r.IntoItself? && (r.Renamed? ==> from in t))
    && (from < to ==> u == t && !r.Renamed?)
    && (!r.Renamed? ==> KeepsEntries(t, u))
  }

  lemma FileStaysPut(t: Tree, from: Path, to: Path)
    requires WellFormed(t) && IsFile(t, from)
    requires from <= to && from != to && to != []
    ensures !IsDir(t, Parent(to))
  {
    assert from <= Parent(to);
    if from != Parent(to) {
      NothingInFile(t, from, Parent(to));
    }
  }

  lemma FileCopied(t: Tree, from: Path, to: Path)
    requires WellFormed(t) && IsFile(t, from) && from != to
    requires to != [] && IsDir(t, Parent(to)) && !IsDir(t, to)
    ensures !(from <= to) && !Overlaps(t, from, to) && CanRename(t, from, to)
    ensures var u := t[to := t[from]];
      SourceKept(t, from, u) && FailedBetween(t, from, to, u) && KeepsEntries(t, u)
  {
    if from <= to {
      FileStaysPut(t, from, to);
    }
    if to <= from {
      NothingInFile(t, from, from + from[|to|..]);
    }
  }

  lemma FileMoved(t: Tree, from: Path, to: Path)
    requires WellFormed(t) && IsFile(t, from) && from != to
    requires to != [] && IsDir(t, Parent(to)) && !IsDir(t, to)
    ensures IsMoved(t, from, to, Without(t[to := t[from]], from))
  {
    FileCopied(t, from, to);
    var u := Without(t[to := t[from]], from);
    forall k ensures At(u, k) == MovedAt(t, from, to, k) {
      if to <= k {
        if k == to {
          assert Origin(from, to, k) == from;
        } else {
          NothingInFile(t, from, Origin(from, to, k));
        }
      }
      if k <= to && k != to {
        assert k <= Parent(to);
        PrefixPresent(t, Parent(to), k);
      }
    }
  }

  lemma FileNotCopied(t: Tree, from: Path, to: Path, u: Tree)
    requires WellFormed(t) && IsFile(t, from) && from != to
    requires u == t || IsNewFile(t, to, u)
    ensures SourceKept(t, from, u) && FailedBetween(t, from, to, u) && KeepsEntries(t, u)
    ensures from <= to ==> u == t && !CanRename(t, from, to)
  {
    if from <= to && to != [] {
      FileStaysPut(t, from, to);
    }
  }

  lemma FileIsLeaf(t: Tree, file: Path)
    requires WellFormed(t) && IsFile(t, file)
    ensures CanRemove(t, file, FileKind, false)
  {
    forall k | k in t ensures !(file < k) {
      if file < k {
        NothingInFile(t, file, k);
      }
    }
  }

  lemma DirectoryCopied(t: Tree, from: Path, to: Path, u: Tree)
    requires WellFormed(t) && IsDir(t, from) && !(from <= to) && Apart(t, from, to)
    requires Mergeable(t, from, to, ALL) && IsCopied(t, from, to, ALL, u)
    ensures SourceKept(t, from, u) && FailedBetween(t, from, to, u)
    ensures CanRename(t, from, to) && IsMoved(t, from, to, Without(u, from))
  {
    PartKeepsSource(t, from, to, ALL, u);
    PartIsBetween(t, from, to, ALL, u);
    CopyThenRemove(t, from, to, u);
  }

  lemma DirectoryNotCopied(t: Tree, from: Path, to: Path, u: Tree)
    requires IsDir(t, from) && Apart(t, from, to) && Between(t, from, to, u)
    ensures SourceKept(t, from, u) && FailedBetween(t, from, to, u)
  {
    KeepsSource(t, from, to, u);
  }

  lemma IsBounded(t: Tree, top: Path) returns (depth: nat, names: set<Name>)
    ensures Bounded(t, top, depth, names)
  {
    depth, names := 0, {};
    var left := t.Keys;
    while left != {}
      invariant left <= t.Keys
      invariant forall k :: k in t && k !in left ==> Fits(k, depth, names)
    {
      var k :| k in left;
      left := left - {k};
      depth := if |k| > depth then |k| else depth;
      names := names + set i | 0 <= i < |k| :: k[i];
    }
  }

  class FileSystem {
    var tree: Tree
    /** Which of the next calls into the browser fail. */
    var faults: seq<bool>
    ghost var trouble: bool  // a call has failed

    constructor (tree: Tree)
      ensures this.tree == tree && faults == [] && !trouble
    {
      this.tree, faults, trouble := tree, [], false;
    }

    ghost predicate Calm() reads this {
      true !in faults
    }

    method Await() returns (failed: bool)
      modifies this`faults, this`trouble
      ensures failed <==> old(faults) != [] && old(faults)[0]
      ensures faults == if old(faults) == [] then [] else old(faults)[1..]
      ensures trouble == (old(trouble) || failed)
      ensures old(Calm()) ==> Calm() && !failed
    {
      failed := faults != [] && faults[0];
      trouble := trouble || failed;
      if faults != [] {
        faults := faults[1..];
      }
    }

    /** `directory_at` */
    method DirectoryAt(names: Path, create: bool) returns (r: Outcome<()>)
      requires WellFormed(tree)
      modifies this
      ensures WellFormed(tree) && (old(Calm()) ==> Calm())
      ensures (old(trouble) ==> trouble) && (r.Done? ==> trouble == old(trouble)) && (r == Failed(Device) ==> trouble)
      ensures !create ==> tree == old(tree)
      ensures r.Done? ==> IsDir(tree, names)
      ensures create && r.Done? ==> IsMade(old(tree), names, tree) && Reachable(old(tree), names)
      ensures create ==> IsPartlyMade(old(tree), names, tree)
      ensures old(Calm()) ==>
        (r.Done? <==> if create then Reachable(old(tree), names) else IsDir(old(tree), names))
    {
      ghost var before := tree;
      assert names[..0] == [];
      var failed := Await();
      if failed {
        assert IsMade(before, names[..0], tree);
        return Failed(Device);
      }
      for i := 0 to |names|
        invariant WellFormed(tree) && (old(Calm()) ==> Calm()) && trouble == old(trouble)
        invariant IsDir(tree, names[..i])
        invariant create ==> IsMade(before, names[..i], tree)
        invariant !create ==> tree == before
      {
        var path := names[..i + 1];
        assert Parent(path) == names[..i];
        failed := Await();
        if failed {
          return Failed(Device);
        }
        if path !in tree {
          if !create {
            PathMissing(tree, names, i + 1);
            return Failed(NotFound);
          }
          StaysWellFormed(tree, path, Directory);
          StepMade(before, names, i, tree, tree[path := Directory]);
          tree := tree[path := Directory];
        } else if tree[path].File? {
          PathMissing(tree, names, i + 1);
          if create {
            assert At(tree, path) == MadeAt(before, names[..i], path);
          }
          return Failed(NotADirectory);
        } else if create {
          StepPresent(before, names, i, tree);
        }
      }
      assert names[..|names|] == names;
      if create {
        WasReachable(before, names, tree);
      }
      return Done(());
    }

    /** `path_metadata`: the kind of the entry. */
    method PathMetadata(path: Path) returns (r: Outcome<Kind>)
      requires WellFormed(tree)
      modifies this
      ensures tree == old(tree) && (old(Calm()) ==> Calm())
      ensures (old(trouble) ==> trouble) && (r.Done? ==> trouble == old(trouble)) && (r == Failed(Device) ==> trouble)
      ensures r.Done? ==> path in tree && (r.value.FileKind? <==> tree[path].File?)
      ensures old(Calm()) ==> (r.Done? <==> path in tree)
    {
      if path == [] {
        var root := DirectoryAt([], false);
        return match root case Done(_) => Done(DirectoryKind) case Failed(failure) => Failed(failure);
      }
      var parent := DirectoryAt(Parent(path), false);
      if parent.Failed? {
        return Failed(parent.failure);
      }
      var failed := Await();
      if failed {
        return Failed(Device);
      }
      if path !in tree {
        return Failed(NotFound);
      }
      failed := Await();
      if failed {
        return Failed(Device);
      }
      return Done(if tree[path].File? then FileKind else DirectoryKind);
    }

    /** `file_at` */
    method FileAt(path: Path, create: bool) returns (r: Outcome<()>)
      requires WellFormed(tree)
      modifies this
      ensures WellFormed(tree) && (old(Calm()) ==> Calm())
      ensures (old(trouble) ==> trouble) && (r.Done? ==> trouble == old(trouble)) && (r == Failed(Device) ==> trouble)
      ensures r.Done? ==> IsFile(tree, path)
      ensures tree == (if r.Done? && path !in old(tree) then old(tree)[path := File([])] else old(tree))
      ensures r.Done? && !create ==> path in old(tree)
      ensures old(Calm()) ==>
        (r.Done? <==> path != [] && IsDir(old(tree), Parent(path)) && !IsDir(old(tree), path) &&
                      (create || path in old(tree)))
    {
      if path == [] {
        return Failed(BadPath(NamesRoot));
      }
      var parent := DirectoryAt(Parent(path), false);
      if parent.Failed? {
        return Failed(parent.failure);
      }
      var failed := Await();
      if failed {
        return Failed(Device);
      }
      if path !in tree {
        if !create {
          return Failed(NotFound);
        }
        StaysWellFormed(tree, path, File([]));
        tree := tree[path := File([])];
      } else if tree[path].Directory? {
        return Failed(IsADirectory);
      }
      return Done(());
    }

    method Read(path: Path) returns (r: Outcome<seq<byte>>)
      requires WellFormed(tree)
      modifies this
      ensures tree == old(tree) && (old(Calm()) ==> Calm())
      ensures (old(trouble) ==> trouble) && (r.Done? ==> trouble == old(trouble)) && (r == Failed(Device) ==> trouble)
      ensures r.Done? ==> path in tree && tree[path] == File(r.value)
      ensures old(Calm()) ==> (r.Done? <==> IsFile(tree, path))
    {
      var file := FileAt(path, false);
      if file.Failed? {
        return Failed(file.failure);
      }
      var failed := Await();
      if failed {
        return Failed(Device);
      }
      return Done(tree[path].contents);
    }

    /** `write`: the file is made first, and new contents take effect when the stream
        closes. */
    method Write(path: Path, contents: seq<byte>) returns (r: Outcome<()>)
      requires WellFormed(tree)
      modifies this
      ensures WellFormed(tree) && (old(Calm()) ==> Calm())
      ensures (old(trouble) ==> trouble) && (r.Done? ==> trouble == old(trouble)) && (r == Failed(Device) ==> trouble)
      ensures r.Done? ==> tree == old(tree)[path := File(contents)] && !IsDir(old(tree), path)
      ensures r.Done? ==> path != [] && IsDir(old(tree), Parent(path))
      ensures r.Failed? ==>
        tree == old(tree) || IsNewFile(old(tree), path, tree)
      ensures old(Calm()) ==>
        (r.Done? <==> path != [] && IsDir(old(tree), Parent(path)) && !IsDir(old(tree), path))
    {
      var file := FileAt(path, true);
      if file.Failed? {
        return file;
      }
      var failed := Await();
      if failed {
        return Failed(Device);
      }
      FileHasParent(tree, path);
      FileReplaced(tree, path, contents);
      tree := tree[path := File(contents)];
      return Done(());
    }

    method Copy(from: Path, to: Path) returns (r: Outcome<nat>)
      requires WellFormed(tree)
      modifies this
      ensures WellFormed(tree) && (old(Calm()) ==> Calm())
      ensures (old(trouble) ==> trouble) && (r.Done? ==> trouble == old(trouble)) && (r == Failed(Device) ==> trouble)
      ensures r.Done? ==>
        IsFile(old(tree), from) && tree == old(tree)[to := old(tree)[from]] && !IsDir(old(tree), to) &&
        r.value == |old(tree)[from].contents|
      ensures r.Done? ==> to != [] && IsDir(old(tree), Parent(to))
      ensures r.Failed? ==>
        tree == old(tree) || IsNewFile(old(tree), to, tree)
      ensures old(Calm()) ==>
        (r.Done? <==> IsFile(old(tree), from) && to != [] && IsDir(old(tree), Parent(to)) && !IsDir(old(tree), to))
    {
      var contents := Read(from);
      if contents.Failed? {
        return Failed(contents.failure);
      }
      var written := Write(to, contents.value);
      if written.Failed? {
        return Failed(written.failure);
      }
      return Done(|contents.value|);
    }

    /** `remove_entry`, as `remove_file`, `remove_dir` and `remove_dir_all` call it. */
    method RemoveEntry(path: Path, kind: Kind, recursive: bool) returns (r: Outcome<()>)
      requires WellFormed(tree)
      modifies this
      ensures WellFormed(tree) && (old(Calm()) ==> Calm())
      ensures (old(trouble) ==> trouble) && (r.Done? ==> trouble == old(trouble)) && (r == Failed(Device) ==> trouble)
      ensures tree == if r.Done? then Without(old(tree), path) else old(tree)
      ensures r.Done? ==> CanRemove(old(tree), path, kind, recursive)
      ensures old(Calm()) ==> (r.Done? <==> CanRemove(old(tree), path, kind, recursive))
    {
      if path == [] {
        return Failed(BadPath(NamesRoot));
      }
      var parent := DirectoryAt(Parent(path), false);
      if parent.Failed? {
        return Failed(parent.failure);
      }
      var failed := Await();
      if failed {
        return Failed(Device);
      }
      if path !in tree {
        return Failed(NotFound);
      }
      if kind.FileKind? != tree[path].File? {
        return Failed(if kind.FileKind? then IsADirectory else NotADirectory);
      }
      failed := Await();
      if failed {
        return Failed(Device);
      }
      if !recursive && exists k | k in tree :: path < k {
        return Failed(NotEmpty);
      }
      WithoutWellFormed(tree, path);
      tree := Without(tree, path);
      return Done(());
    }

    /** `next_entry`: an entry of the directory, as it is now, whose name has not been
        seen before. */
    method NextEntry(directory: Path, past: set<Name>) returns (r: Outcome<Option<(Name, Kind)>>)
      modifies this`faults, this`trouble
      ensures old(Calm()) ==> Calm() && r.Done?
      ensures (old(trouble) ==> trouble) && (r.Done? ==> trouble == old(trouble)) && (r == Failed(Device) ==> trouble)
      ensures r == Done(None) ==> forall name :: directory + [name] in tree ==> name in past
      ensures r.Done? && r.value.Some? ==>
        var (name, kind) := r.value.value;
        name !in past && directory + [name] in tree && (kind.FileKind? <==> tree[directory + [name]].File?)
    {
      var failed := Await();
      if failed {
        return Failed(Device);
      }
      var names := set k | k in tree && directory < k && |k| == |directory| + 1 :: k[|directory|];
      forall name | directory + [name] in tree ensures name in names {
        assert (directory + [name])[|directory|] == name;
      }
      if names <= past {
        return Done(None);
      }
      var name :| name in names && name !in past;
      assert directory + [name] in tree by {
        var k :| k in tree && directory < k && |k| == |directory| + 1 && k[|directory|] == name;
        assert k == directory + [name];
      }
      return Done(Some((name, if tree[directory + [name]].File? then FileKind else DirectoryKind)));
    }

    /** `file_type`: a file is asked for, a directory is not. */
    method FileType(kind: Kind) returns (r: Outcome<Kind>)
      modifies this`faults, this`trouble
      ensures old(Calm()) ==> Calm() && r.Done?
      ensures (old(trouble) ==> trouble) && (r.Done? ==> trouble == old(trouble)) && (r == Failed(Device) ==> trouble)
      ensures r.Done? ==> r.value == kind
    {
      if kind.FileKind? {
        var failed := Await();
        if failed {
          return Failed(Device);
        }
      }
      return Done(kind);
    }

    /** `copy_directory` */
    method CopyDirectory(from: Path, to: Path, ghost top: Path, ghost depth: nat, ghost bound: set<Name>)
      returns (r: Outcome<()>)
      requires WellFormed(tree) && IsDir(tree, from)
      requires Bounded(tree, top, depth, bound) && Upwards(top, from, to, depth, bound)
      modifies this
      ensures WellFormed(tree) && (old(Calm()) ==> Calm())
      ensures (old(trouble) ==> trouble) && (r.Done? ==> trouble == old(trouble)) && (r == Failed(Device) ==> trouble)
      ensures Bounded(tree, top, depth, bound) && KeepsEntries(old(tree), tree)
      ensures OnlyDirs(old(tree)) ==> OnlyDirs(tree) && (old(Calm()) ==> r.Done?)
      ensures Apart(old(tree), from, to) ==>
        if r.Done? then IsCopied(old(tree), from, to, ALL, tree) && Mergeable(old(tree), from, to, ALL)
        else Between(old(tree), from, to, tree)
      ensures Apart(old(tree), from, to) && old(Calm()) && Mergeable(old(tree), from, to, ALL) ==> r.Done?
      decreases depth - |from|, 1
    {
      ghost var before := tree;
      ghost var apart := Apart(before, from, to);
      r := DirectoryAt(to, true);
      MadeBounded(before, to, tree, top, from, depth, bound);
      StartCopy(before, from, to, tree);
      assert Mergeable(before, from, to, ALL) ==> Reachable(before, to);
      hide IsCopied, Mergeable, Between, CanPut, IsPut, IsPartlyPut, IsMade, Apart, Fits, SourceKept, Bounded,
        WellFormed, IsPartlyMade, KeepsEntries, Upwards, OnlyDirs, Reachable;
      if r.Failed? {
        return;
      }
      if apart {
        PartKeepsSource(before, from, to, iset{}, tree);
      }
      r := DirectoryAt(from, false);
      if r.Failed? {
        if apart {
          PartIsBetween(before, from, to, iset{}, tree);
        }
        return;
      }
      r := CopyEntries(from, to, before, top, depth, bound);
    }

    /** The loop of `copy_directory`; `before` is the tree that the copy started from. */
    method CopyEntries(from: Path, to: Path, ghost before: Tree,
                       ghost top: Path, ghost depth: nat, ghost bound: set<Name>)
      returns (r: Outcome<()>)
      requires WellFormed(tree) && IsDir(tree, to)
      requires Bounded(tree, top, depth, bound) && Upwards(top, from, to, depth, bound)
      requires WellFormed(before) && from in before && KeepsEntries(before, tree)
      requires Apart(before, from, to) ==>
        IsCopied(before, from, to, iset{}, tree) && Mergeable(before, from, to, iset{})
      modifies this
      ensures WellFormed(tree) && (old(Calm()) ==> Calm())
      ensures (old(trouble) ==> trouble) && (r.Done? ==> trouble == old(trouble)) && (r == Failed(Device) ==> trouble)
      ensures Bounded(tree, top, depth, bound) && KeepsEntries(before, tree)
      ensures OnlyDirs(old(tree)) ==> OnlyDirs(tree) && (old(Calm()) ==> r.Done?)
      ensures Apart(before, from, to) ==>
        if r.Done? then IsCopied(before, from, to, ALL, tree) && Mergeable(before, from, to, ALL)
        else Between(before, from, to, tree)
      ensures Apart(before, from, to) && old(Calm()) && Mergeable(before, from, to, ALL) ==> r.Done?
      decreases depth - |from|, 0
    {
      ghost var apart := Apart(before, from, to);
      hide IsCopied, Mergeable, Between, CanPut, IsPut, IsPartlyPut, Apart, Fits, SourceKept, Bounded,
        WellFormed, KeepsEntries, Upwards, OnlyDirs, Reachable;
      var past: set<Name> := {};
      ghost var names := iset{};
      while true
        invariant WellFormed(tree) && IsDir(tree, to) && (old(Calm()) ==> Calm()) && trouble == old(trouble)
        invariant Bounded(tree, top, depth, bound) && KeepsEntries(before, tree)
        invariant OnlyDirs(old(tree)) ==> OnlyDirs(tree)
        invariant forall name :: name in names <==> name in past
        invariant apart ==> IsCopied(before, from, to, names, tree) && Mergeable(before, from, to, names)
        decreases bound - past
      {
        ghost var midway := tree;
        var entry := NextEntry(from, past);
        if entry.Failed? {
          if apart {
            PartIsBetween(before, from, to, names, tree);
          }
          return Failed(entry.failure);
        }
        if apart {
          PartKeepsSource(before, from, to, names, tree);
        }
        if entry.value.None? {
          if apart {
            FinishCopy(before, from, to, names, tree);
          }
          return Done(());
        }
        var (name, kind) := entry.value.value;
        ChildUpwards(tree, top, from, to, depth, bound, name);
        if apart {
          ChildApart(before, from, to, tree, name);
          BeforePut(before, from, to, names, tree, name);
        }
        r := CopyEntry(from + [name], to + [name], kind, top, depth, bound);
        KeepsEntriesOn(before, midway, tree, to);
        assert Parent(to + [name]) == to;
        if apart {
          AfterPut(before, from, to, names, midway, name, tree, r.Done?);
        }
        if r.Failed? {
          return;
        }
        past := past + {name};
        names := names + iset{name};
      }
    }

    /** One turn of the loop in `copy_directory`. */
    method CopyEntry(source: Path, destination: Path, kind: Kind,
                     ghost top: Path, ghost depth: nat, ghost bound: set<Name>)
      returns (r: Outcome<()>)
      requires WellFormed(tree) && source in tree && (kind.FileKind? <==> tree[source].File?)
      requires Bounded(tree, top, depth, bound) && Upwards(top, source, destination, depth, bound)
      requires destination != [] && IsDir(tree, Parent(destination))
      modifies this
      ensures WellFormed(tree) && (old(Calm()) ==> Calm())
      ensures (old(trouble) ==> trouble) && (r.Done? ==> trouble == old(trouble)) && (r == Failed(Device) ==> trouble)
      ensures Bounded(tree, top, depth, bound) && KeepsEntries(old(tree), tree)
      ensures OnlyDirs(old(tree)) ==> OnlyDirs(tree) && (old(Calm()) ==> r.Done?)
      ensures Apart(old(tree), source, destination) ==>
        if r.Done? then IsPut(old(tree), source, destination, tree)
        else IsPartlyPut(old(tree), source, destination, tree)
      ensures Apart(old(tree), source, destination) && old(Calm()) && CanPut(old(tree), source, destination) ==> r.Done?
      decreases depth - |source|, 2
    {
      var fileType := FileType(kind);
      if fileType.Failed? {
        assert Between(tree, source, destination, tree);
        return Failed(fileType.failure);
      }
      if fileType.value.DirectoryKind? {
        r := CopyDirectory(source, destination, top, depth, bound);
      } else {
        var copied := Copy(source, destination);
        return match copied case Done(_) => Done(()) case Failed(failure) => Failed(failure);
      }
    }

    /** `rename`, for the names of the two paths. Comparing the paths as strings
        compares their names (`OpfsPath.JoinedInjective`). */
    method RenameNames(from: Path, to: Path) returns (r: Renaming)
      requires WellFormed(tree)
      modifies this
      ensures WellFormed(tree) && (old(Calm()) ==> Calm())
      ensures (old(trouble) ==> trouble) && (r.Renamed? ==> trouble == old(trouble))
      ensures r == NotRenamed(Device) ==> trouble
      ensures RenamesAs(old(tree), from, to, old(Calm()), r, tree)
    {
      if from == to {
        var metadata := PathMetadata(from);
        return match metadata case Done(_) => Renamed case Failed(failure) => NotRenamed(failure);
      }
      var metadata := PathMetadata(from);
      if metadata.Failed? {
        assert SourceKept(tree, from, tree);
        return NotRenamed(metadata.failure);
      }
      var moved;
      if metadata.value.FileKind? {
        moved := RenameFile(from, to);
      } else if from <= to {
        assert SourceKept(tree, from, tree);
        return IntoItself;
      } else {
        moved := RenameDirectory(from, to);
      }
      return match moved case Done(_) => Renamed case Failed(failure) => NotRenamed(failure);
    }

    method RenameFile(from: Path, to: Path) returns (r: Outcome<()>)
      requires WellFormed(tree) && IsFile(tree, from) && from != to
      modifies this
      ensures WellFormed(tree) && (old(Calm()) ==> Calm())
      ensures (old(trouble) ==> trouble) && (r.Done? ==> trouble == old(trouble)) && (r == Failed(Device) ==> trouble)
      ensures r.Done? ==>
        CanRename(old(tree), from, to) && from !in tree && !(from <= to) &&
        IsMoved(old(tree), from, to, tree) && !Overlaps(old(tree), from, to)
      ensures r.Failed? ==> SourceKept(old(tree), from, tree) && FailedBetween(old(tree), from, to, tree)
      ensures r.Failed? && from <= to ==> tree == old(tree)
      ensures r.Failed? ==> KeepsEntries(old(tree), tree)
      ensures old(Calm()) && CanRename(old(tree), from, to) ==> r.Done?
    {
      ghost var before := tree;
      var copied := Copy(from, to);
      hide IsMoved, SourceKept, FailedBetween, Overlaps, CanRemove, WellFormed, KeepsEntries;
      if copied.Failed? {
        FileNotCopied(before, from, to, tree);
        return Failed(copied.failure);
      }
      FileCopied(before, from, to);
      FileMoved(before, from, to);
      FileIsLeaf(tree, from);
      r := RemoveEntry(from, FileKind, false);
    }

    method RenameDirectory(from: Path, to: Path) returns (r: Outcome<()>)
      requires WellFormed(tree) && IsDir(tree, from) && !(from <= to)
      modifies this
      ensures WellFormed(tree) && (old(Calm()) ==> Calm())
      ensures (old(trouble) ==> trouble) && (r.Done? ==> trouble == old(trouble)) && (r == Failed(Device) ==> trouble)
      ensures r.Done? ==>
        from !in tree && (IsMoved(old(tree), from, to, tree) <==> !Overlaps(old(tree), from, to))
      ensures old(Calm()) && OnlyDirs(old(tree)) ==> r.Done?
      ensures r.Failed? ==> KeepsEntries(old(tree), tree)
      ensures !Overlaps(old(tree), from, to) ==>
        (r.Done? ==> CanRename(old(tree), from, to)) &&
        (old(Calm()) && CanRename(old(tree), from, to) ==> r.Done?) &&
        (r.Failed? ==> SourceKept(old(tree), from, tree) && FailedBetween(old(tree), from, to, tree))
    {
      ghost var before := tree;
      ApartIff(before, from, to);
      ghost var apart := Apart(before, from, to);
      ghost var depth, names := IsBounded(before, from);
      assert Fits(from, depth, names);
      r := CopyDirectory(from, to, from, depth, names);
      hide IsMoved, SourceKept, FailedBetween, Apart, IsCopied, Mergeable, Between, Bounded, WellFormed, OnlyDirs;
      assert apart <==> !Overlaps(before, from, to);
      if r.Failed? {
        if apart {
          DirectoryNotCopied(before, from, to, tree);
        }
        return;
      }
      assert IsDir(tree, from);
      if apart {
        DirectoryCopied(before, from, to, tree);
      }
      r := RemoveEntry(from, DirectoryKind, true);
      if r.Done? && !apart {
        OverlapLoses(before, from, to, tree);
      }
    }

    /** `rename` */
    method Rename(from: seq<Component>, to: seq<Component>) returns (r: Renaming)
      requires WellFormed(tree)
      modifies this
      ensures WellFormed(tree) && (old(Calm()) ==> Calm())
      ensures (old(trouble) ==> trouble) && (r.Renamed? ==> trouble == old(trouble))
      ensures r == NotRenamed(Device) ==> trouble
      ensures Resolve([], from).Ok? && Resolve([], to).Ok? ==>
        RenamesAs(old(tree), Resolve([], from).value, Resolve([], to).value, old(Calm()), r, tree)
      ensures Resolve([], from).Err? ==> r == NotRenamed(BadPath(Resolve([], from).error)) && tree == old(tree)
      ensures Resolve([], from).Ok? && Resolve([], to).Err? ==>
        r == NotRenamed(BadPath(Resolve([], to).error)) && tree == old(tree)
    {
      hide Resolve, RenamesAs, WellFormed;
      var source := SplitPath(from);
      if source.Err? {
        return NotRenamed(BadPath(source.error));
      }
      var target := SplitPath(to);
      if target.Err? {
        return NotRenamed(BadPath(target.error));
      }
      r := RenameNames(source.value, target.value);
    }
  }

  /** The rename of `/a/a` to `/a` reports success, and is not a move. */
  method RenameToParent() returns (r: Renaming, t: Tree)
    ensures r.Renamed? && !IsMoved(TOWER, [A, A], [A], t)
  {
    RenameToParentFails(map[]);
    var files := new FileSystem(TOWER);
    assert files.Calm();
    hide IsMoved, WellFormed, SourceKept, FailedBetween, CanRename, KeepsUnlessMoved;
    r := files.RenameNames([A, A], [A]);
    t := files.tree;
    RenameToParentFails(t);
  }
}
