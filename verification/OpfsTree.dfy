/**
 The tree of the origin private file system, and what copying and moving a
 directory means for it. An entry is found under the list of names that leads to it
 from the root.
 */
module OpfsTree {
  import opened Common
  import opened OpfsPath

  type Name = OsString
  type Path = seq<Name>

  datatype Entry = Directory | File(contents: seq<byte>)

  type Tree = map<Path, Entry>

  ghost predicate IsDir(t: Tree, k: Path) {
    k in t && t[k].Directory?
  }

  ghost predicate IsFile(t: Tree, k: Path) {
    k in t && t[k].File?
  }

  function At(t: Tree, k: Path): Option<Entry> {
    if k in t then Some(t[k]) else None
  }

  function Parent(k: Path): Path
    requires k != []
  {
    k[..|k| - 1]
  }

  /** The root is a directory, and so is whatever has an entry in it. */
  ghost predicate WellFormed(t: Tree) {
    IsDir(t, []) && forall k :: k in t && k != [] ==> IsDir(t, Parent(k))
  }

  lemma {:induction false} AncestorIsDir(t: Tree, k: Path, i: nat)
    requires WellFormed(t) && k in t && i < |k|
    ensures IsDir(t, k[..i])
    decreases |k|
  {
    if i < |k| - 1 {
      AncestorIsDir(t, Parent(k), i);
      assert Parent(k)[..i] == k[..i];
    }
  }

  // Copying

  /** The entry of the source that belongs at `k` when `from` is copied to `to`. */
  function Origin(from: Path, to: Path, k: Path): Path
    requires to <= k
  {
    from + k[|to|..]
  }

  /** What is at `k` once the entries of `from` whose names are in `names` are copied
      to `to`. */
  ghost function CopiedAt(t: Tree, from: Path, to: Path, names: iset<Name>, k: Path): Option<Entry> {
    if to < k && k[|to|] in names && Origin(from, to, k) in t then Some(t[Origin(from, to, k)])
    else if k in t then Some(t[k])
    else if k <= to then Some(Directory)
    else None
  }

  ghost predicate IsCopied(t: Tree, from: Path, to: Path, names: iset<Name>, u: Tree) {
    forall k :: At(u, k) == CopiedAt(t, from, to, names, k)
  }

  ghost const ALL: iset<Name> := iset n: Name | true

  /** What a copy that fails may leave at `k`: what was there, what the copy puts
      there, or a new file whose contents were not written. */
  ghost predicate Between(t: Tree, from: Path, to: Path, u: Tree) {
    forall k ::
      At(u, k) == At(t, k) || At(u, k) == CopiedAt(t, from, to, ALL, k) || Unwritten(t, from, to, u, k)
  }

  ghost predicate Unwritten(t: Tree, from: Path, to: Path, u: Tree, k: Path) {
    At(u, k) == Some(File([])) && k !in t && to < k && IsFile(t, Origin(from, to, k))
  }

  /** No entry is copied to a place inside the source. */
  ghost predicate Apart(t: Tree, from: Path, to: Path) {
    forall k :: k in t && from <= k ==> !(from <= Origin(to, from, k))
  }

  /** No file stands in the way of a directory at `to`. */
  ghost predicate Reachable(t: Tree, to: Path) {
    forall i :: 0 <= i <= |to| && to[..i] in t ==> t[to[..i]].Directory?
  }

  /** The path `to` can be a directory, and no file meets a directory when the entries
      named are copied. */
  ghost predicate Mergeable(t: Tree, from: Path, to: Path, names: iset<Name>) {
    Reachable(t, to) &&
    forall k :: k in t && from < k && k[|from|] in names && Origin(to, from, k) in t ==>
      (t[k].Directory? <==> t[Origin(to, from, k)].Directory?)
  }

  ghost predicate SourceKept(t: Tree, from: Path, u: Tree) {
    forall k :: from <= k ==> At(u, k) == At(t, k)
  }

  lemma PrefixesCompare(a: Path, b: Path, c: Path)
    requires a <= c && b <= c
    ensures a <= b || b <= a
  {
    if |a| <= |b| {
      assert c[..|b|][..|a|] == c[..|a|];
    } else {
      assert c[..|a|][..|b|] == c[..|b|];
    }
  }

  /** A copy overlaps its source exactly when a directory is copied to one of its
      ancestors and holds an entry at the path that leads to it from there. */
  lemma ApartIff(t: Tree, from: Path, to: Path)
    requires WellFormed(t) && from in t && !(from <= to)
    ensures Apart(t, from, to) <==> !(to <= from && from + from[|to|..] in t)
  {
    if to <= from && from + from[|to|..] in t {
      var k := from + from[|to|..];
      assert Origin(to, from, k) == to + from[|to|..] == from;
    }
    if !Apart(t, from, to) {
      var k :| k in t && from <= k && from <= Origin(to, from, k);
      var image := Origin(to, from, k);
      PrefixesCompare(from, to, image);
      assert image[..|from|] == from && image[..|to|] == to;
      var below := from + from[|to|..];
      var n := |from| - |to|;
      assert k[|from|..][..n] == image[|to|..][..n] == from[|to|..];
      assert k[..|below|] == below;
      if |below| < |k| {
        AncestorIsDir(t, k, |below|);
      } else {
        assert k == below;
      }
    }
  }

  /** A copy that stays apart from its source leaves the source alone, even when it
      fails. */
  lemma KeepsSource(t: Tree, from: Path, to: Path, u: Tree)
    requires from in t && Apart(t, from, to) && Between(t, from, to, u)
    ensures SourceKept(t, from, u)
  {
    assert Origin(to, from, from) == to;
    forall k | from <= k ensures At(u, k) == At(t, k) {
      if to < k {
        var origin := Origin(from, to, k);
        assert Origin(to, from, origin) == k;
      }
    }
  }

  lemma PartIsBetween(t: Tree, from: Path, to: Path, names: iset<Name>, u: Tree)
    requires IsCopied(t, from, to, names, u)
    ensures Between(t, from, to, u)
  {
    forall k ensures At(u, k) == At(t, k) || At(u, k) == CopiedAt(t, from, to, ALL, k) {
      assert At(u, k) == CopiedAt(t, from, to, names, k);
    }
  }

  /** A copy of all names there are is a copy of every name. */
  lemma AllCopied(t: Tree, from: Path, to: Path, names: iset<Name>, u: Tree)
    requires WellFormed(t) && IsCopied(t, from, to, names, u) && Mergeable(t, from, to, names)
    requires forall name :: from + [name] in t ==> name in names
    ensures IsCopied(t, from, to, ALL, u) && Mergeable(t, from, to, ALL)
  {
    forall k | k in t && from < k ensures k[|from|] in names {
      NameListed(t, from, k);
    }
    forall k ensures At(u, k) == CopiedAt(t, from, to, ALL, k) {
      assert At(u, k) == CopiedAt(t, from, to, names, k);
      if to < k && Origin(from, to, k) in t {
        assert Origin(from, to, k)[|from|] == k[|to|];
      }
    }
  }

  /** An entry below `from` lies below a child of `from`. */
  lemma NameListed(t: Tree, from: Path, k: Path)
    requires WellFormed(t) && k in t && from < k
    ensures from + [k[|from|]] in t
  {
    assert from + [k[|from|]] == k[..|from| + 1];
    if |from| + 1 < |k| {
      AncestorIsDir(t, k, |from| + 1);
    } else {
      assert k[..|k|] == k;
    }
  }

  // One entry of a directory

  /** What transferring one entry of a directory does when it succeeds. */
  ghost predicate IsPut(t: Tree, from: Path, to: Path, u: Tree) {
    from in t &&
    if t[from].Directory? then IsCopied(t, from, to, ALL, u) && Mergeable(t, from, to, ALL)
    else u == t[to := t[from]] && !IsDir(t, to)
  }

  /** What it may do when it fails. */
  ghost predicate IsPartlyPut(t: Tree, from: Path, to: Path, u: Tree) {
    from in t &&
    if t[from].Directory? then Between(t, from, to, u)
    else u == t || (to !in t && u == t[to := File([])])
  }

  ghost predicate CanPut(t: Tree, from: Path, to: Path) {
    from in t &&
    if t[from].Directory? then Mergeable(t, from, to, ALL)
    else !IsDir(t, to)
  }

  lemma ChildApart(t: Tree, from: Path, to: Path, u: Tree, name: Name)
    requires Apart(t, from, to) && SourceKept(t, from, u)
    ensures Apart(u, from + [name], to + [name])
  {
    forall k | k in u && from + [name] <= k
      ensures !(from + [name] <= Origin(to + [name], from + [name], k))
    {
      assert At(u, k) == At(t, k);
      assert from <= k;
      assert Origin(to + [name], from + [name], k) == Origin(to, from, k) by {
        assert k[|from|..] == [name] + k[|from| + 1..];
      }
    }
  }

  lemma OriginOfChild(from: Path, to: Path, name: Name, k: Path)
    requires to + [name] <= k
    ensures to < k && k[|to|] == name
    ensures Origin(from + [name], to + [name], k) == Origin(from, to, k)
  {
    assert k[|to|..] == [name] + k[|to| + 1..];
  }

  /** A path that is not below a name yet to be copied is as before. */
  lemma NotYetCopied(t: Tree, from: Path, to: Path, names: iset<Name>, u: Tree, name: Name, k: Path)
    requires IsCopied(t, from, to, names, u) && name !in names && to + [name] <= k
    ensures At(u, k) == At(t, k)
  {
    OriginOfChild(from, to, name, k);
    assert At(u, k) == CopiedAt(t, from, to, names, k);
  }

  /** Elsewhere, names yet to be copied make no difference. */
  lemma NotBelow(t: Tree, from: Path, to: Path, names: iset<Name>, name: Name, k: Path)
    requires !(to + [name] <= k)
    ensures CopiedAt(t, from, to, names + iset{name}, k) == CopiedAt(t, from, to, names, k)
  {
  }

  lemma PutDirectory(t: Tree, from: Path, to: Path, names: iset<Name>, u: Tree, name: Name, v: Tree, k: Path)
    requires WellFormed(u) && SourceKept(t, from, u) && to in u
    requires IsCopied(t, from, to, names, u) && name !in names
    requires IsDir(u, from + [name]) && IsPut(u, from + [name], to + [name], v)
    ensures At(v, k) == CopiedAt(t, from, to, names + iset{name}, k)
  {
    var source, dest := from + [name], to + [name];
    assert At(v, k) == CopiedAt(u, source, dest, ALL, k);
    assert At(u, source) == At(t, source);
    if dest <= k {
      OriginOfChild(from, to, name, k);
      NotYetCopied(t, from, to, names, u, name, k);
      assert At(u, Origin(from, to, k)) == At(t, Origin(from, to, k));
      if k == dest {
        assert dest[..|dest|] == dest;
        assert Origin(from, to, k) == source;
      }
    } else {
      NotBelow(t, from, to, names, name, k);
      assert At(u, k) == CopiedAt(t, from, to, names, k);
      if k <= dest {
        assert dest[..|k|] == k && k <= to;
        PrefixPresent(u, to, k);
      }
    }
  }

  lemma PutFile(t: Tree, from: Path, to: Path, names: iset<Name>, u: Tree, name: Name, v: Tree, k: Path)
    requires WellFormed(u) && SourceKept(t, from, u) && to in u
    requires IsCopied(t, from, to, names, u) && name !in names
    requires IsFile(u, from + [name]) && IsPut(u, from + [name], to + [name], v)
    ensures At(v, k) == CopiedAt(t, from, to, names + iset{name}, k)
  {
    var source, dest := from + [name], to + [name];
    assert At(u, source) == At(t, source);
    if dest <= k {
      OriginOfChild(from, to, name, k);
      NotYetCopied(t, from, to, names, u, name, k);
      assert At(u, Origin(from, to, k)) == At(t, Origin(from, to, k));
      if k == dest {
        assert Origin(from, to, k) == source;
      } else {
        assert Origin(from, to, k) == Origin(source, dest, k);
        NothingInFile(u, source, Origin(from, to, k));
      }
    } else {
      NotBelow(t, from, to, names, name, k);
      assert At(u, k) == CopiedAt(t, from, to, names, k);
    }
  }

  /** Putting one more entry. */
  lemma PutOne(t: Tree, from: Path, to: Path, names: iset<Name>, u: Tree, name: Name, v: Tree)
    requires WellFormed(u) && SourceKept(t, from, u) && to in u
    requires IsCopied(t, from, to, names, u) && name !in names
    requires IsPut(u, from + [name], to + [name], v)
    ensures IsCopied(t, from, to, names + iset{name}, v)
  {
    forall k ensures At(v, k) == CopiedAt(t, from, to, names + iset{name}, k) {
      if u[from + [name]].Directory? {
        PutDirectory(t, from, to, names, u, name, v, k);
      } else {
        PutFile(t, from, to, names, u, name, v, k);
      }
    }
  }

  lemma NothingInFile(t: Tree, file: Path, k: Path)
    requires WellFormed(t) && IsFile(t, file) && file < k
    ensures k !in t
  {
    assert k[..|file|] == file;
    if k in t {
      AncestorIsDir(t, k, |file|);
    }
  }

  lemma PrefixPresent(t: Tree, to: Path, k: Path)
    requires WellFormed(t) && to in t && k <= to
    ensures k in t
  {
    assert k == to[..|k|];
    if |k| < |to| {
      AncestorIsDir(t, to, |k|);
    } else {
      assert k == to;
    }
  }

  /** Putting one more entry, but not all of it. */
  lemma PartlyPutOne(t: Tree, from: Path, to: Path, names: iset<Name>, u: Tree, name: Name, v: Tree)
    requires WellFormed(u) && SourceKept(t, from, u) && to in u
    requires IsCopied(t, from, to, names, u) && name !in names
    requires IsPartlyPut(u, from + [name], to + [name], v)
    ensures Between(t, from, to, v)
  {
    var source, dest := from + [name], to + [name];
    assert At(u, source) == At(t, source);
    forall k
      ensures At(v, k) == At(t, k) || At(v, k) == CopiedAt(t, from, to, ALL, k) || Unwritten(t, from, to, v, k)
    {
      assert At(u, k) == CopiedAt(t, from, to, names, k);
      if At(v, k) != At(u, k) {
        if u[source].Directory? {
          assert At(v, k) == CopiedAt(u, source, dest, ALL, k) || Unwritten(u, source, dest, v, k);
          if dest <= k {
            OriginOfChild(from, to, name, k);
            assert At(u, Origin(from, to, k)) == At(t, Origin(from, to, k));
            if k == dest {
              assert Origin(from, to, k) == source;
            }
          }
        } else {
          assert k == dest;
          OriginOfChild(from, to, name, k);
          assert Origin(from, to, k) == source;
        }
      }
    }
  }

  /** Being able to copy one more name makes its entry one that can be put, as the
      entries put so far leave that open. */
  lemma CanPutNext(t: Tree, from: Path, to: Path, names: iset<Name>, u: Tree, name: Name)
    requires SourceKept(t, from, u)
    requires IsCopied(t, from, to, names, u) && name !in names && from + [name] in t
    requires Mergeable(t, from, to, names + iset{name})
    ensures CanPut(u, from + [name], to + [name])
  {
    var source, dest := from + [name], to + [name];
    assert At(u, source) == At(t, source);
    OriginOfChild(to, from, name, source);
    assert Origin(to, from, source) == dest;
    NotYetCopied(t, from, to, names, u, name, dest);
    if t[source].Directory? {
      forall i | 0 <= i <= |dest| && dest[..i] in u ensures u[dest[..i]].Directory? {
        if i <= |to| {
          assert dest[..i] == to[..i];
          assert At(u, to[..i]) == CopiedAt(t, from, to, names, to[..i]);
        } else {
          assert dest[..i] == dest;
        }
      }
      forall k | k in u && source < k && Origin(dest, source, k) in u
        ensures u[k].Directory? <==> u[Origin(dest, source, k)].Directory?
      {
        OriginOfChild(to, from, name, k);
        assert At(u, k) == At(t, k);
        NotYetCopied(t, from, to, names, u, name, Origin(to, from, k));
      }
    }
  }

  /** An entry that was put met no entry of the other kind. */
  lemma PutKindsAgree(t: Tree, from: Path, to: Path, names: iset<Name>, u: Tree, name: Name, k: Path)
    requires WellFormed(t) && SourceKept(t, from, u)
    requires IsCopied(t, from, to, names, u) && name !in names
    requires CanPut(u, from + [name], to + [name])
    requires k in t && from + [name] <= k && Origin(to, from, k) in t
    ensures t[k].Directory? <==> t[Origin(to, from, k)].Directory?
  {
    var source, dest := from + [name], to + [name];
    assert At(u, source) == At(t, source);
    OriginOfChild(to, from, name, k);
    assert At(u, k) == At(t, k);
    NotYetCopied(t, from, to, names, u, name, Origin(to, from, k));
    if k == source {
      assert dest[..|dest|] == dest && Origin(to, from, k) == dest;
    } else if t[source].File? {
      NothingInFile(t, source, k);
    }
  }

  lemma PutIsMergeable(t: Tree, from: Path, to: Path, names: iset<Name>, u: Tree, name: Name)
    requires WellFormed(t) && SourceKept(t, from, u)
    requires IsCopied(t, from, to, names, u) && name !in names
    requires Mergeable(t, from, to, names)
    requires CanPut(u, from + [name], to + [name])
    ensures Mergeable(t, from, to, names + iset{name})
  {
    forall k | k in t && from < k && k[|from|] in names + iset{name} && Origin(to, from, k) in t
      ensures t[k].Directory? <==> t[Origin(to, from, k)].Directory?
    {
      if k[|from|] !in names {
        hide *;
        assert from + [name] <= k;
        PutKindsAgree(t, from, to, names, u, name, k);
      }
    }
  }

  // Moving

  /** What is at `k` once the entry at `from` has moved to `to`: the entries of the
      source take their new places over what was there, and leave their old ones. */
  ghost function MovedAt(t: Tree, from: Path, to: Path, k: Path): Option<Entry> {
    if to <= k && Origin(from, to, k) in t then Some(t[Origin(from, to, k)])
    else if from <= k then None
    else if k in t then Some(t[k])
    else if k <= to then Some(Directory)
    else None
  }

  ghost predicate IsMoved(t: Tree, from: Path, to: Path, u: Tree) {
    forall k :: At(u, k) == MovedAt(t, from, to, k)
  }

  function Without(t: Tree, from: Path): Tree {
    map k | k in t && !(from <= k) :: t[k]
  }

  lemma CopyThenRemove(t: Tree, from: Path, to: Path, u: Tree)
    requires IsDir(t, from) && Apart(t, from, to) && Mergeable(t, from, to, ALL)
    requires IsCopied(t, from, to, ALL, u)
    ensures IsMoved(t, from, to, Without(u, from))
  {
    assert to[..|to|] == to;
    forall k ensures At(Without(u, from), k) == MovedAt(t, from, to, k) {
      assert At(u, k) == CopiedAt(t, from, to, ALL, k);
      if to <= k {
        assert Origin(to, from, Origin(from, to, k)) == k;
        if k == to {
          assert Origin(from, to, k) == from;
        }
      }
    }
  }

  /** A directory that holds an entry where it would be moved from is not moved by
      copying and removing. */
  lemma OverlapLoses(t: Tree, from: Path, to: Path, u: Tree)
    requires WellFormed(t) && from in t && !(from <= to)
    requires !Apart(t, from, to) && from !in u
    ensures !IsMoved(t, from, to, u)
  {
    ApartIff(t, from, to);
    assert Origin(from, to, from) in t;
    assert At(u, from) != MovedAt(t, from, to, from);
  }

  /** Moving to a free place in an existing directory loses nothing: moving back
      restores the tree. */
  lemma MoveBack(t: Tree, from: Path, to: Path, u: Tree)
    requires WellFormed(t) && from in t && !(from <= to)
    requires to != [] && to !in t && Parent(to) in t
    requires IsMoved(t, from, to, u)
    ensures IsMoved(u, to, from, t)
  {
    assert !(to <= from) by {
      if to <= from {
        PrefixPresent(t, from, to);
      }
    }
    forall k ensures At(t, k) == MovedAt(u, to, from, k) {
      if from <= k {
        SourceBack(t, from, to, u, k);
      } else {
        assert At(u, k) == MovedAt(t, from, to, k);
        if to <= k && k in t {
          PrefixPresent(t, k, to);
        }
        if k <= to && k != to {
          assert k == Parent(to)[..|k|];
          PrefixPresent(t, Parent(to), k);
        }
        if k <= from {
          PrefixPresent(t, from, k);
        }
      }
    }
  }

  lemma SourceBack(t: Tree, from: Path, to: Path, u: Tree, k: Path)
    requires WellFormed(t) && from in t && to !in t && !(from <= to) && !(to <= from)
    requires IsMoved(t, from, to, u) && from <= k
    ensures At(t, k) == MovedAt(u, to, from, k)
  {
    var place := Origin(to, from, k);
    assert Origin(from, to, place) == k;
    assert !(from <= place) by {
      if from <= place {
        PrefixesCompare(from, to, place);
      }
    }
    assert !(to <= k) by {
      if to <= k {
        PrefixesCompare(from, to, k);
      }
    }
    assert place !in t by {
      if place in t {
        PrefixPresent(t, place, to);
      }
    }
    if place <= to {
      assert k == from;
    }
    assert At(u, place) == MovedAt(t, from, to, place);
    assert At(u, k) == MovedAt(t, from, to, k);
  }

  const A: Name := [Letter('a')]

  /** `/a/a/a` */
  const TOWER: Tree := map[[] := Directory, [A] := Directory, [A, A] := Directory, [A, A, A] := Directory]

  /** Renaming `/a/a` to `/a` when it holds a directory `a`: that directory is meant to
      be the new `/a/a`, but copying and removing leaves nothing there. */
  lemma RenameToParentFails(u: Tree)
    ensures WellFormed(TOWER) && IsDir(TOWER, [A, A]) && !([A, A] <= [A])
    ensures [A, A] !in u ==> !IsMoved(TOWER, [A, A], [A], u)
  {
    var a, t := A, TOWER;
    assert Parent([a]) == [] && Parent([a, a]) == [a] && Parent([a, a, a]) == [a, a];
    assert [a, a][1..] == [a];
    assert [a, a] + [a] == [a, a, a];
    ApartIff(t, [a, a], [a]);
    if [a, a] !in u {
      OverlapLoses(t, [a, a], [a], u);
    }
  }
}
