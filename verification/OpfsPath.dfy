/**
 Path resolution for the origin private file system: `split_path` resolves a path
 to the names below the root, and `joined_path` writes names back as a path.

 A path is a string of units, some of which may not be valid Unicode. How a path
 divides into components, and what `PathBuf::push` does, follow the standard
 library's rules for `/`-separated paths.
 */
module OpfsPath {
  import opened Common

  datatype Unit = Letter(c: char) | Stray

  type OsString = seq<Unit>

  datatype Component = RootDir | CurDir | ParentDir | Normal(name: OsString) | Prefix

  datatype Error = LeadsOutside | NotUtf8 | PrefixUnsupported | NamesRoot

  type PathResult<+T> = Result<T, Error>

  const SLASH := Letter('/')
  const DOT := Letter('.')

  ghost predicate IsUtf8(s: OsString) {
    Stray !in s
  }

  // Resolving components

  /** The components from the root on lead to `value`, or the first bad one to an
      error; resolution starts at the directory `names`. */
  ghost function Resolve(names: seq<OsString>, path: seq<Component>): PathResult<seq<OsString>>
    decreases |path|
  {
    if path == [] then Ok(names) else
    match path[0]
    case RootDir => Resolve(names, path[1..])
    case CurDir => Resolve(names, path[1..])
    case ParentDir => if names == [] then Err(LeadsOutside) else Resolve(names[..|names| - 1], path[1..])
    case Normal(name) => if IsUtf8(name) then Resolve(names + [name], path[1..]) else Err(NotUtf8)
    case Prefix => Err(PrefixUnsupported)
  }

  method SplitPath(path: seq<Component>) returns (r: PathResult<seq<OsString>>)
    ensures r == Resolve([], path)
  {
    var names: seq<OsString> := [];
    for i := 0 to |path|
      invariant Resolve([], path) == Resolve(names, path[i..])
    {
      assert path[i..][1..] == path[i + 1..];
      match path[i]
      case RootDir =>
      case CurDir =>
      case ParentDir =>
        if names == [] {
          return Err(LeadsOutside);
        }
        names := names[..|names| - 1];
      case Normal(name) =>
        if Stray in name {
          return Err(NotUtf8);
        }
        names := names + [name];
      case Prefix =>
        return Err(PrefixUnsupported);
    }
    return Ok(names);
  }

  method SplitParent(path: seq<Component>) returns (r: PathResult<(seq<OsString>, OsString)>)
    ensures r.Ok? ==> Resolve([], path) == Ok(r.value.0 + [r.value.1])
    ensures r.Err? ==> Resolve([], path) == (if r.error == NamesRoot then Ok([]) else Err(r.error))
  {
    FailsIff(path, NamesRoot);
    var resolved := SplitPath(path);
    match resolved
    case Err(error) =>
      return Err(error);
    case Ok(names) =>
      if names == [] {
        return Err(NamesRoot);
      }
      assert names == names[..|names| - 1] + [names[|names| - 1]];
      return Ok((names[..|names| - 1], names[|names| - 1]));
  }

  /** Normal components less parents. */
  ghost function Depth(path: seq<Component>): int {
    if path == [] then 0
    else Depth(path[..|path| - 1]) +
         match path[|path| - 1] { case Normal(_) => 1 case ParentDir => -1 case _ => 0 }
  }

  ghost predicate Plain(c: Component) {
    !c.Prefix? && (c.Normal? ==> IsUtf8(c.name))
  }

  ghost predicate AllPlain(path: seq<Component>) {
    forall i :: 0 <= i < |path| ==> Plain(path[i])
  }

  /** No prefix of the path has more parents than normal components. */
  ghost predicate StaysInside(path: seq<Component>) {
    forall k :: 0 <= k <= |path| ==> Depth(path[..k]) >= 0
  }

  /** `name` is the `d`-th name that a path leaves: it was entered at depth `d`, and
      the path never comes back to that depth. */
  ghost predicate Entered(path: seq<Component>, i: nat, d: nat, name: OsString)
    requires i < |path|
  {
    path[i] == Normal(name) && Depth(path[..i]) == d &&
    forall j :: i < j <= |path| ==> Depth(path[..j]) > d
  }

  ghost predicate Kept(path: seq<Component>, d: nat, name: OsString) {
    exists i :: 0 <= i < |path| && Entered(path, i, d, name)
  }

  /** The names a path leaves, without saying how to find them. */
  ghost predicate Leaves(path: seq<Component>, names: seq<OsString>) {
    |names| == Depth(path) &&
    forall d :: 0 <= d < |names| ==> Kept(path, d, names[d])
  }

  /** A first bad component, and what is wrong with it. */
  ghost predicate FailsAt(path: seq<Component>, k: nat, error: Error)
    requires k < |path|
  {
    AllPlain(path[..k]) && StaysInside(path[..k]) &&
    match path[k]
    case ParentDir => error == LeadsOutside && Depth(path[..k]) == 0
    case Normal(name) => error == NotUtf8 && !IsUtf8(name)
    case Prefix => error == PrefixUnsupported
    case _ => false
  }

  lemma {:induction false} ResolveConcat(names: seq<OsString>, a: seq<Component>, b: seq<Component>)
    ensures Resolve(names, a + b) ==
      match Resolve(names, a) { case Ok(reached) => Resolve(reached, b) case Err(error) => Err(error) }
    decreases |a|
  {
    if a == [] {
      assert a + b == b;
    } else {
      assert (a + b)[1..] == a[1..] + b;
      match a[0]
      case RootDir => ResolveConcat(names, a[1..], b);
      case CurDir => ResolveConcat(names, a[1..], b);
      case ParentDir =>
        if names != [] {
          ResolveConcat(names[..|names| - 1], a[1..], b);
        }
      case Normal(name) => ResolveConcat(names + [name], a[1..], b);
      case Prefix =>
    }
  }

  /** A prefix's own prefixes are the path's. */
  lemma PrefixOfPrefix(path: seq<Component>, k: nat)
    requires k <= |path|
    ensures forall j :: 0 <= j <= k ==> path[..k][..j] == path[..j]
  {
  }

  lemma StaysOn(path: seq<Component>)
    requires path != []
    ensures StaysInside(path) <==> StaysInside(path[..|path| - 1]) && Depth(path) >= 0
  {
    var front := path[..|path| - 1];
    assert path[..|path|] == path;
    hide Depth;
    if StaysInside(path) {
      forall k | 0 <= k <= |front| ensures Depth(front[..k]) >= 0 {
        assert front[..k] == path[..k];
      }
    }
    if StaysInside(front) && Depth(path) >= 0 {
      forall k | 0 <= k <= |path| ensures Depth(path[..k]) >= 0 {
        if k < |path| {
          assert front[..k] == path[..k];
        }
      }
    }
  }

  /** Resolving one more component. */
  lemma ResolveStep(path: seq<Component>)
    requires path != []
    ensures var last := path[|path| - 1];
      Resolve([], path) ==
      match Resolve([], path[..|path| - 1]) {
        case Err(error) => Err(error)
        case Ok(names) =>
          if last.ParentDir? then (if names == [] then Err(LeadsOutside) else Ok(names[..|names| - 1]))
          else if last.Normal? then (if IsUtf8(last.name) then Ok(names + [last.name]) else Err(NotUtf8))
          else if last.Prefix? then Err(PrefixUnsupported)
          else Ok(names)
      }
  {
    var front, last := path[..|path| - 1], path[|path| - 1];
    assert path == front + [last];
    ResolveConcat([], front, [last]);
    match Resolve([], front)
    case Err(_) =>
    case Ok(names) =>
      assert [last][1..] == [];
  }

  /** A path resolves when it has only plain components and stays inside, and then
      to the names it leaves. */
  lemma {:induction false} ResolvesIff(path: seq<Component>)
    ensures Resolve([], path).Ok? <==> AllPlain(path) && StaysInside(path)
    ensures Resolve([], path).Ok? ==> Leaves(path, Resolve([], path).value)
    decreases |path|
  {
    if path == [] {
      assert path[..0] == [];
    } else {
      var front, last := path[..|path| - 1], path[|path| - 1];
      ResolvesIff(front);
      ResolveStep(path);
      StaysOn(path);
      assert path == front + [last];
      hide Resolve;
      if Resolve([], front).Ok? && Resolve([], path).Ok? {
        LeavesOn(path, Resolve([], front).value, Resolve([], path).value);
      }
    }
  }

  lemma LeavesOn(path: seq<Component>, before: seq<OsString>, after: seq<OsString>)
    requires path != [] && Leaves(path[..|path| - 1], before)
    requires match path[|path| - 1]
             case ParentDir => before != [] && after == before[..|before| - 1]
             case Normal(name) => after == before + [name]
             case _ => after == before
    ensures Leaves(path, after)
  {
    var n := |path| - 1;
    var front := path[..n];
    assert path[..|path|] == path;
    assert Depth(path) == Depth(front) + match path[n] { case Normal(_) => 1 case ParentDir => -1 case _ => 0 };
    assert |after| == Depth(path);
    forall d | 0 <= d < |after| ensures Kept(path, d, after[d]) {
      if d == |before| {
        assert Entered(path, n, d, after[d]);
      } else {
        assert Kept(front, d, before[d]);
        var i :| 0 <= i < n && Entered(front, i, d, before[d]);
        assert front[..i] == path[..i];
        forall j | i < j <= |path| ensures Depth(path[..j]) > d {
          if j <= n {
            assert front[..j] == path[..j];
          }
        }
        assert Entered(path, i, d, after[d]);
      }
    }
  }

  /** At most one list of names is what a path leaves. */
  lemma LeavesUnique(path: seq<Component>, a: seq<OsString>, b: seq<OsString>)
    requires Leaves(path, a) && Leaves(path, b)
    ensures a == b
  {
    forall d | 0 <= d < |a| ensures a[d] == b[d] {
      assert Kept(path, d, a[d]) && Kept(path, d, b[d]);
      var i :| 0 <= i < |path| && Entered(path, i, d, a[d]);
      var j :| 0 <= j < |path| && Entered(path, j, d, b[d]);
      assert Depth(path[..i]) == Depth(path[..j]) == d;
    }
  }

  /** The error is that of the first bad component. */
  lemma {:induction false} FailsIff(path: seq<Component>, error: Error)
    ensures Resolve([], path) == Err(error) <==> exists k :: 0 <= k < |path| && FailsAt(path, k, error)
    decreases |path|
  {
    if path != [] {
      var n := |path| - 1;
      var front := path[..n];
      FailsIff(front, error);
      ResolveStep(path);
      ResolvesIff(front);
      PrefixOfPrefix(path, n);
      hide Resolve;
      forall k | 0 <= k < n ensures FailsAt(front, k, error) <==> FailsAt(path, k, error) {
        assert front[..k] == path[..k];
      }
      if Resolve([], path) == Err(error) {
        if Resolve([], front).Err? {
          var k :| 0 <= k < n && FailsAt(front, k, error);
          assert FailsAt(path, k, error);
        } else {
          assert FailsAt(path, n, error);
        }
      } else {
        forall k | 0 <= k < n ensures !FailsAt(path, k, error) {
          assert !FailsAt(front, k, error);
        }
      }
    }
  }

  /** Among paths of plain components, those that lead outside are the ones with a
      prefix of more parents than normal components. */
  lemma LeadsOutsideIff(path: seq<Component>)
    requires AllPlain(path)
    ensures Resolve([], path) == Err(LeadsOutside) <==> !StaysInside(path)
  {
    ResolvesIff(path);
    if Resolve([], path).Err? {
      var error := Resolve([], path).error;
      FailsIff(path, error);
      var k :| 0 <= k < |path| && FailsAt(path, k, error);
      assert Plain(path[k]);
    }
  }

  // Paths as strings

  /** Where the first separator is, or the length of a path without one. */
  function Separator(path: OsString): (n: nat)
    ensures n <= |path| && SLASH !in path[..n]
    ensures n < |path| ==> path[n] == SLASH
  {
    if path == [] || path[0] == SLASH then 0 else
    var n := Separator(path[1..]);
    assert path[..n + 1] == [path[0]] + path[1..][..n];
    n + 1
  }

  ghost function Part(piece: OsString): seq<Component> {
    if piece == [] || piece == [DOT] then []
    else if piece == [DOT, DOT] then [ParentDir]
    else [Normal(piece)]
  }

  /** The components after the root or the leading current directory. */
  ghost function Parts(path: OsString): seq<Component> {
    if path == [] then [] else
    var n := Separator(path);
    Part(path[..n]) + if n < |path| then Parts(path[n + 1..]) else []
  }

  /** `Path::components`. */
  ghost function Components(path: OsString): seq<Component> {
    if path == [] then []
    else if path[0] == SLASH then [RootDir] + Parts(path[1..])
    else if path[..Separator(path)] == [DOT] then [CurDir] + Parts(path)
    else Parts(path)
  }

  ghost function Split(path: OsString): PathResult<seq<OsString>> {
    Resolve([], Components(path))
  }

  /** `PathBuf::push`. */
  function Pushed(path: OsString, name: OsString): OsString {
    if name != [] && name[0] == SLASH then name
    else if path != [] && path[|path| - 1] != SLASH then path + [SLASH] + name
    else path + name
  }

  /** A name that a normal component can have. */
  ghost predicate Proper(name: OsString) {
    name != [] && name != [DOT] && name != [DOT, DOT] && SLASH !in name && IsUtf8(name)
  }

  ghost predicate AllProper(names: seq<OsString>) {
    forall i :: 0 <= i < |names| ==> Proper(names[i])
  }

  /** The canonical path of a list of names. */
  ghost function Joined(names: seq<OsString>): OsString {
    if names == [] then [SLASH]
    else if |names| == 1 then [SLASH] + names[0]
    else Joined(names[..|names| - 1]) + [SLASH] + names[|names| - 1]
  }

  lemma {:induction false} JoinedEnd(names: seq<OsString>)
    requires AllProper(names)
    ensures var path := Joined(names);
      path != [] && path[0] == SLASH && (names != [] ==> path[|path| - 1] != SLASH)
    decreases |names|
  {
    if |names| > 1 {
      var last := names[|names| - 1];
      JoinedEnd(names[..|names| - 1]);
      assert last[|last| - 1] in last;
    } else if |names| == 1 {
      assert names[0][|names[0]| - 1] in names[0];
    }
  }

  method JoinedPath(names: seq<OsString>) returns (path: OsString)
    ensures AllProper(names) ==> path == Joined(names)
  {
    path := [SLASH];
    for i := 0 to |names|
      invariant AllProper(names) ==> path == Joined(names[..i])
    {
      if AllProper(names) {
        JoinedIsPushed(names[..i + 1]);
        assert names[..i + 1][..i] == names[..i];
      }
      path := Pushed(path, names[i]);
    }
    assert names[..|names|] == names;
  }

  // Strings and components

  lemma {:induction false} SeparatorIs(path: OsString, n: nat)
    requires n <= |path| && SLASH !in path[..n]
    requires n < |path| ==> path[n] == SLASH
    ensures Separator(path) == n
  {
    if n > 0 {
      assert path[..n] == [path[0]] + path[1..][..n - 1];
      SeparatorIs(path[1..], n - 1);
    }
  }

  lemma SeparatorAfter(piece: OsString, rest: OsString)
    requires SLASH !in piece
    ensures Separator(piece + [SLASH] + rest) == |piece|
    ensures Separator(piece) == |piece|
  {
    var path := piece + [SLASH] + rest;
    SeparatorIs(path, |piece|);
    SeparatorIs(piece, |piece|);
  }

  lemma FirstPart(piece: OsString, rest: OsString)
    requires SLASH !in piece
    ensures Parts(piece + [SLASH] + rest) == Part(piece) + Parts(rest)
    ensures Parts(piece) == Part(piece)
  {
    var path := piece + [SLASH] + rest;
    SeparatorAfter(piece, rest);
    assert path[..|piece|] == piece && path[|piece| + 1..] == rest;
    assert piece[..|piece|] == piece;
  }

  /** Parts of a path are those before and those after a separator. */
  lemma {:induction false} PartsConcat(a: OsString, b: OsString)
    ensures Parts(a + [SLASH] + b) == Parts(a) + Parts(b)
    decreases |a|
  {
    hide Parts, Part;
    var n := Separator(a);
    if n == |a| {
      assert a[..n] == a;
      FirstPart(a, b);
    } else {
      var piece, rest := a[..n], a[n + 1..];
      assert a == piece + [SLASH] + rest;
      assert a + [SLASH] + b == piece + [SLASH] + (rest + [SLASH] + b);
      FirstPart(piece, rest);
      FirstPart(piece, rest + [SLASH] + b);
      PartsConcat(rest, b);
      assert Part(piece) + (Parts(rest) + Parts(b)) == Part(piece) + Parts(rest) + Parts(b);
    }
  }

  lemma RelativeParts(path: OsString)
    requires path == [] || path[0] != SLASH
    ensures Resolve([], Components(path)) == Resolve([], Parts(path))
    ensures Components(path) == Parts(path) || Components(path) == [CurDir] + Parts(path)
  {
    if Components(path) == [CurDir] + Parts(path) {
      assert ([CurDir] + Parts(path))[1..] == Parts(path);
    }
  }

  /** A path resolves as its parts do, absolute or not. */
  lemma SplitParts(path: OsString)
    ensures Split(path) == Resolve([], Parts(path))
  {
    if path == [] || path[0] != SLASH {
      RelativeParts(path);
    } else {
      PartsConcat([], path[1..]);
      assert path == [] + [SLASH] + path[1..];
      assert Parts([]) + Parts(path[1..]) == Parts(path[1..]);
      assert ([RootDir] + Parts(path[1..]))[1..] == Parts(path[1..]);
    }
  }

  /** A separator at the end adds no component. */
  lemma PartsOfTrailing(path: OsString)
    requires path != [] && path[|path| - 1] == SLASH
    ensures Parts(path) == Parts(path[..|path| - 1])
  {
    assert Parts([]) == [];
    hide Parts;
    var front := path[..|path| - 1];
    assert path == front + [SLASH] + [];
    PartsConcat(front, []);
    assert Parts(front) + [] == Parts(front);
  }

  /** Resolving a joined path continues from where the first path leads, unless the
      second is absolute. */
  lemma SplitPushed(path: OsString, more: OsString)
    ensures Split(Pushed(path, more)) ==
      if more != [] && more[0] == SLASH then Split(more) else
      match Split(path) { case Ok(names) => Resolve(names, Components(more)) case Err(error) => Err(error) }
  {
    if more == [] || more[0] != SLASH {
      PushedParts(path, more);
      SplitParts(Pushed(path, more));
      SplitParts(path);
      ResolveConcat([], Parts(path), Parts(more));
      RelativeParts(more);
      if Split(path).Ok? && Components(more) == [CurDir] + Parts(more) {
        assert ([CurDir] + Parts(more))[1..] == Parts(more);
      }
    }
  }

  /** A dot stays where the path leads, two dots go to its parent and fail at the root, and
      nothing at all stays too. */
  lemma DotsLead(path: OsString, names: seq<OsString>)
    requires Split(path) == Ok(names)
    ensures Split(Pushed(path, [DOT])) == Ok(names) && Split(Pushed(path, [])) == Ok(names)
    ensures Split(Pushed(path, [DOT, DOT])) ==
      if names == [] then Err(LeadsOutside) else Ok(names[..|names| - 1])
  {
    SplitPushed(path, [DOT]);
    SplitPushed(path, [DOT, DOT]);
    SplitPushed(path, []);
    SeparatorIs([DOT], 1);
    SeparatorIs([DOT, DOT], 2);
    assert [DOT][..1] == [DOT] && [DOT, DOT][..2] == [DOT, DOT];
    assert Parts([DOT]) == [] && Parts([DOT, DOT]) == [ParentDir];
    assert [CurDir][1..] == [] && [ParentDir][1..] == [];
  }

  lemma PushedParts(path: OsString, more: OsString)
    requires more == [] || more[0] != SLASH
    ensures Parts(Pushed(path, more)) == Parts(path) + Parts(more)
  {
    if path == [] {
      assert path + more == more;
      assert Parts(path) == [];
    } else if path[|path| - 1] != SLASH {
      PartsConcat(path, more);
    } else {
      var front := path[..|path| - 1];
      assert path + more == front + [SLASH] + more;
      PartsConcat(front, more);
      PartsOfTrailing(path);
    }
  }

  /** Components have proper names, but for their encoding. */
  lemma {:induction false} PartsAreNames(path: OsString)
    ensures forall c :: c in Parts(path) ==>
      c == ParentDir || (c.Normal? && (IsUtf8(c.name) ==> Proper(c.name)))
    decreases |path|
  {
    if path != [] {
      var n := Separator(path);
      if n < |path| {
        PartsAreNames(path[n + 1..]);
      }
    }
  }

  /** The names of a resolved path are proper. */
  lemma SplitIsProper(path: OsString)
    ensures Split(path).Ok? ==> AllProper(Split(path).value)
  {
    SplitParts(path);
    PartsAreNames(path);
    var parts := Parts(path);
    ResolvesIff(parts);
    if Split(path).Ok? {
      var names := Split(path).value;
      forall d | 0 <= d < |names| ensures Proper(names[d]) {
        assert Kept(parts, d, names[d]);
        var i :| 0 <= i < |parts| && Entered(parts, i, d, names[d]);
        assert parts[i] in parts && Plain(parts[i]);
      }
    }
  }

  lemma PartsOfName(name: OsString)
    requires Proper(name)
    ensures Parts(name) == [Normal(name)]
  {
    SeparatorAfter(name, []);
    assert name[..|name|] == name;
  }

  lemma SplitOneMore(path: OsString, names: seq<OsString>, name: OsString)
    requires Split(path) == Ok(names) && Proper(name)
    ensures Split(Pushed(path, name)) == Ok(names + [name])
  {
    assert name[0] in name;
    SplitPushed(path, name);
    SplitParts(Pushed(path, name));
    SplitParts(path);
    PushedParts(path, name);
    PartsOfName(name);
    ResolveConcat([], Parts(path), [Normal(name)]);
    assert [Normal(name)][1..] == [];
  }

  lemma JoinedIsPushed(names: seq<OsString>)
    requires AllProper(names) && names != []
    ensures Joined(names) == Pushed(Joined(names[..|names| - 1]), names[|names| - 1])
  {
    var front, last := names[..|names| - 1], names[|names| - 1];
    JoinedEnd(front);
    assert last[0] in last;
    if front == [] {
      assert last == names[0];
    }
  }

  lemma SplitRoot()
    ensures Split(Joined([])) == Ok([])
  {
    assert Joined([]) == [SLASH];
    assert [SLASH][1..] == [];
    assert Components([SLASH]) == [RootDir];
    assert [RootDir][1..] == [];
  }

  /** Splitting a joined list of names gives the names back. */
  lemma {:induction false} SplitJoined(names: seq<OsString>)
    requires AllProper(names)
    ensures Split(Joined(names)) == Ok(names)
    decreases |names|
  {
    if names == [] {
      SplitRoot();
    } else {
      var front, last := names[..|names| - 1], names[|names| - 1];
      hide Joined, Split, Pushed, Proper;
      SplitJoined(front);
      JoinedIsPushed(names);
      SplitOneMore(Joined(front), front, last);
      assert front + [last] == names;
    }
  }

  /** Different lists of names have different paths, so comparing canonical paths
      compares names. */
  lemma JoinedInjective(a: seq<OsString>, b: seq<OsString>)
    requires AllProper(a) && AllProper(b) && Joined(a) == Joined(b)
    ensures a == b
  {
    SplitJoined(a);
    SplitJoined(b);
  }

  /** `canonicalize`, without the check that the path exists. */
  method Canonical(path: OsString, components: seq<Component>) returns (r: PathResult<OsString>)
    requires components == Components(path)
    ensures r.Ok? ==> Split(path).Ok? && Split(r.value) == Split(path)
    ensures r.Ok? ==> r.value == Joined(Split(path).value)
    ensures r.Err? ==> Split(path) == Err(r.error)
  {
    var names := SplitPath(components);
    match names
    case Err(error) => return Err(error);
    case Ok(names) =>
      SplitIsProper(path);
      SplitJoined(names);
      var joined := JoinedPath(names);
      return Ok(joined);
  }

  /** Canonical paths are their own canonical paths, and two paths have the same one
      exactly when they lead to the same entry. */
  lemma CanonicalIdempotent(path: OsString, other: OsString)
    requires Split(path).Ok? && Split(other).Ok?
    ensures Split(Joined(Split(path).value)) == Split(path)
    ensures Joined(Split(path).value) == Joined(Split(other).value) <==> Split(path) == Split(other)
  {
    SplitIsProper(path);
    SplitIsProper(other);
    SplitJoined(Split(path).value);
    SplitJoined(Split(other).value);
  }
}
