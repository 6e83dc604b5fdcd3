/**
 Relative paths and symbolic links of the importer (import/pinrail_import.py). A path is the list of its
 components; the empty list is the root of the selected tree.
 */
module ImportPaths {
  import opened Options
  import opened Sequences

  type Path = seq<string>

  // ----- Normalization -----

  /** `str.split` on a slash. */
  function Split(s: string): (r: seq<string>)
    ensures |r| >= 1
  {
    if s == "" then [""]
    else
      var rest := Split(s[1..]);
      if s[0] == '/' then [""] + rest else [[s[0]] + rest[0]] + rest[1..]
  }

  function Join(components: seq<string>): string
    requires components != []
  {
    if |components| == 1 then components[0] else components[0] + "/" + Join(components[1..])
  }

  /** Splitting loses nothing, and no component contains a slash. */
  lemma {:induction false} SplitJoin(s: string)
    ensures Join(Split(s)) == s
    ensures forall i :: 0 <= i < |Split(s)| ==> '/' !in Split(s)[i]
  {
    if s != "" {
      SplitJoin(s[1..]);
      var rest := Split(s[1..]);
      if s[0] == '/' {
        assert Split(s)[1..] == rest;
        assert s == "" + "/" + s[1..];
      } else {
        assert Split(s) == [[s[0]] + rest[0]] + rest[1..];
        PrependJoin(s[0], rest);
        assert s == [s[0]] + s[1..];
      }
    }
  }

  lemma PrependJoin(c: char, components: seq<string>)
    requires components != []
    ensures Join([[c] + components[0]] + components[1..]) == [c] + Join(components)
  {
    var more := [[c] + components[0]] + components[1..];
    assert more[1..] == components[1..];
    if |components| > 1 {
      var rest := Join(components[1..]);
      assert Join(more) == more[0] + "/" + rest;
      assert Join(components) == components[0] + "/" + rest;
      hide Join;
      Associative([c], components[0], "/");
      Associative([c], components[0] + "/", rest);
    }
  }

  /** What one component does to the normalized components before it (`posixpath.normpath`). */
  function Normal(done: seq<string>, c: string): seq<string> {
    if c == "" || c == "." then done
    else if c != ".." || done == [] || done[|done| - 1] == ".." then done + [c]
    else done[..|done| - 1]
  }

  function Normalize(done: seq<string>, components: seq<string>): seq<string>
    decreases |components|
  {
    if components == [] then done else Normalize(Normal(done, components[0]), components[1..])
  }

  predicate SafeComponent(c: string) {
    c !in ["", ".", "..", ".git"] && forall i | 0 <= i < |c| :: c[i] !in ['\0', '\n', '\r', '\\']
  }

  /** `safe_path` */
  predicate SafePath(p: Path) {
    p != [] && forall i | 0 <= i < |p| :: SafeComponent(p[i])
  }

  /** `relative_path`: `value` seen from the directory `base`, unless it is absolute or leaves the tree. */
  function RelativePath(base: Path, value: string): Option<Path> {
    if (value != "" && value[0] == '/') || '\\' in value then None
    else
      var p := Normalize([], base + Split(value));
      if SafePath(p) then Some(p) else None
  }

  // ----- What a path means: a walk through directories -----

  /** Following the components from a directory, without ever going above the root. */
  function Follow(dir: Path, components: seq<string>): Option<Path>
    decreases |components|
  {
    if components == [] then Some(dir)
    else if components[0] == "" || components[0] == "." then Follow(dir, components[1..])
    else if components[0] == ".." then
      if dir == [] then None else Follow(dir[..|dir| - 1], components[1..])
    else Follow(dir + [components[0]], components[1..])
  }

  /** Leading parent references, once there, stay in front. */
  lemma {:induction false} EscapedStays(done: seq<string>, components: seq<string>)
    requires done != [] && done[0] == ".."
    ensures Normalize(done, components) != [] && Normalize(done, components)[0] == ".."
    decreases |components|
  {
    if components != [] {
      EscapedStays(Normal(done, components[0]), components[1..]);
    }
  }

  ghost predicate NoParents(p: seq<string>) {
    forall i :: 0 <= i < |p| ==> p[i] != ".."
  }

  /** Normalization is following: a result without parent references is where the walk ends, and there is one
      exactly if the walk stays inside. */
  lemma {:induction false} NormalizeIsFollow(dir: Path, components: seq<string>)
    requires NoParents(dir)
    ensures match Follow(dir, components)
            case Some(p) => Normalize(dir, components) == p && NoParents(p)
            case None => !NoParents(Normalize(dir, components))
    decreases |components|
  {
    if components != [] {
      var next := Normal(dir, components[0]);
      if components[0] == ".." && dir == [] {
        EscapedStays(next, components[1..]);
      } else {
        NormalizeIsFollow(next, components[1..]);
      }
    }
  }

  /** A relative path is accepted exactly if walking it from the base directory never leaves the tree and ends
      at a safe path, which is then the result. */
  lemma RelativePathIsWalk(base: Path, value: string)
    requires SafePath(base) || base == []
    ensures RelativePath(base, value).Some? <==>
              !(value != "" && value[0] == '/') && '\\' !in value
              && Follow([], base + Split(value)).Some? && SafePath(Follow([], base + Split(value)).value)
    ensures RelativePath(base, value).Some? ==>
              RelativePath(base, value).value == Follow([], base + Split(value)).value
              && Follow(base, Split(value)) == RelativePath(base, value)
  {
    var all := base + Split(value);
    NormalizeIsFollow([], all);
    FollowDown([], base, Split(value));
    assert [] + base == base;
    if RelativePath(base, value).Some? {
      assert NoParents(Normalize([], all));
    }
  }

  /** Walking down a safe path just goes there. */
  lemma {:induction false} FollowDown(dir: Path, base: Path, more: seq<string>)
    requires SafePath(base) || base == []
    ensures Follow(dir, base + more) == Follow(dir + base, more)
    decreases |base|
  {
    if base == [] {
      assert dir + base == dir && base + more == more;
    } else {
      assert (base + more)[0] == base[0] && (base + more)[1..] == base[1..] + more;
      assert SafeComponent(base[0]);
      FollowDown(dir + [base[0]], base[1..], more);
      assert dir + [base[0]] + base[1..] == dir + base;
    }
  }

  // ----- Symbolic links -----

  datatype Entry = File | Link(target: string)

  type Entries = map<Path, Entry>

  /** Where a link points, if that is one of the selected entries. */
  function Hop(entries: Entries, name: Path): (t: Option<Path>)
    requires name in entries && entries[name].Link? && name != []
    ensures t.Some? ==> t.value in entries && SafePath(t.value)
  {
    match RelativePath(name[..|name| - 1], entries[name].target)
    case None => None
    case Some(t) => if t in entries then Some(t) else None
  }

  /** A link is followed from the directory that it lies in, wherever that is: to the entry at which the walk along
      its target ends, unless the target is absolute or foreign or the walk leaves the tree. */
  lemma HopIsWalk(entries: Entries, dir: Path, leaf: string, target: string)
    requires SafePath(dir) || dir == []
    requires dir + [leaf] in entries && entries[dir + [leaf]] == Link(target)
    ensures forall t :: Hop(entries, dir + [leaf]) == Some(t) <==>
              && !(target != "" && target[0] == '/') && '\\' !in target
              && Follow(dir, Split(target)) == Some(t) && SafePath(t) && t in entries
  {
    var name := dir + [leaf];
    assert name[..|name| - 1] == dir;
    RelativePathIsWalk(dir, target);
    FollowDown([], dir, Split(target));
    assert [] + dir == dir;
  }

  /** What is accepted never names the repository's own data and has no character that could end a line or a path. */
  lemma AcceptedIsSafe(base: Path, value: string, i: nat)
    requires RelativePath(base, value).Some? && i < |RelativePath(base, value).value|
    ensures var c := RelativePath(base, value).value[i];
            && c != "" && c != "." && c != ".." && c != ".git"
            && '\0' !in c && '\n' !in c && '\r' !in c && '\\' !in c
  {
    var p := RelativePath(base, value).value;
    assert SafeComponent(p[i]);
  }

  ghost predicate NamesValid(entries: Entries) {
    forall name :: name in entries ==> name != []
  }

  /** After exactly `n` hops, all inside the entries, the chain from `name` is at something that is no link. */
  ghost predicate Resolves(entries: Entries, name: Path, n: nat)
    requires NamesValid(entries) && name in entries
    decreases n
  {
    match entries[name]
    case File => n == 0
    case Link(_) => n > 0 && Hop(entries, name).Some? && Resolves(entries, Hop(entries, name).value, n - 1)
  }

  lemma {:induction false} ResolvesUnique(entries: Entries, name: Path, m: nat, n: nat)
    requires NamesValid(entries) && name in entries
    requires Resolves(entries, name, m) && Resolves(entries, name, n)
    ensures m == n
    decreases m
  {
    hide Hop;
    if entries[name].Link? {
      ResolvesUnique(entries, Hop(entries, name).value, m - 1, n - 1);
    }
  }

  /** `path` visits links only, each the hop of the one before. */
  ghost predicate Hops(entries: Entries, path: seq<Path>)
    requires NamesValid(entries)
  {
    && (forall i :: 0 <= i < |path| ==> path[i] in entries && entries[path[i]].Link?)
    && (forall i {:trigger path[i]} :: 0 < i < |path| ==> Hop(entries, path[i - 1]) == Some(path[i]))
  }

  /** Whatever the start of a chain resolves in, each later point resolves in as many hops less. */
  lemma {:induction false} ResolvesAlong(entries: Entries, path: seq<Path>, i: nat, n: nat)
    requires NamesValid(entries) && Hops(entries, path) && i < |path|
    requires Resolves(entries, path[0], n)
    ensures n >= i && Resolves(entries, path[i], n - i)
    decreases i
  {
    hide Hop;
    if i > 0 {
      ResolvesAlong(entries, path, i - 1, n);
    }
  }

  /** A chain that comes back to where it has been never ends. */
  lemma CycleNeverResolves(entries: Entries, path: seq<Path>, i: nat, n: nat)
    requires NamesValid(entries) && Hops(entries, path) && i < |path|
    requires Hop(entries, path[|path| - 1]) == Some(path[i])
    ensures !Resolves(entries, path[0], n)
  {
    hide Hop;
    if Resolves(entries, path[0], n) {
      ResolvesAlong(entries, path, |path| - 1, n);
      ResolvesAlong(entries, path, i, n);
      ResolvesUnique(entries, path[i], n - i, n - |path|);
    }
  }

  ghost predicate Grounded(entries: Entries, name: Path)
    requires NamesValid(entries) && name in entries
  {
    exists n :: Resolves(entries, name, n)
  }

  /** The inner loop of `check_symlinks`: follows the chain from one link until it ends, leaves the entries or
      comes back to a link it has seen. */
  method Chase(entries: Entries, name: Path) returns (ok: bool)
    requires NamesValid(entries) && name in entries
    ensures ok <==> Grounded(entries, name)
  {
    hide Hop, Resolves, Hops;
    var current, seen := name, {};
    ghost var path := [];
    HopsEmpty(entries);
    while entries[current].Link?
      invariant current in entries && seen <= entries.Keys
      invariant Hops(entries, path) && seen == set p | p in path
      invariant Leads(entries, name, path, current)
      decreases |entries.Keys - seen|
    {
      if current in seen {
        LoopNeverEnds(entries, name, path, current);
        return false;
      }
      HopsPush(entries, name, path, current);
      var next := Hop(entries, current);
      if next.None? {
        DeadEndNeverEnds(entries, name, path, current);
        return false;
      }
      SmallerSet(entries.Keys - (seen + {current}), entries.Keys - seen, current);
      seen, path := seen + {current}, path + [current];
      current := next.value;
    }
    ChainResolves(entries, path, current);
    ok := true;
  }

  /** `path` starts at `name`, and its last hop led to `current`. */
  ghost predicate Leads(entries: Entries, name: Path, path: seq<Path>, current: Path)
    requires NamesValid(entries)
  {
    if path == [] then current == name
    else
      var last := path[|path| - 1];
      path[0] == name && last in entries && entries[last].Link? && Hop(entries, last) == Some(current)
  }

  lemma HopsEmpty(entries: Entries)
    requires NamesValid(entries)
    ensures Hops(entries, [])
  {
  }

  lemma HopsPush(entries: Entries, name: Path, path: seq<Path>, current: Path)
    requires NamesValid(entries) && Hops(entries, path) && Leads(entries, name, path, current)
    requires current in entries && entries[current].Link?
    ensures Hops(entries, path + [current]) && (path + [current])[0] == name
  {
    hide Hop;
  }

  lemma LoopNeverEnds(entries: Entries, name: Path, path: seq<Path>, current: Path)
    requires NamesValid(entries) && name in entries && Hops(entries, path) && Leads(entries, name, path, current)
    requires current in path
    ensures !Grounded(entries, name)
  {
    hide Hop, Resolves;
    var i :| 0 <= i < |path| && path[i] == current;
    forall n: nat ensures !Resolves(entries, name, n) {
      CycleNeverResolves(entries, path, i, n);
    }
  }

  lemma DeadEndNeverEnds(entries: Entries, name: Path, path: seq<Path>, current: Path)
    requires NamesValid(entries) && name in entries && Hops(entries, path) && Leads(entries, name, path, current)
    requires current in entries && entries[current].Link? && Hop(entries, current).None?
    ensures !Grounded(entries, name)
  {
    hide Hop;
    HopsPush(entries, name, path, current);
    forall n: nat ensures !Resolves(entries, name, n) {
      if Resolves(entries, name, n) {
        ResolvesAlong(entries, path + [current], |path|, n);
      }
    }
  }

  lemma SmallerSet(a: set<Path>, b: set<Path>, x: Path)
    requires a == b - {x} && x in b
    ensures |a| < |b|
  {
  }

  lemma {:induction false} ChainResolves(entries: Entries, path: seq<Path>, end: Path)
    requires NamesValid(entries) && Hops(entries, path) && end in entries && entries[end].File?
    requires path != [] ==> Hop(entries, path[|path| - 1]) == Some(end)
    ensures Resolves(entries, if path == [] then end else path[0], |path|)
    decreases |path|
  {
    hide Hop;
    if path != [] {
      assert Resolves(entries, end, 0);
      if |path| == 1 {
        assert Resolves(entries, path[0], 1);
      } else {
        var rest := path[1..];
        assert Hops(entries, rest) by {
          assert forall i :: 0 <= i < |rest| ==> rest[i] == path[i + 1];
        }
        ChainResolves(entries, rest, end);
        assert Hop(entries, path[0]) == Some(path[1]);
      }
    }
  }

  /** `check_symlinks`: accepts exactly if the chain of every link stays inside the selected entries and
      reaches something that is no link. */
  method CheckSymlinks(entries: Entries) returns (ok: bool)
    requires NamesValid(entries)
    ensures ok <==> forall name :: name in entries ==> Grounded(entries, name)
  {
    var todo := entries.Keys;
    while todo != {}
      invariant todo <= entries.Keys
      invariant forall name :: name in entries && name !in todo ==> Grounded(entries, name)
    {
      var name :| name in todo;
      if entries[name].Link? {
        var good := Chase(entries, name);
        if !good {
          return false;
        }
      } else {
        assert Resolves(entries, name, 0);
      }
      todo := todo - {name};
    }
    ok := true;
  }
}
