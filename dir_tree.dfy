/** The file system as the search sees it: a finite tree of directory snapshots, each
    listing either succeeding or throwing one of the three exceptions the walk absorbs. */
module DirTree {
  import opened Wrappers

  /** A file entry produced by a successful listing. */
  datatype File = File(path: string)

  /** UnauthorizedAccessException, PathTooLongException, DirectoryNotFoundException. */
  datatype IoError = UnauthorizedAccess | PathTooLong | DirectoryNotFound

  /** One directory: its files and subdirectories in listing order, and the exception, if
      any, that `GetDirectories()` and `GetFiles(pattern)` throw on it. */
  datatype Dir = Dir(files: seq<File>, subdirs: seq<Dir>, dirsError: Option<IoError>, filesError: Option<IoError>)

  /** A directory that does not exist (any more): both listings throw DirectoryNotFoundException. */
  const Missing: Dir := Dir([], [], Some(DirectoryNotFound), Some(DirectoryNotFound))

  /** The folders of the machine, by full path; a path that is not a key names nothing. */
  type FileSystem = map<string, Dir>

  /** `new DirectoryInfo(path)`: the snapshot under that path, or a missing directory. */
  function Resolve(fs: FileSystem, path: string): (d: Dir)
    ensures path !in fs ==> d.dirsError == Some(DirectoryNotFound)
  {
    if path in fs then fs[path] else Missing
  }

  /** The selection rule: a search pattern matched by the platform, or a caller's delegate. */
  type Matcher = File -> bool

  /** The accepted files of a listing, in listing order. */
  function Filter(fs: seq<File>, isMatch: Matcher): seq<File>
  {
    if fs == [] then [] else (if isMatch(fs[0]) then [fs[0]] else []) + Filter(fs[1..], isMatch)
  }

  /** The listing keeps every accepted file as often as it occurs, and nothing else. */
  lemma {:induction false} FilterCounts(fs: seq<File>, isMatch: Matcher)
    ensures forall f :: multiset(Filter(fs, isMatch))[f] == if isMatch(f) then multiset(fs)[f] else 0
  {
    if fs != [] {
      assert fs == [fs[0]] + fs[1..];
      FilterCounts(fs[1..], isMatch);
    }
  }

  /** `dirInfo.GetFiles(pattern)` on a directory whose file listing succeeds. */
  function Matches(d: Dir, isMatch: Matcher): seq<File>
  {
    Filter(d.files, isMatch)
  }

  /** Both listings of this one directory succeed. */
  predicate Healthy(d: Dir)
  {
    d.dirsError.None? && d.filesError.None?
  }

  /** No listing anywhere in the subtree fails. */
  predicate NoFailures(d: Dir)
  {
    Healthy(d) && forall c :: c in d.subdirs ==> NoFailures(c)
  }

  /** Every occurrence of an accepted file anywhere in the subtree. */
  function TreeMatches(d: Dir, isMatch: Matcher): multiset<File>
    decreases d
  {
    multiset(Matches(d, isMatch)) + ForestMatches(d.subdirs, isMatch)
  }

  function ForestMatches(ds: seq<Dir>, isMatch: Matcher): multiset<File>
    decreases ds
  {
    if ds == [] then multiset{} else TreeMatches(ds[0], isMatch) + ForestMatches(ds[1..], isMatch)
  }

  /** The accepted files a depth-first walk can reach when listings fail: a directory whose
      subdirectories cannot be listed hides its whole subtree, one whose files cannot be
      listed hides only its own files. */
  function Reachable(d: Dir, isMatch: Matcher): multiset<File>
    decreases d
  {
    if d.dirsError.Some? then multiset{}
    else
      (if d.filesError.Some? then multiset{} else multiset(Matches(d, isMatch)))
      + ForestReachable(d.subdirs, isMatch)
  }

  function ForestReachable(ds: seq<Dir>, isMatch: Matcher): multiset<File>
    decreases ds
  {
    if ds == [] then multiset{} else Reachable(ds[0], isMatch) + ForestReachable(ds[1..], isMatch)
  }

  lemma {:induction false} ForestMatchesAppend(a: seq<Dir>, b: seq<Dir>, isMatch: Matcher)
    ensures ForestMatches(a + b, isMatch) == ForestMatches(a, isMatch) + ForestMatches(b, isMatch)
    ensures ForestReachable(a + b, isMatch) == ForestReachable(a, isMatch) + ForestReachable(b, isMatch)
  {
    if a == [] {
      assert a + b == b;
    } else {
      assert (a + b)[1..] == a[1..] + b;
      ForestMatchesAppend(a[1..], b, isMatch);
    }
  }

  lemma ForestReachableSnoc(ds: seq<Dir>, x: Dir, isMatch: Matcher)
    ensures ForestReachable(ds + [x], isMatch) == ForestReachable(ds, isMatch) + Reachable(x, isMatch)
  {
    ForestMatchesAppend(ds, [x], isMatch);
    assert [x][1..] == [];
  }

  lemma ForestReachablePrefix(ds: seq<Dir>, n: nat, isMatch: Matcher)
    requires 0 < n <= |ds|
    ensures ForestReachable(ds[..n], isMatch) == ForestReachable(ds[..n - 1], isMatch) + Reachable(ds[n - 1], isMatch)
  {
    assert ds[..n] == ds[..n - 1] + [ds[n - 1]];
    ForestReachableSnoc(ds[..n - 1], ds[n - 1], isMatch);
  }

  /** What a walk can reach is part of the tree, and all of it when nothing fails. */
  lemma {:induction false} ReachableWithinTree(d: Dir, isMatch: Matcher)
    decreases d, 1
    ensures Reachable(d, isMatch) <= TreeMatches(d, isMatch)
    ensures NoFailures(d) ==> Reachable(d, isMatch) == TreeMatches(d, isMatch)
  {
    ForestReachableWithin(d.subdirs, isMatch);
  }

  lemma {:induction false} ForestReachableWithin(ds: seq<Dir>, isMatch: Matcher)
    decreases ds, 0
    ensures ForestReachable(ds, isMatch) <= ForestMatches(ds, isMatch)
    ensures (forall c :: c in ds ==> NoFailures(c)) ==> ForestReachable(ds, isMatch) == ForestMatches(ds, isMatch)
  {
    if ds != [] {
      ReachableWithinTree(ds[0], isMatch);
      ForestReachableWithin(ds[1..], isMatch);
      assert forall c :: c in ds[1..] ==> c in ds;
    }
  }

  /** A directory below another, named by the child positions on the way down. */
  type Path = seq<nat>

  /** The directory a path leads to by listing subdirectories, if every listing on the way
      succeeds and every position exists. */
  function At(d: Dir, p: Path): Option<Dir>
    decreases p
  {
    if p == [] then Some(d)
    else if d.dirsError.None? && p[0] < |d.subdirs| then At(d.subdirs[p[0]], p[1..])
    else None
  }

  /** Following a longer path is following its prefix, then the rest. */
  lemma {:induction false} AtExtend(d: Dir, p: Path, q: Path)
    requires ProperPrefix(p, q) && At(d, p).Some?
    ensures At(d, q) == At(At(d, p).value, q[|p|..])
    decreases p
  {
    if p != [] {
      assert q[0] == p[0];
      assert ProperPrefix(p[1..], q[1..]) by {
        assert q[1..][..|p[1..]|] == q[..|p|][1..];
      }
      AtExtend(d.subdirs[p[0]], p[1..], q[1..]);
      assert q[1..][|p[1..]|..] == q[|p|..];
    }
  }

  /** The path that takes the first child `n` times. */
  function FirstChildPath(n: nat): (p: Path)
  {
    seq(n, _ => 0)
  }

  predicate ProperPrefix(p: Path, q: Path)
  {
    |p| < |q| && q[..|p|] == p
  }

  /** The order of a post-order walk that visits children in listing order: `p` comes before
      `q` when `q` is an ancestor of `p`, or when at the first position where they differ `p`
      takes an earlier child. */
  predicate PostBefore(p: Path, q: Path)
    decreases |p|
  {
    if q == [] then p != []
    else p != [] && (p[0] < q[0] || (p[0] == q[0] && PostBefore(p[1..], q[1..])))
  }

  lemma {:induction false} PostBeforeAsymmetric(p: Path, q: Path)
    ensures !(PostBefore(p, q) && PostBefore(q, p))
    decreases |p|
  {
    if p != [] && q != [] && p[0] == q[0] {
      PostBeforeAsymmetric(p[1..], q[1..]);
    }
  }

  /** A proper descendant always comes before its ancestor. */
  lemma {:induction false} DescendantBefore(p: Path, q: Path)
    requires ProperPrefix(p, q)
    ensures PostBefore(q, p) && !PostBefore(p, q)
    decreases |p|
  {
    if p != [] {
      assert q[0] == p[0];
      assert ProperPrefix(p[1..], q[1..]) by {
        assert q[1..][..|p[1..]|] == q[..|p|][1..];
      }
      DescendantBefore(p[1..], q[1..]);
    }
  }

  lemma PostBeforeUnder(i: nat, p: Path, q: Path)
    ensures PostBefore([i] + p, [i] + q) == PostBefore(p, q)
  {
    assert ([i] + p)[1..] == p;
    assert ([i] + q)[1..] == q;
  }
}
