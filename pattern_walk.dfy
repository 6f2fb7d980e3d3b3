/** What the directory walk of `FilePatternSearch` reports, as functions of the tree:
    `Walk` for the post-order `GetFiles`, `StartChain` for `GetStartDirectories`, and
    `FastBatches` for the two-level fan-out of `GetFilesFast` run in listing order.
    The searcher's methods are proved to emit exactly these batches (in any order, for the
    fan-out); the lemmas here say what the batches are. */
module PatternWalk {
  import opened Wrappers
  import opened DirTree
  import opened FlatMaps

  /** One call of `OnFilesFound` during a walk: the directory that made it (as a path from
      the walk's start) and the batch it passed. */
  datatype Emission = Emission(origin: Path, batch: seq<File>)

  /** The batch a directory reports for its own files, if its file listing succeeds and
      finds something. */
  function OwnBatches(d: Dir, isMatch: Matcher): seq<seq<File>>
  {
    if d.filesError.Some? || Matches(d, isMatch) == [] then [] else [Matches(d, isMatch)]
  }

  /** `GetFiles(d)`: nothing if the subdirectories cannot be listed; otherwise the walks of
      all children in listing order, then the directory's own batch. */
  function Walk(d: Dir, isMatch: Matcher): seq<Emission>
    decreases d, |d.subdirs| + 1
  {
    if d.dirsError.Some? then []
    else
      WalkChildren(d, |d.subdirs|, isMatch)
      + (if OwnBatches(d, isMatch) == [] then [] else [Emission([], Matches(d, isMatch))])
  }

  /** The walks of the first `n` children of `d`, in listing order. */
  function WalkChildren(d: Dir, n: nat, isMatch: Matcher): seq<Emission>
    requires n <= |d.subdirs|
    decreases d, n
  {
    if n == 0 then []
    else WalkChildren(d, n - 1, isMatch) + Under(n - 1, Walk(d.subdirs[n - 1], isMatch))
  }

  /** Emissions of child `i`'s walk, seen from the parent. */
  function Under(i: nat, es: seq<Emission>): seq<Emission>
  {
    seq(|es|, k requires 0 <= k < |es| => Emission([i] + es[k].origin, es[k].batch))
  }

  function Batches(es: seq<Emission>): seq<seq<File>>
  {
    seq(|es|, k requires 0 <= k < |es| => es[k].batch)
  }

  function BatchFiles(b: seq<File>): seq<File>
  {
    b
  }

  /** All files of a sequence of batches, batch after batch. */
  function Flatten(bs: seq<seq<File>>): seq<File>
  {
    FlatMap(BatchFiles, bs)
  }

  lemma BatchesAppend(a: seq<Emission>, b: seq<Emission>)
    ensures Batches(a + b) == Batches(a) + Batches(b)
  {
    assert forall k :: 0 <= k < |a + b| ==> Batches(a + b)[k] == (Batches(a) + Batches(b))[k];
  }

  lemma BatchesUnder(i: nat, es: seq<Emission>)
    ensures Batches(Under(i, es)) == Batches(es)
  {
  }

  lemma FlattenAppend(a: seq<seq<File>>, b: seq<seq<File>>)
    ensures Flatten(a + b) == Flatten(a) + Flatten(b)
  {
    FlatMapAppend(BatchFiles, a, b);
  }

  lemma FlattenOwn(d: Dir, isMatch: Matcher)
    ensures multiset(Flatten(OwnBatches(d, isMatch)))
            == if d.filesError.Some? then multiset{} else multiset(Matches(d, isMatch))
  {
    if OwnBatches(d, isMatch) != [] {
      FlatMapSingle(BatchFiles, Matches(d, isMatch));
    }
  }

  /** The batches of a listable directory's walk: its children's, then its own. */
  lemma WalkBatchesSplit(d: Dir, isMatch: Matcher)
    requires d.dirsError.None?
    ensures Batches(Walk(d, isMatch)) == Batches(WalkChildren(d, |d.subdirs|, isMatch)) + OwnBatches(d, isMatch)
  {
    var own := if OwnBatches(d, isMatch) == [] then [] else [Emission([], Matches(d, isMatch))];
    BatchesAppend(WalkChildren(d, |d.subdirs|, isMatch), own);
  }

  /** Walking one more child appends that child's batches. */
  lemma WalkChildrenStep(d: Dir, n: nat, isMatch: Matcher)
    requires n < |d.subdirs|
    ensures Batches(WalkChildren(d, n + 1, isMatch))
            == Batches(WalkChildren(d, n, isMatch)) + Batches(Walk(d.subdirs[n], isMatch))
  {
    var w := Walk(d.subdirs[n], isMatch);
    BatchesAppend(WalkChildren(d, n, isMatch), Under(n, w));
    BatchesUnder(n, w);
  }

  // ---------------------------------------------------------------------------------------
  // GetFiles: every batch comes from one healthy directory, is that directory's matches
  // and is non-empty; batches come in post-order; the files are exactly the reachable ones.

  /** Emission `e` of a walk started at `d` is the non-empty match list of the directory `e`
      names, whose listings both succeeded. */
  predicate FromDir(d: Dir, e: Emission, isMatch: Matcher)
  {
    && At(d, e.origin).Some?
    && Healthy(At(d, e.origin).value)
    && e.batch == Matches(At(d, e.origin).value, isMatch)
    && |e.batch| > 0
  }

  lemma {:induction false} WalkOrigins(d: Dir, isMatch: Matcher, k: nat)
    requires k < |Walk(d, isMatch)|
    decreases d, |d.subdirs| + 1
    ensures FromDir(d, Walk(d, isMatch)[k], isMatch)
  {
    var c := WalkChildren(d, |d.subdirs|, isMatch);
    if k < |c| {
      WalkChildrenOrigins(d, |d.subdirs|, isMatch, k);
    }
  }

  lemma {:induction false} WalkChildrenOrigins(d: Dir, n: nat, isMatch: Matcher, k: nat)
    requires d.dirsError.None? && n <= |d.subdirs| && k < |WalkChildren(d, n, isMatch)|
    decreases d, n
    ensures FromDir(d, WalkChildren(d, n, isMatch)[k], isMatch)
  {
    var a := WalkChildren(d, n - 1, isMatch);
    var child := d.subdirs[n - 1];
    if k < |a| {
      WalkChildrenOrigins(d, n - 1, isMatch, k);
    } else {
      var w := Walk(child, isMatch);
      var k' := k - |a|;
      WalkOrigins(child, isMatch, k');
      var p := w[k'].origin;
      assert WalkChildren(d, n, isMatch)[k] == Emission([n - 1] + p, w[k'].batch);
      assert ([n - 1] + p)[1..] == p;
      assert At(d, [n - 1] + p) == At(child, p);
    }
  }

  /** The origins of a walk's emissions, in order, follow `PostBefore`. */
  predicate PostOrdered(es: seq<Emission>)
  {
    forall i, j :: 0 <= i < j < |es| ==> PostBefore(es[i].origin, es[j].origin)
  }

  lemma PostOrderedAppend(a: seq<Emission>, b: seq<Emission>)
    requires PostOrdered(a) && PostOrdered(b)
    requires forall x, y :: x in a && y in b ==> PostBefore(x.origin, y.origin)
    ensures PostOrdered(a + b)
  {
    forall i, j | 0 <= i < j < |a + b| ensures PostBefore((a + b)[i].origin, (a + b)[j].origin) {
      if j < |a| {
      } else if i >= |a| {
        assert (a + b)[i] == b[i - |a|] && (a + b)[j] == b[j - |a|];
      } else {
        assert (a + b)[i] in a && (a + b)[j] in b;
      }
    }
  }

  lemma {:induction false} WalkPostOrder(d: Dir, isMatch: Matcher)
    decreases d, |d.subdirs| + 1
    ensures PostOrdered(Walk(d, isMatch))
  {
    if d.dirsError.None? {
      var c := WalkChildren(d, |d.subdirs|, isMatch);
      WalkChildrenPostOrder(d, |d.subdirs|, isMatch);
      var own := if OwnBatches(d, isMatch) == [] then [] else [Emission([], Matches(d, isMatch))];
      PostOrderedAppend(c, own);
    }
  }

  lemma {:induction false} WalkChildrenPostOrder(d: Dir, n: nat, isMatch: Matcher)
    requires n <= |d.subdirs|
    decreases d, n
    ensures PostOrdered(WalkChildren(d, n, isMatch))
    ensures forall e :: e in WalkChildren(d, n, isMatch) ==> e.origin != [] && e.origin[0] < n
  {
    if n > 0 {
      var a := WalkChildren(d, n - 1, isMatch);
      WalkChildrenPostOrder(d, n - 1, isMatch);
      var w := Walk(d.subdirs[n - 1], isMatch);
      WalkPostOrder(d.subdirs[n - 1], isMatch);
      var u := Under(n - 1, w);
      forall i, j | 0 <= i < j < |u| ensures PostBefore(u[i].origin, u[j].origin) {
        PostBeforeUnder(n - 1, w[i].origin, w[j].origin);
      }
      forall e | e in u ensures e.origin != [] && e.origin[0] == n - 1 {
        var k :| 0 <= k < |u| && u[k] == e;
      }
      PostOrderedAppend(a, u);
    }
  }

  /** A directory's batches are reported after the batches of every directory below it:
      if emission `i` comes from an ancestor of the directory of emission `j`, then `j`
      comes first. */
  lemma ChildBatchesBeforeParent(d: Dir, isMatch: Matcher, i: nat, j: nat)
    requires i < |Walk(d, isMatch)| && j < |Walk(d, isMatch)|
    requires ProperPrefix(Walk(d, isMatch)[i].origin, Walk(d, isMatch)[j].origin)
    ensures j < i
  {
    var es := Walk(d, isMatch);
    WalkPostOrder(d, isMatch);
    DescendantBefore(es[i].origin, es[j].origin);
  }

  /** With every listing this walk meets succeeding or failing, the files it reports are
      exactly the reachable accepted files, each as often as it occurs. */
  lemma {:induction false} WalkReportsReachable(d: Dir, isMatch: Matcher)
    decreases d, |d.subdirs| + 1
    ensures multiset(Flatten(Batches(Walk(d, isMatch)))) == Reachable(d, isMatch)
  {
    if d.dirsError.None? {
      WalkChildrenReachable(d, |d.subdirs|, isMatch);
      WalkReachableFromChildren(d, isMatch);
    }
  }

  /** A listable directory's walk reports what its children's walks report, then its own
      accepted files. */
  lemma WalkReachableFromChildren(d: Dir, isMatch: Matcher)
    requires d.dirsError.None?
    requires multiset(Flatten(Batches(WalkChildren(d, |d.subdirs|, isMatch)))) == ForestReachable(d.subdirs[..|d.subdirs|], isMatch)
    ensures multiset(Flatten(Batches(Walk(d, isMatch)))) == Reachable(d, isMatch)
  {
    var c := Batches(WalkChildren(d, |d.subdirs|, isMatch));
    assert d.subdirs[..|d.subdirs|] == d.subdirs;
    WalkBatchesSplit(d, isMatch);
    FlattenAppend(c, OwnBatches(d, isMatch));
    FlattenOwn(d, isMatch);
  }

  lemma {:induction false} WalkChildrenReachable(d: Dir, n: nat, isMatch: Matcher)
    requires n <= |d.subdirs|
    decreases d, n
    ensures multiset(Flatten(Batches(WalkChildren(d, n, isMatch)))) == ForestReachable(d.subdirs[..n], isMatch)
  {
    if n == 0 {
      assert d.subdirs[..0] == [];
      assert Flatten([]) == [];
    } else {
      WalkChildrenReachable(d, n - 1, isMatch);
      WalkReportsReachable(d.subdirs[n - 1], isMatch);
      WalkChildrenReachableStep(d, n, isMatch);
    }
  }

  /** One more child walked adds exactly that child's reachable files. */
  lemma WalkChildrenReachableStep(d: Dir, n: nat, isMatch: Matcher)
    requires 0 < n <= |d.subdirs|
    requires multiset(Flatten(Batches(WalkChildren(d, n - 1, isMatch)))) == ForestReachable(d.subdirs[..n - 1], isMatch)
    requires multiset(Flatten(Batches(Walk(d.subdirs[n - 1], isMatch)))) == Reachable(d.subdirs[n - 1], isMatch)
    ensures multiset(Flatten(Batches(WalkChildren(d, n, isMatch)))) == ForestReachable(d.subdirs[..n], isMatch)
  {
    FlattenChildrenStep(d, n, isMatch);
    ForestReachablePrefix(d.subdirs, n, isMatch);
  }

  /** The files of the first `n` children's walks are those of the first `n - 1`, then those
      of child `n - 1`. */
  lemma FlattenChildrenStep(d: Dir, n: nat, isMatch: Matcher)
    requires 0 < n <= |d.subdirs|
    ensures Flatten(Batches(WalkChildren(d, n, isMatch)))
            == Flatten(Batches(WalkChildren(d, n - 1, isMatch))) + Flatten(Batches(Walk(d.subdirs[n - 1], isMatch)))
  {
    var a := WalkChildren(d, n - 1, isMatch);
    var w := Walk(d.subdirs[n - 1], isMatch);
    BatchesAppend(a, Under(n - 1, w));
    BatchesUnder(n - 1, w);
    FlattenAppend(Batches(a), Batches(w));
  }

  /** With no failing listing, `GetFiles(d)` reports every accepted file of the subtree
      exactly as often as it occurs. */
  lemma WalkComplete(d: Dir, isMatch: Matcher)
    requires NoFailures(d)
    ensures multiset(Flatten(Batches(Walk(d, isMatch)))) == TreeMatches(d, isMatch)
  {
    WalkReportsReachable(d, isMatch);
    ReachableWithinTree(d, isMatch);
  }

  /** A directory whose file listing fails after its children were walked keeps the
      children's batches and adds none of its own. */
  lemma WalkKeepsChildrenWhenFilesFail(d: Dir, isMatch: Matcher)
    requires d.dirsError.None? && d.filesError.Some?
    ensures Batches(Walk(d, isMatch)) == Batches(WalkChildren(d, |d.subdirs|, isMatch))
  {
    WalkBatchesSplit(d, isMatch);
  }

  /** A directory whose subdirectories cannot be listed hides its whole subtree from the
      walk: no emission names it or anything below it. */
  lemma WalkSkipsUnlistable(d: Dir, isMatch: Matcher, p: Path, k: nat)
    requires At(d, p).Some? && At(d, p).value.dirsError.Some?
    requires k < |Walk(d, isMatch)|
    ensures Walk(d, isMatch)[k].origin != p && !ProperPrefix(p, Walk(d, isMatch)[k].origin)
  {
    var q := Walk(d, isMatch)[k].origin;
    WalkOrigins(d, isMatch, k);
    if ProperPrefix(p, q) {
      AtExtend(d, p, q);
    }
  }

  // ---------------------------------------------------------------------------------------
  // GetStartDirectories: collapse a chain of single-child directories.

  /** The batches `GetStartDirectories` reports and the list it returns. */
  datatype Chain = Chain(batches: seq<seq<File>>, start: seq<Dir>)

  function StartChain(d: Dir, isMatch: Matcher): Chain
    decreases d
  {
    if !Healthy(d) then Chain([], [])
    else if |d.subdirs| > 1 then Chain(OwnBatches(d, isMatch), d.subdirs)
    else if |d.subdirs| == 0 then Chain(OwnBatches(d, isMatch), [])
    else
      var rest := StartChain(d.subdirs[0], isMatch);
      Chain(OwnBatches(d, isMatch) + rest.batches, rest.start)
  }

  /** The directories the collapse visits: from `d` down through every healthy directory
      with exactly one subdirectory, ending at the first that fails or has zero or several. */
  function ChainDirs(d: Dir): (r: seq<Dir>)
    decreases d
    ensures |r| >= 1 && r[0] == d
    ensures forall i :: 0 <= i < |r| - 1 ==> Healthy(r[i]) && |r[i].subdirs| == 1 && r[i + 1] == r[i].subdirs[0]
    ensures !Healthy(r[|r| - 1]) || |r[|r| - 1].subdirs| != 1
  {
    if Healthy(d) && |d.subdirs| == 1 then [d] + ChainDirs(d.subdirs[0]) else [d]
  }

  /** The `i`-th directory of the chain is the one `i` first-child steps below `d`. */
  lemma {:induction false} ChainDirsAt(d: Dir, i: nat)
    requires i < |ChainDirs(d)|
    decreases d
    ensures At(d, FirstChildPath(i)) == Some(ChainDirs(d)[i])
  {
    if i > 0 {
      var rest := ChainDirs(d.subdirs[0]);
      assert ChainDirs(d) == [d] + rest;
      ChainDirsAt(d.subdirs[0], i - 1);
      assert FirstChildPath(i)[1..] == FirstChildPath(i - 1);
    }
  }

  /** What one directory of the chain reports: its own batch, unless a listing fails. */
  function ChainContribution(x: Dir, isMatch: Matcher): seq<seq<File>>
  {
    if x.dirsError.Some? then [] else OwnBatches(x, isMatch)
  }

  function ContributionOf(isMatch: Matcher): Dir -> seq<seq<File>>
  {
    x => ChainContribution(x, isMatch)
  }

  /** The start set a chain's last directory yields: its children if it is healthy and has
      two or more, otherwise nothing. */
  function BranchChildren(x: Dir): seq<Dir>
  {
    if Healthy(x) && |x.subdirs| >= 2 then x.subdirs else []
  }

  /** Every directory on the collapsed chain, the last one included, reports its batch. */
  lemma {:induction false} ChainBatchesFollowChain(d: Dir, isMatch: Matcher)
    decreases d
    ensures StartChain(d, isMatch).batches == FlatMap(ContributionOf(isMatch), ChainDirs(d))
  {
    var r := ChainDirs(d);
    var f := ContributionOf(isMatch);
    if Healthy(d) && |d.subdirs| == 1 {
      ChainBatchesFollowChain(d.subdirs[0], isMatch);
      assert r[1..] == ChainDirs(d.subdirs[0]);
      assert f(d) == OwnBatches(d, isMatch);
    } else {
      FlatMapSingle(f, d);
    }
  }

  /** The start set is what the last directory of the chain yields: the children of the
      first directory that has two or more, or nothing. */
  lemma {:induction false} ChainStartIsBranch(d: Dir, isMatch: Matcher)
    decreases d
    ensures StartChain(d, isMatch).start == BranchChildren(ChainDirs(d)[|ChainDirs(d)| - 1])
  {
    if Healthy(d) && |d.subdirs| == 1 {
      var rest := ChainDirs(d.subdirs[0]);
      ChainStartIsBranch(d.subdirs[0], isMatch);
      assert ChainDirs(d) == [d] + rest;
    }
  }

  /** A start directory whose file or subdirectory listing fails contributes nothing to the
      search, not even the batches of its subdirectories. */
  lemma FailedStartDirSkipsSubtree(s: Dir, isMatch: Matcher)
    requires !Healthy(s)
    ensures UnitBatches(s, isMatch) == []
  {
    assert StartChain(s, isMatch) == Chain([], []);
  }

  /** `GetStartDirectories` never returns exactly one directory. */
  lemma StartSetNeverSingleton(d: Dir, isMatch: Matcher)
    ensures |StartChain(d, isMatch).start| != 1
  {
    ChainStartIsBranch(d, isMatch);
  }

  lemma {:induction false} ChainBatchesNonEmpty(d: Dir, isMatch: Matcher)
    decreases d
    ensures forall b :: b in StartChain(d, isMatch).batches ==> |b| > 0
  {
    if Healthy(d) && |d.subdirs| == 1 {
      ChainBatchesNonEmpty(d.subdirs[0], isMatch);
    }
  }

  /** The chain's batches and the subtrees of its start set together account for no more
      than the tree, and for all of it when no listing fails. */
  lemma {:induction false} ChainPartition(d: Dir, isMatch: Matcher)
    decreases d
    ensures multiset(Flatten(StartChain(d, isMatch).batches)) + ForestMatches(StartChain(d, isMatch).start, isMatch)
            <= TreeMatches(d, isMatch)
    ensures NoFailures(d) ==>
            multiset(Flatten(StartChain(d, isMatch).batches)) + ForestMatches(StartChain(d, isMatch).start, isMatch)
            == TreeMatches(d, isMatch)
  {
    if Healthy(d) {
      var own := OwnBatches(d, isMatch);
      FlattenOwn(d, isMatch);
      assert TreeMatches(d, isMatch) == multiset(Flatten(own)) + ForestMatches(d.subdirs, isMatch);
      if |d.subdirs| == 1 {
        var child := d.subdirs[0];
        var rest := StartChain(child, isMatch);
        ChainPartition(child, isMatch);
        FlattenAppend(own, rest.batches);
        assert d.subdirs[1..] == [];
        assert ForestMatches(d.subdirs, isMatch) == TreeMatches(child, isMatch);
        assert NoFailures(d) ==> NoFailures(child);
        var a, b := multiset(Flatten(own)), multiset(Flatten(rest.batches));
        assert multiset(Flatten(StartChain(d, isMatch).batches)) == a + b;
        SumWithin(a, a, b + ForestMatches(rest.start, isMatch), TreeMatches(child, isMatch));
      }
    }
  }

  /** With no failing listing, every directory of the start set has none either. */
  lemma {:induction false} ChainStartHasNoFailures(d: Dir, isMatch: Matcher)
    requires NoFailures(d)
    decreases d
    ensures forall s :: s in StartChain(d, isMatch).start ==> NoFailures(s)
  {
    if |d.subdirs| == 1 {
      ChainStartHasNoFailures(d.subdirs[0], isMatch);
    }
  }

  // ---------------------------------------------------------------------------------------
  // GetFilesFast: the chain of the root, then for each start directory its own chain and
  // the walks of its start set.

  function WalkBatchesOf(isMatch: Matcher): Dir -> seq<seq<File>>
  {
    d => Batches(Walk(d, isMatch))
  }

  /** One unit of the outer fan-out, with its inner fan-out run in listing order. */
  function UnitBatches(s: Dir, isMatch: Matcher): seq<seq<File>>
  {
    var c := StartChain(s, isMatch);
    c.batches + FlatMap(WalkBatchesOf(isMatch), c.start)
  }

  function UnitBatchesOf(isMatch: Matcher): Dir -> seq<seq<File>>
  {
    s => UnitBatches(s, isMatch)
  }

  /** The batches of `GetFilesFast(root)`, with both fan-outs run in listing order. */
  function FastBatches(root: Dir, isMatch: Matcher): seq<seq<File>>
  {
    var c := StartChain(root, isMatch);
    c.batches + FlatMap(UnitBatchesOf(isMatch), c.start)
  }

  lemma {:induction false} FlatMapWithinForest(f: Dir -> seq<seq<File>>, ds: seq<Dir>, isMatch: Matcher)
    requires forall s :: s in ds ==> multiset(Flatten(f(s))) <= TreeMatches(s, isMatch)
    ensures multiset(Flatten(FlatMap(f, ds))) <= ForestMatches(ds, isMatch)
    ensures (forall s :: s in ds ==> multiset(Flatten(f(s))) == TreeMatches(s, isMatch))
            ==> multiset(Flatten(FlatMap(f, ds))) == ForestMatches(ds, isMatch)
  {
    if ds != [] {
      var head, tail := f(ds[0]), FlatMap(f, ds[1..]);
      assert forall s :: s in ds[1..] ==> s in ds;
      FlatMapWithinForest(f, ds[1..], isMatch);
      assert FlatMap(f, ds) == head + tail;
      FlattenAppend(head, tail);
      assert multiset(Flatten(head + tail)) == multiset(Flatten(head)) + multiset(Flatten(tail));
      assert ForestMatches(ds, isMatch) == TreeMatches(ds[0], isMatch) + ForestMatches(ds[1..], isMatch);
      SumWithin(multiset(Flatten(head)), TreeMatches(ds[0], isMatch),
                multiset(Flatten(tail)), ForestMatches(ds[1..], isMatch));
    }
  }

  lemma SumWithin<T>(a: multiset<T>, b: multiset<T>, c: multiset<T>, d: multiset<T>)
    requires a <= b && c <= d
    ensures a + c <= b + d
  {
  }

  lemma UnitWithinTree(s: Dir, isMatch: Matcher)
    ensures multiset(Flatten(UnitBatches(s, isMatch))) <= TreeMatches(s, isMatch)
    ensures NoFailures(s) ==> multiset(Flatten(UnitBatches(s, isMatch))) == TreeMatches(s, isMatch)
  {
    var c := StartChain(s, isMatch);
    var f := WalkBatchesOf(isMatch);
    forall t | t in c.start
      ensures multiset(Flatten(f(t))) <= TreeMatches(t, isMatch)
      ensures NoFailures(t) ==> multiset(Flatten(f(t))) == TreeMatches(t, isMatch)
    {
      WalkReportsReachable(t, isMatch);
      ReachableWithinTree(t, isMatch);
    }
    if NoFailures(s) {
      ChainStartHasNoFailures(s, isMatch);
    }
    FlatMapWithinForest(f, c.start, isMatch);
    FlattenAppend(c.batches, FlatMap(f, c.start));
    ChainPartition(s, isMatch);
  }

  /** The fan-out reports no file more often than it occurs in the tree, and, with no
      failing listing, every accepted file exactly as often as it occurs: the chain stage,
      the two fan-out levels and the sequential walks partition the tree. */
  lemma FastWithinTree(root: Dir, isMatch: Matcher)
    ensures multiset(Flatten(FastBatches(root, isMatch))) <= TreeMatches(root, isMatch)
    ensures NoFailures(root) ==> multiset(Flatten(FastBatches(root, isMatch))) == TreeMatches(root, isMatch)
  {
    var c := StartChain(root, isMatch);
    var f := UnitBatchesOf(isMatch);
    forall t | t in c.start
      ensures multiset(Flatten(f(t))) <= TreeMatches(t, isMatch)
      ensures NoFailures(t) ==> multiset(Flatten(f(t))) == TreeMatches(t, isMatch)
    {
      UnitWithinTree(t, isMatch);
    }
    if NoFailures(root) {
      ChainStartHasNoFailures(root, isMatch);
    }
    FlatMapWithinForest(f, c.start, isMatch);
    FlattenAppend(c.batches, FlatMap(f, c.start));
    ChainPartition(root, isMatch);
  }

  lemma WalkBatchesNonEmpty(d: Dir, isMatch: Matcher)
    ensures forall b :: b in Batches(Walk(d, isMatch)) ==> |b| > 0
  {
    forall b | b in Batches(Walk(d, isMatch)) ensures |b| > 0 {
      var k :| 0 <= k < |Walk(d, isMatch)| && Batches(Walk(d, isMatch))[k] == b;
      WalkOrigins(d, isMatch, k);
    }
  }

  /** No batch of the fan-out is empty. */
  lemma FastBatchesNonEmpty(root: Dir, isMatch: Matcher)
    ensures forall b :: b in FastBatches(root, isMatch) ==> |b| > 0
  {
    var P := (b: seq<File>) => |b| > 0;
    var c := StartChain(root, isMatch);
    forall s | s in c.start ensures forall b :: b in UnitBatches(s, isMatch) ==> P(b) {
      var cs := StartChain(s, isMatch);
      forall t | t in cs.start ensures forall b :: b in WalkBatchesOf(isMatch)(t) ==> P(b) {
        WalkBatchesNonEmpty(t, isMatch);
      }
      FlatMapEvery(WalkBatchesOf(isMatch), cs.start, P);
      ChainBatchesNonEmpty(s, isMatch);
    }
    FlatMapEvery(UnitBatchesOf(isMatch), c.start, P);
    ChainBatchesNonEmpty(root, isMatch);
  }

  /** Whatever order the units run in, a run that reports a sub-multiset of the in-order
      batches reports only non-empty batches and no file more often than the tree holds it;
      a run that reports all of them reports, with no failing listing, every accepted file of
      the tree exactly as often as it occurs. */
  lemma ReportedFilesWithinTree(root: Dir, isMatch: Matcher, found: seq<seq<File>>)
    requires multiset(found) <= multiset(FastBatches(root, isMatch))
    ensures forall b :: b in found ==> |b| > 0
    ensures multiset(Flatten(found)) <= TreeMatches(root, isMatch)
    ensures multiset(found) == multiset(FastBatches(root, isMatch)) && NoFailures(root)
            ==> multiset(Flatten(found)) == TreeMatches(root, isMatch)
  {
    FastBatchesNonEmpty(root, isMatch);
    forall b | b in found ensures |b| > 0 {
      assert b in multiset(FastBatches(root, isMatch));
    }
    FlatMapSubBag(BatchFiles, found, FastBatches(root, isMatch));
    FastWithinTree(root, isMatch);
    if multiset(found) == multiset(FastBatches(root, isMatch)) {
      FlatMapPermutation(BatchFiles, found, FastBatches(root, isMatch));
    }
  }

  // ---------------------------------------------------------------------------------------
  // A single-child chain: root/{x.txt, sub1/{sub2/{y.txt}}} searched for every file.

  /** The chain collapse alone reports both batches, `x.txt` from the root and `y.txt` from
      `sub2`, and leaves no start directory, so no unit of the fan-out runs. */
  lemma SingleChildChainExample()
    ensures var x, y := File("root/x.txt"), File("root/sub1/sub2/y.txt");
            var sub2 := Dir([y], [], None, None);
            var sub1 := Dir([], [sub2], None, None);
            var root := Dir([x], [sub1], None, None);
            && StartChain(root, _ => true) == Chain([[x], [y]], [])
            && FastBatches(root, _ => true) == [[x], [y]]
  {
    var x, y := File("root/x.txt"), File("root/sub1/sub2/y.txt");
    var all: Matcher := _ => true;
    var sub2 := Dir([y], [], None, None);
    var sub1 := Dir([], [sub2], None, None);
    var root := Dir([x], [sub1], None, None);
    assert Matches(sub2, all) == [y] by {
      assert all(y) && sub2.files[1..] == [] && Filter([], all) == [];
    }
    assert Matches(root, all) == [x] by {
      assert all(x) && root.files[1..] == [] && Filter([], all) == [];
    }
    assert StartChain(sub2, all) == Chain([[y]], []);
    assert StartChain(sub1, all) == Chain([[y]], []);
    assert StartChain(root, all) == Chain([[x], [y]], []);
  }
}
