/** One cancellable searcher over one root folder: the walk of `FilePatternSearch`
    (`GetFiles`, `GetStartDirectories`) run by the two-level fan-out of
    `FileCancellationSearchBase.GetFilesFast`, the inline or deferred dispatch of batches in
    `OnFilesFound`, the join and `isCanceled` folding of `OnSearchCompleted`, and the
    outcome of `StartSearch`.

    The parallel `ForAll` of each fan-out level is a loop that takes the remaining elements
    in an arbitrary order, so every proof about it holds for every execution order. The
    cancellation token is polled before each unit of a level and once when the level ends. */
module CancellableSearch {
  import opened Wrappers
  import opened DirTree
  import opened FlatMaps
  import opened PatternWalk

  /** Where `FilesFound` handlers run: on the worker that found the batch, or in a task of
      their own. */
  datatype ExecuteHandlers = InCurrentTask | InNewTask

  /** What the subscribers of one searcher see: a `FilesFound` call with its batch, or the
      `SearchCompleted` call with its flag. */
  datatype Event = FilesFound(files: seq<File>) | SearchCompleted(isCanceled: bool)

  /** How a deferred handler task ended: it ran, it was cancelled before it started, or its
      handler threw. */
  datatype TaskStatus = RanToCompletion | Canceled | Faulted

  /** How `StartSearch` ends: it returns, it throws `OperationCanceledException`, or it
      rethrows the `AggregateException` of a faulted handler task. */
  datatype Outcome = Returned | ThrowsCanceled | ThrowsFault

  /** A subscribed `FilesFound` delegate, by identity. */
  type HandlerId = nat

  /** The token of a `CancellationTokenSource`, as the workers observe it: the request becomes
      visible from a fixed poll on (or never), and once visible it stays visible. */
  class CancellationToken {
    /** The first poll that sees the request, if the request is ever made. */
    const requestedAfter: Option<nat>
    /** The polls made so far. */
    var polls: nat

    constructor(requestedAfter: Option<nat>)
      ensures this.requestedAfter == requestedAfter && polls == 0
    {
      this.requestedAfter := requestedAfter;
      polls := 0;
    }

    /** Poll number `n` sees the request. */
    predicate RequestedAt(n: nat)
    {
      requestedAfter.Some? && requestedAfter.value <= n
    }

    /** One of the first `n` polls saw the request. */
    predicate ObservedBefore(n: nat)
    {
      requestedAfter.Some? && requestedAfter.value < n
    }

    /** `IsCancellationRequested`, read once. */
    method Poll() returns (requested: bool)
      modifies this`polls
      ensures polls == old(polls) + 1
      ensures requested == RequestedAt(old(polls))
    {
      requested := requestedAfter.Some? && requestedAfter.value <= polls;
      polls := polls + 1;
    }
  }

  /** The `FilesFound` calls for a sequence of batches, in order. */
  function FoundEvents(batches: seq<seq<File>>): seq<Event>
  {
    seq(|batches|, i requires 0 <= i < |batches| => FilesFound(batches[i]))
  }

  lemma FoundEventsAppend(a: seq<seq<File>>, b: seq<seq<File>>)
    ensures FoundEvents(a + b) == FoundEvents(a) + FoundEvents(b)
  {
    assert forall i :: 0 <= i < |a + b| ==> FoundEvents(a + b)[i] == (FoundEvents(a) + FoundEvents(b))[i];
  }

  /** What `OnFilesFound` calls for `batches` do to the subscribers' log and the task list:
      inline, each handler call is logged at once; deferred, each batch becomes one task. */
  predicate Dispatched(mode: ExecuteHandlers, log0: seq<Event>, tasks0: seq<seq<File>>,
                       batches: seq<seq<File>>, log: seq<Event>, tasks: seq<seq<File>>)
  {
    if mode == InNewTask then log == log0 && tasks == tasks0 + batches
    else log == log0 + FoundEvents(batches) && tasks == tasks0
  }

  lemma DispatchedTrans(mode: ExecuteHandlers, log0: seq<Event>, tasks0: seq<seq<File>>, a: seq<seq<File>>,
                        log1: seq<Event>, tasks1: seq<seq<File>>, b: seq<seq<File>>,
                        log2: seq<Event>, tasks2: seq<seq<File>>)
    requires Dispatched(mode, log0, tasks0, a, log1, tasks1)
    requires Dispatched(mode, log1, tasks1, b, log2, tasks2)
    ensures Dispatched(mode, log0, tasks0, a + b, log2, tasks2)
  {
    FoundEventsAppend(a, b);
  }

  /** The task whose exception `Task.WaitAll` puts first in its `AggregateException`: the
      first task, in list order, that did not run to completion. */
  function FirstFailure(status: nat -> TaskStatus, n: nat): (r: Option<nat>)
    ensures r.None? <==> forall i :: 0 <= i < n ==> status(i) == RanToCompletion
    ensures r.Some? ==> r.value < n && status(r.value) != RanToCompletion
    ensures r.Some? ==> forall i :: 0 <= i < r.value ==> status(i) == RanToCompletion
  {
    if n == 0 then None
    else match FirstFailure(status, n - 1)
      case Some(k) => Some(k)
      case None => if status(n - 1) != RanToCompletion then Some(n - 1) else None
  }

  /** The handler calls made by the deferred tasks from index `joined` on, the tasks before
      it having been joined, and their calls logged, by an earlier search: every such task
      that was not cancelled before it started calls the handlers with its batch (a faulted
      one then throws). */
  function Delivered(tasks: seq<seq<File>>, status: nat -> TaskStatus, joined: nat): (r: seq<Event>)
    ensures forall e :: e in r ==> e.FilesFound?
  {
    if |tasks| <= joined then []
    else
      var n := |tasks| - 1;
      var front := Delivered(tasks[..n], status, joined);
      front + (if status(n) == Canceled then [] else [FilesFound(tasks[n])])
  }

  /** With no new task cancelled, the join delivers every new batch, in task order. */
  lemma {:induction false} DeliveredInOrder(tasks: seq<seq<File>>, status: nat -> TaskStatus, joined: nat)
    requires joined <= |tasks| && forall i :: joined <= i < |tasks| ==> status(i) != Canceled
    ensures Delivered(tasks, status, joined) == FoundEvents(tasks[joined..])
  {
    if |tasks| > joined {
      var n := |tasks| - 1;
      DeliveredInOrder(tasks[..n], status, joined);
      assert tasks[joined..] == tasks[..n][joined..] + [tasks[n]];
      FoundEventsAppend(tasks[..n][joined..], [tasks[n]]);
    }
  }

  /** The deferred tasks deliver exactly the batches of the new tasks that were not
      cancelled: every handler call is one of theirs, and each of theirs is made. */
  lemma {:induction false} DeliveredOnlyStarted(tasks: seq<seq<File>>, status: nat -> TaskStatus, joined: nat)
    ensures Delivered(tasks, status, joined) != [] ==> joined + |Delivered(tasks, status, joined)| <= |tasks|
    ensures forall e :: e in Delivered(tasks, status, joined) ==>
              exists i :: joined <= i < |tasks| && status(i) != Canceled && e == FilesFound(tasks[i])
    ensures forall i :: joined <= i < |tasks| && status(i) != Canceled ==>
              FilesFound(tasks[i]) in Delivered(tasks, status, joined)
  {
    if |tasks| > joined {
      var n := |tasks| - 1;
      DeliveredOnlyStarted(tasks[..n], status, joined);
      assert forall i :: 0 <= i < n ==> tasks[..n][i] == tasks[i];
    }
  }

  /** Joining in two searches delivers what one join of all the tasks would: every task's
      handler call is made once, by the first join after the task was started. */
  lemma {:induction false} DeliveredOnce(tasks: seq<seq<File>>, status: nat -> TaskStatus, joined: nat, mid: nat)
    requires joined <= mid <= |tasks|
    ensures Delivered(tasks[..mid], status, joined) + Delivered(tasks, status, mid) == Delivered(tasks, status, joined)
  {
    if |tasks| == mid {
      assert tasks[..mid] == tasks;
    } else {
      var n := |tasks| - 1;
      var last: seq<Event> := if status(n) == Canceled then [] else [FilesFound(tasks[n])];
      DeliveredOnce(tasks[..n], status, joined, mid);
      assert tasks[..n][..mid] == tasks[..mid];
      var early, late := Delivered(tasks[..mid], status, joined), Delivered(tasks[..n], status, mid);
      assert Delivered(tasks, status, mid) == late + last;
      assert Delivered(tasks, status, joined) == Delivered(tasks[..n], status, joined) + last;
      assert early + (late + last) == (early + late) + last;
    }
  }

  /** What `OnSearchCompleted(isCanceled)` adds to the log, and whether it throws. */
  datatype Completion = Completion(events: seq<Event>, faulted: bool)

  /** `OnSearchCompleted(isCanceled)`: inline, the completion with the flag as given; deferred,
      wait for every task, the new ones delivering their batches, rethrow if the first
      failure is a fault, and otherwise complete with the flag raised if a task was
      cancelled. Old tasks are waited for again, so an old fault is rethrown again. */
  function CompleteSearch(mode: ExecuteHandlers, tasks: seq<seq<File>>, status: nat -> TaskStatus,
                          joined: nat, isCanceled: bool): Completion
  {
    if mode == InCurrentTask then Completion([SearchCompleted(isCanceled)], false)
    else
      var first := FirstFailure(status, |tasks|);
      var delivered := Delivered(tasks, status, joined);
      if first.Some? && status(first.value) == Faulted then Completion(delivered, true)
      else Completion(delivered + [SearchCompleted(isCanceled || first.Some?)], false)
  }

  /** The first failure is a fault exactly when some task faulted with only completed tasks
      before it, and a failure happens whenever some task was cancelled. */
  lemma FirstFailureKind(status: nat -> TaskStatus, n: nat)
    ensures var first := FirstFailure(status, n);
            (first.Some? && status(first.value) == Faulted)
            <==> exists i :: 0 <= i < n && status(i) == Faulted && forall j :: 0 <= j < i ==> status(j) == RanToCompletion
    ensures var first := FirstFailure(status, n);
            first.Some? && status(first.value) != Faulted <==> first.Some? && status(first.value) == Canceled
    ensures (exists i :: 0 <= i < n && status(i) == Canceled) ==> FirstFailure(status, n).Some?
  {
    var first := FirstFailure(status, n);
    if exists i :: 0 <= i < n && status(i) == Faulted && forall j :: 0 <= j < i ==> status(j) == RanToCompletion {
      var i :| 0 <= i < n && status(i) == Faulted && forall j :: 0 <= j < i ==> status(j) == RanToCompletion;
      assert first.Some?;
    }
    if exists i :: 0 <= i < n && status(i) == Canceled {
      var i :| 0 <= i < n && status(i) == Canceled;
      assert status(i) != RanToCompletion;
    }
  }

  /** Inline, the flag is passed through and nothing is thrown. Deferred, `OnSearchCompleted`
      throws exactly when some task faulted and every task before it ran to completion; when
      it does not throw, it completes with the flag given or raised by a cancelled task, never
      lowered. */
  lemma CompletionFlag(mode: ExecuteHandlers, tasks: seq<seq<File>>, status: nat -> TaskStatus, joined: nat,
                       isCanceled: bool)
    ensures mode == InCurrentTask ==> CompleteSearch(mode, tasks, status, joined, isCanceled) == Completion([SearchCompleted(isCanceled)], false)
    ensures CompleteSearch(mode, tasks, status, joined, isCanceled).faulted
            <==> mode == InNewTask
                 && exists i :: 0 <= i < |tasks| && status(i) == Faulted
                                && forall j :: 0 <= j < i ==> status(j) == RanToCompletion
    ensures !CompleteSearch(mode, tasks, status, joined, isCanceled).faulted ==>
            var es := CompleteSearch(mode, tasks, status, joined, isCanceled).events;
            es != [] && es[|es| - 1]
            == SearchCompleted(isCanceled || (mode == InNewTask && exists i :: 0 <= i < |tasks| && status(i) == Canceled))
  {
    FirstFailureKind(status, |tasks|);
  }

  /** A cancelled task ahead of a faulted one hides the fault: `OnSearchCompleted` looks at the
      first inner exception only, so it reports a cancelled search and does not throw. */
  lemma CanceledTaskHidesLaterFault(b0: seq<File>, b1: seq<File>, status: nat -> TaskStatus)
    requires status(0) == Canceled && status(1) == Faulted
    ensures CompleteSearch(InNewTask, [b0, b1], status, 0, false)
            == Completion([FilesFound(b1), SearchCompleted(true)], false)
  {
    var tasks := [b0, b1];
    assert FirstFailure(status, 2) == Some(0);
    assert tasks[..1] == [b0] && [b0][..0] == [];
    assert Delivered([b0], status, 0) == [];
    assert Delivered(tasks, status, 0) == [FilesFound(b1)];
  }

  /** A search whose token is never cancelled: no handler task is cancelled, so a search that
      does not throw ends its log, whatever came before, with the completion flag down. */
  lemma UncancelledSearchCompletes(log0: seq<Event>, mode: ExecuteHandlers, tasks: seq<seq<File>>,
                                   emitted: seq<seq<File>>, status: nat -> TaskStatus, joined: nat)
    requires forall i :: 0 <= i < |tasks| ==> status(i) != Canceled
    ensures var es := log0 + SessionEvents(mode, tasks, emitted, status, joined, false);
            !CompleteSearch(mode, tasks, status, joined, false).faulted ==>
            es != [] && es[|es| - 1] == SearchCompleted(false)
  {
    CompletionFlag(mode, tasks, status, joined, false);
  }

  /** The number of completion notifications in a log. */
  function CompletionCount(es: seq<Event>): nat
  {
    if es == [] then 0 else (if es[0].SearchCompleted? then 1 else 0) + CompletionCount(es[1..])
  }

  lemma {:induction false} CompletionCountAppend(a: seq<Event>, b: seq<Event>)
    ensures CompletionCount(a + b) == CompletionCount(a) + CompletionCount(b)
  {
    if a != [] {
      assert (a + b)[0] == a[0];
      assert (a + b)[1..] == a[1..] + b;
      CompletionCountAppend(a[1..], b);
    } else {
      assert a + b == b;
    }
  }

  lemma {:induction false} NoCompletionAmongFound(es: seq<Event>)
    requires forall e :: e in es ==> e.FilesFound?
    ensures CompletionCount(es) == 0
  {
    if es != [] {
      assert es[0] in es;
      assert forall e :: e in es[1..] ==> e in es;
      NoCompletionAmongFound(es[1..]);
    }
  }

  /** What one `StartSearch` adds to the subscribers' log once the traversal has dispatched
      `emitted`: the inline handler calls, then what `OnSearchCompleted` adds. */
  function SessionEvents(mode: ExecuteHandlers, tasks: seq<seq<File>>, emitted: seq<seq<File>>,
                         status: nat -> TaskStatus, joined: nat, canceled: bool): seq<Event>
  {
    (if mode == InCurrentTask then FoundEvents(emitted) else [])
    + CompleteSearch(mode, tasks, status, joined, canceled).events
  }

  /** The log of a session is what the traversal logged, then what the join adds. */
  lemma SessionSplit(log0: seq<Event>, mode: ExecuteHandlers, tasks: seq<seq<File>>, emitted: seq<seq<File>>,
                     status: nat -> TaskStatus, joined: nat, canceled: bool)
    ensures log0 + SessionEvents(mode, tasks, emitted, status, joined, canceled)
            == (log0 + (if mode == InCurrentTask then FoundEvents(emitted) else [])) + CompleteSearch(mode, tasks, status, joined, canceled).events
  {
  }

  /** A search issues exactly one completion notification, as its last event, with the flag
      raised whenever the traversal was cancelled, unless a faulted handler task makes it
      throw, when it issues none. */
  lemma SessionCompletesOnce(mode: ExecuteHandlers, tasks: seq<seq<File>>, emitted: seq<seq<File>>,
                             status: nat -> TaskStatus, joined: nat, canceled: bool)
    ensures var es := SessionEvents(mode, tasks, emitted, status, joined, canceled);
            CompletionCount(es) == if CompleteSearch(mode, tasks, status, joined, canceled).faulted then 0 else 1
    ensures var es := SessionEvents(mode, tasks, emitted, status, joined, canceled);
            !CompleteSearch(mode, tasks, status, joined, canceled).faulted ==>
            es != [] && es[|es| - 1].SearchCompleted? && (canceled ==> es[|es| - 1].isCanceled)
  {
    var inline: seq<Event> := if mode == InCurrentTask then FoundEvents(emitted) else [];
    var c := CompleteSearch(mode, tasks, status, joined, canceled);
    CompletionCountAppend(inline, c.events);
    NoCompletionAmongFound(inline);
    CompletionFlag(mode, tasks, status, joined, canceled);
    if mode == InNewTask {
      var delivered := Delivered(tasks, status, joined);
      NoCompletionAmongFound(delivered);
      if !c.faulted {
        CompletionCountAppend(delivered, [SearchCompleted(canceled || FirstFailure(status, |tasks|).Some?)]);
      }
    }
  }

  /** A searcher of one folder: `FileCancellationSearchBase` with the walk of
      `FilePatternSearch`, selecting files with `isMatch` (a search pattern or a delegate). */
  class FileCancellationSearch {
    const folder: string
    const isMatch: Matcher
    const handlerOption: ExecuteHandlers
    const suppress: bool
    const token: CancellationToken
    /** How the deferred handler task started `i`-th by this searcher ends, decided by the
        scheduler and the handlers. */
    const taskStatus: nat -> TaskStatus

    /** The handler calls made so far, in order. */
    var log: seq<Event>
    /** The deferred handler tasks started so far, each with its batch. */
    var taskHandlers: seq<seq<File>>
    /** The subscribed `FilesFound` delegates. */
    var handlers: seq<HandlerId>
    /** How many deferred tasks a join has already waited for, their handler calls logged. */
    var joined: nat

    constructor(folder: string, isMatch: Matcher, handlerOption: ExecuteHandlers, suppress: bool,
                token: CancellationToken, taskStatus: nat -> TaskStatus)
      ensures this.folder == folder && this.isMatch == isMatch && this.handlerOption == handlerOption
      ensures this.suppress == suppress && this.token == token && this.taskStatus == taskStatus
      ensures log == [] && taskHandlers == [] && handlers == [] && joined == 0
    {
      this.folder := folder;
      this.isMatch := isMatch;
      this.handlerOption := handlerOption;
      this.suppress := suppress;
      this.token := token;
      this.taskStatus := taskStatus;
      log := [];
      taskHandlers := [];
      handlers := [];
      joined := 0;
    }

    /** Deferred, one more handler task; inline, one handler call. */
    method OnFilesFound(files: seq<File>)
      modifies this`log, this`taskHandlers
      ensures Dispatched(handlerOption, old(log), old(taskHandlers), [files], log, taskHandlers)
    {
      if handlerOption == InNewTask {
        taskHandlers := taskHandlers + [files];
      } else {
        log := log + [FilesFound(files)];
        assert FoundEvents([files]) == [FilesFound(files)];
      }
    }

    /** The post-order walk: the batches of `Walk(d)`, in order. */
    method GetFiles(d: Dir)
      modifies this`log, this`taskHandlers
      decreases d
      ensures Dispatched(handlerOption, old(log), old(taskHandlers), Batches(Walk(d, isMatch)), log, taskHandlers)
    {
      if d.dirsError.Some? {
        return;
      }
      WalkBatchesSplit(d, isMatch);
      if |d.subdirs| == 0 {
        if d.filesError.None? {
          var resFiles := Matches(d, isMatch);
          if |resFiles| > 0 {
            OnFilesFound(resFiles);
          }
        }
        return;
      }
      var i := 0;
      while i < |d.subdirs|
        invariant i <= |d.subdirs|
        invariant Dispatched(handlerOption, old(log), old(taskHandlers), Batches(WalkChildren(d, i, isMatch)), log, taskHandlers)
      {
        ghost var log1, tasks1 := log, taskHandlers;
        GetFiles(d.subdirs[i]);
        WalkChildrenStep(d, i, isMatch);
        DispatchedTrans(handlerOption, old(log), old(taskHandlers), Batches(WalkChildren(d, i, isMatch)),
                        log1, tasks1, Batches(Walk(d.subdirs[i], isMatch)), log, taskHandlers);
        i := i + 1;
      }
      if d.filesError.None? {
        var resFiles := Matches(d, isMatch);
        if |resFiles| > 0 {
          ghost var log1, tasks1 := log, taskHandlers;
          OnFilesFound(resFiles);
          DispatchedTrans(handlerOption, old(log), old(taskHandlers), Batches(WalkChildren(d, i, isMatch)),
                          log1, tasks1, [resFiles], log, taskHandlers);
        }
      }
    }

    /** The chain collapse: the batches of `StartChain(d)`, then its start set. */
    method GetStartDirectories(d: Dir) returns (start: seq<Dir>)
      modifies this`log, this`taskHandlers
      decreases d
      ensures start == StartChain(d, isMatch).start
      ensures Dispatched(handlerOption, old(log), old(taskHandlers), StartChain(d, isMatch).batches, log, taskHandlers)
    {
      if d.dirsError.Some? || d.filesError.Some? {
        return [];
      }
      var resFiles := Matches(d, isMatch);
      if |resFiles| > 0 {
        OnFilesFound(resFiles);
      }
      ghost var own := OwnBatches(d, isMatch);
      if |d.subdirs| > 1 {
        return d.subdirs;
      }
      if |d.subdirs| == 0 {
        return [];
      }
      ghost var log1, tasks1 := log, taskHandlers;
      start := GetStartDirectories(d.subdirs[0]);
      DispatchedTrans(handlerOption, old(log), old(taskHandlers), own,
                      log1, tasks1, StartChain(d.subdirs[0], isMatch).batches, log, taskHandlers);
    }

    /** The state of an unordered fan-out over `all`, begun with `log0`, `tasks0` and the
        token at `p0`: `done` and `todo` split `all`; the handler calls so far dispatch exactly
        `emitted`, which is part of the images of `done` under `f`, all of them unless
        cancelled; `canceled` says a poll has seen the token cancelled, and a cancellation
        requested before the first poll lets nothing through. */
    ghost predicate Round(f: Dir -> seq<seq<File>>, all: seq<Dir>, done: seq<Dir>, todo: seq<Dir>,
                          emitted: seq<seq<File>>, canceled: bool,
                          log0: seq<Event>, tasks0: seq<seq<File>>, p0: nat)
      reads this, token
    {
      && multiset(done) + multiset(todo) == multiset(all)
      && Dispatched(handlerOption, log0, tasks0, emitted, log, taskHandlers)
      && Covers(f, done, emitted, !canceled)
      && token.polls >= p0
      && (canceled ==> token.polls > p0 && token.ObservedBefore(token.polls))
      && (!canceled ==> token.polls == p0 || !token.ObservedBefore(token.polls))
      && (token.RequestedAt(p0) ==> emitted == [] && (canceled || token.polls == p0))
    }

    /** One round of the inner fan-out: poll the token and, unless it is cancelled, run
        `GetFiles` on some directory still to do. */
    method WalkRound(ghost all: seq<Dir>, ghost done: seq<Dir>, todo: seq<Dir>, ghost emitted: seq<seq<File>>,
                     ghost log0: seq<Event>, ghost tasks0: seq<seq<File>>, ghost p0: nat)
      returns (canceled: bool, ghost done1: seq<Dir>, todo1: seq<Dir>, ghost emitted1: seq<seq<File>>)
      requires todo != [] && Round(WalkBatchesOf(isMatch), all, done, todo, emitted, false, log0, tasks0, p0)
      modifies this`log, this`taskHandlers, token`polls
      ensures Round(WalkBatchesOf(isMatch), all, done1, todo1, emitted1, canceled, log0, tasks0, p0)
      ensures |todo1| <= |todo| && (canceled || |todo1| < |todo|)
    {
      var f := WalkBatchesOf(isMatch);
      var requested := token.Poll();
      if requested {
        canceled, done1, todo1, emitted1 := true, done, todo, emitted;
      } else {
        var k :| 0 <= k < |todo|;
        var dir := todo[k];
        ghost var log1, tasks1 := log, taskHandlers;
        assert f(dir) == Batches(Walk(dir, isMatch));
        GetFiles(dir);
        DispatchedTrans(handlerOption, log0, tasks0, emitted, log1, tasks1, f(dir), log, taskHandlers);
        FlatMapStep(f, done, dir, emitted, f(dir), true, true);
        TakeOut(done, todo, all, k);
        canceled, done1, todo1, emitted1 := false, done + [dir], todo[..k] + todo[k + 1..], emitted + f(dir);
      }
    }

    /** The inner fan-out: `GetFiles` on every directory of `dirs`, in any order, polling the
        token before each and once at the end. Cancelled, it has reported part of the walks;
        otherwise all of them. */
    method WalkAll(dirs: seq<Dir>) returns (canceled: bool, ghost emitted: seq<seq<File>>)
      modifies this`log, this`taskHandlers, token`polls
      ensures Dispatched(handlerOption, old(log), old(taskHandlers), emitted, log, taskHandlers)
      ensures multiset(emitted) <= multiset(FlatMap(WalkBatchesOf(isMatch), dirs))
      ensures !canceled ==> multiset(emitted) == multiset(FlatMap(WalkBatchesOf(isMatch), dirs))
      ensures token.polls > old(token.polls) && canceled == token.ObservedBefore(token.polls)
      ensures token.RequestedAt(old(token.polls)) ==> canceled && emitted == []
    {
      var todo := dirs;
      ghost var done: seq<Dir> := [];
      emitted := [];
      canceled := false;
      assert Dispatched(handlerOption, log, taskHandlers, [], log, taskHandlers);
      while todo != [] && !canceled
        invariant Round(WalkBatchesOf(isMatch), dirs, done, todo, emitted, canceled, old(log), old(taskHandlers), old(token.polls))
        decreases |todo|, if canceled then 0 else 1
      {
        canceled, done, todo, emitted := WalkRound(dirs, done, todo, emitted, old(log), old(taskHandlers), old(token.polls));
      }
      if !canceled {
        canceled := token.Poll();
      }
      FlatMapFinish(WalkBatchesOf(isMatch), done, dirs, emitted, !canceled);
    }

    /** One unit of the outer fan-out: the chain collapse of `s`, then the inner fan-out over
        its start set. */
    method SearchUnit(s: Dir) returns (canceled: bool, ghost emitted: seq<seq<File>>)
      modifies this`log, this`taskHandlers, token`polls
      ensures Dispatched(handlerOption, old(log), old(taskHandlers), emitted, log, taskHandlers)
      ensures multiset(emitted) <= multiset(UnitBatches(s, isMatch))
      ensures !canceled ==> multiset(emitted) == multiset(UnitBatches(s, isMatch))
      ensures token.polls > old(token.polls) && canceled == token.ObservedBefore(token.polls)
    {
      var dirs := GetStartDirectories(s);
      ghost var chain := StartChain(s, isMatch).batches;
      ghost var log1, tasks1 := log, taskHandlers;
      ghost var walked;
      canceled, walked := WalkAll(dirs);
      DispatchedTrans(handlerOption, old(log), old(taskHandlers), chain, log1, tasks1, walked, log, taskHandlers);
      emitted := chain + walked;
    }

    /** One round of the outer fan-out: poll the token and, unless it is cancelled, run one
        unit still to do. */
    method UnitRound(ghost all: seq<Dir>, ghost done: seq<Dir>, todo: seq<Dir>, ghost emitted: seq<seq<File>>,
                     ghost log0: seq<Event>, ghost tasks0: seq<seq<File>>, ghost p0: nat)
      returns (canceled: bool, ghost done1: seq<Dir>, todo1: seq<Dir>, ghost emitted1: seq<seq<File>>)
      requires todo != [] && Round(UnitBatchesOf(isMatch), all, done, todo, emitted, false, log0, tasks0, p0)
      modifies this`log, this`taskHandlers, token`polls
      ensures Round(UnitBatchesOf(isMatch), all, done1, todo1, emitted1, canceled, log0, tasks0, p0)
      ensures |todo1| <= |todo| && (canceled || |todo1| < |todo|)
    {
      var g := UnitBatchesOf(isMatch);
      var requested := token.Poll();
      if requested {
        canceled, done1, todo1, emitted1 := true, done, todo, emitted;
      } else {
        var k :| 0 <= k < |todo|;
        var s := todo[k];
        ghost var log1, tasks1 := log, taskHandlers;
        var unitCanceled, e := SearchUnit(s);
        DispatchedTrans(handlerOption, log0, tasks0, emitted, log1, tasks1, e, log, taskHandlers);
        FlatMapStep(g, done, s, emitted, e, true, !unitCanceled);
        TakeOut(done, todo, all, k);
        canceled, done1, todo1, emitted1 := unitCanceled, done + [s], todo[..k] + todo[k + 1..], emitted + e;
      }
    }

    /** The outer fan-out: `SearchUnit` on every directory of `startDirs`, in any order,
        polling the token before each and once at the end. Cancelled, it has reported part of
        the units' batches; otherwise all of them. */
    method RunUnits(startDirs: seq<Dir>) returns (canceled: bool, ghost emitted: seq<seq<File>>)
      modifies this`log, this`taskHandlers, token`polls
      ensures Dispatched(handlerOption, old(log), old(taskHandlers), emitted, log, taskHandlers)
      ensures multiset(emitted) <= multiset(FlatMap(UnitBatchesOf(isMatch), startDirs))
      ensures !canceled ==> multiset(emitted) == multiset(FlatMap(UnitBatchesOf(isMatch), startDirs))
      ensures token.polls > old(token.polls) && canceled == token.ObservedBefore(token.polls)
      ensures token.RequestedAt(old(token.polls)) ==> canceled && emitted == []
    {
      var todo := startDirs;
      ghost var done: seq<Dir> := [];
      emitted := [];
      canceled := false;
      assert Dispatched(handlerOption, log, taskHandlers, [], log, taskHandlers);
      while todo != [] && !canceled
        invariant Round(UnitBatchesOf(isMatch), startDirs, done, todo, emitted, canceled, old(log), old(taskHandlers), old(token.polls))
        decreases |todo|, if canceled then 0 else 1
      {
        canceled, done, todo, emitted := UnitRound(startDirs, done, todo, emitted, old(log), old(taskHandlers), old(token.polls));
      }
      if !canceled {
        canceled := token.Poll();
      }
      FlatMapFinish(UnitBatchesOf(isMatch), done, startDirs, emitted, !canceled);
    }

    /** `GetFilesFast`: the chain collapse of the root, then the outer fan-out over its start
        set. Cancelled, it has reported part of `FastBatches(root)`; otherwise all of it, in
        some order. A cancellation requested before the search starts lets only the root's
        chain report. */
    method GetFilesFast(root: Dir) returns (canceled: bool, ghost emitted: seq<seq<File>>)
      modifies this`log, this`taskHandlers, token`polls
      ensures Dispatched(handlerOption, old(log), old(taskHandlers), emitted, log, taskHandlers)
      ensures multiset(emitted) <= multiset(FastBatches(root, isMatch))
      ensures !canceled ==> multiset(emitted) == multiset(FastBatches(root, isMatch))
      ensures token.polls > old(token.polls) && canceled == token.ObservedBefore(token.polls)
      ensures token.RequestedAt(old(token.polls)) ==> canceled && emitted == StartChain(root, isMatch).batches
    {
      var startDirs := GetStartDirectories(root);
      ghost var chain := StartChain(root, isMatch).batches;
      ghost var log1, tasks1 := log, taskHandlers;
      ghost var units;
      canceled, units := RunUnits(startDirs);
      DispatchedTrans(handlerOption, old(log), old(taskHandlers), chain, log1, tasks1, units, log, taskHandlers);
      emitted := chain + units;
    }

    /** `OnSearchCompleted(isCanceled)`; returns whether it throws. The tasks started since the
        last join deliver their batches. */
    method OnSearchCompleted(isCanceled: bool) returns (faulted: bool)
      modifies this`log, this`joined
      ensures log == old(log) + CompleteSearch(handlerOption, taskHandlers, taskStatus, old(joined), isCanceled).events
      ensures faulted == CompleteSearch(handlerOption, taskHandlers, taskStatus, old(joined), isCanceled).faulted
      ensures joined == |taskHandlers|
    {
      if handlerOption == InNewTask {
        var first := FirstFailure(taskStatus, |taskHandlers|);
        log := log + Delivered(taskHandlers, taskStatus, joined);
        joined := |taskHandlers|;
        var flag := isCanceled;
        if first.Some? {
          if taskStatus(first.value) != Canceled {
            return true;
          }
          if !flag {
            flag := true;
          }
        }
        log := log + [SearchCompleted(flag)];
        faulted := false;
      } else {
        log := log + [SearchCompleted(isCanceled)];
        joined := |taskHandlers|;
        faulted := false;
      }
    }

    /** What `StartSearch` does once the traversal has ended, cancelled or not: one
        `OnSearchCompleted`, then, for a cancelled traversal with suppression off, the rethrow
        of the cancellation the token already shows. */
    method FinishSearch(traversalCanceled: bool) returns (outcome: Outcome)
      requires traversalCanceled ==> token.ObservedBefore(token.polls)
      modifies this`log, this`joined, token`polls
      ensures log == old(log) + CompleteSearch(handlerOption, taskHandlers, taskStatus, old(joined), traversalCanceled).events
      ensures joined == |taskHandlers|
      ensures token.polls >= old(token.polls)
      ensures token.ObservedBefore(token.polls) == token.ObservedBefore(old(token.polls))
      ensures outcome == ThrowsFault <==> CompleteSearch(handlerOption, taskHandlers, taskStatus, old(joined), traversalCanceled).faulted
      ensures outcome == ThrowsCanceled
              <==> !CompleteSearch(handlerOption, taskHandlers, taskStatus, old(joined), traversalCanceled).faulted
                   && traversalCanceled && !suppress
    {
      if traversalCanceled {
        var faulted := OnSearchCompleted(true);
        if faulted {
          outcome := ThrowsFault;
        } else if !suppress {
          var requested := token.Poll();
          outcome := if requested then ThrowsCanceled else Returned;
        } else {
          outcome := Returned;
        }
      } else {
        var faulted := OnSearchCompleted(false);
        outcome := if faulted then ThrowsFault else Returned;
      }
    }

    /** `StartSearch`: the fan-out over the folder as the file system holds it, then exactly one
        `OnSearchCompleted`, flagged when the traversal was cancelled; a cancelled search then
        rethrows the cancellation unless suppression is on, and a faulted handler task makes it
        throw instead of completing. */
    method StartSearch(fs: FileSystem)
      returns (outcome: Outcome, ghost canceled: bool, ghost emitted: seq<seq<File>>)
      requires token.requestedAfter.None? ==> forall i :: taskStatus(i) != Canceled
      modifies this`log, this`taskHandlers, this`joined, token`polls
      ensures multiset(emitted) <= multiset(FastBatches(Resolve(fs, folder), isMatch))
      ensures !canceled ==> multiset(emitted) == multiset(FastBatches(Resolve(fs, folder), isMatch))
      ensures token.polls > old(token.polls) && canceled == token.ObservedBefore(token.polls)
      ensures token.RequestedAt(old(token.polls)) ==> canceled && emitted == StartChain(Resolve(fs, folder), isMatch).batches
      ensures taskHandlers == old(taskHandlers) + (if handlerOption == InNewTask then emitted else [])
      ensures log == old(log) + SessionEvents(handlerOption, taskHandlers, emitted, taskStatus, old(joined), canceled)
      ensures joined == |taskHandlers|
      ensures outcome == ThrowsFault <==> CompleteSearch(handlerOption, taskHandlers, taskStatus, old(joined), canceled).faulted
      ensures outcome == ThrowsCanceled
              <==> !CompleteSearch(handlerOption, taskHandlers, taskStatus, old(joined), canceled).faulted && canceled && !suppress
      ensures token.requestedAfter.None? ==>
              !canceled && outcome != ThrowsCanceled
              && (outcome == Returned ==> log != [] && log[|log| - 1] == SearchCompleted(false))
    {
      var root := Resolve(fs, folder);
      ghost var log0 := log;
      var traversalCanceled;
      traversalCanceled, emitted := GetFilesFast(root);
      canceled := traversalCanceled;
      ghost var joined0 := joined;
      SessionSplit(log0, handlerOption, taskHandlers, emitted, taskStatus, joined0, canceled);
      outcome := FinishSearch(traversalCanceled);
      if token.requestedAfter.None? {
        UncancelledSearchCompletes(log0, handlerOption, taskHandlers, emitted, taskStatus, joined0);
      }
    }
  }
}
