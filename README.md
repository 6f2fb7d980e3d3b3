# NETFastSearchLibrary search core in Dafny

This project models the file search of NETFastSearchLibrary, a .NET library that finds files
under one or more root folders. It reports the files in batches while it searches.

- `FilePatternSearch` supplies two parts:
  - the post-order walk `GetFiles`, which reports one batch per directory;
  - the chain collapse `GetStartDirectories`, which reports the batches along a chain of
    single-child directories and returns the children of the first directory that branches.
- `FileCancellationSearchBase` supplies four parts:
  - the two-level parallel fan-out `GetFilesFast`;
  - the inline or deferred dispatch of batches to `FilesFound` subscribers (`OnFilesFound`);
  - the join of the deferred handler tasks and the folding of `isCanceled`
    (`OnSearchCompleted`);
  - the outcome of `StartSearch`: one completion, an optional rethrow of the cancellation.
- `FileSearchMultiple` checks its constructor arguments and builds one cancellable searcher
  per folder. All searchers share one token. It fans the `FilesFound` subscription out to
  every searcher, and `StartSearch` runs the searchers one after another with a single
  completion of its own.

The modules:

- `Wrappers`: `Option` and `Result`.
- `FlatMaps`: concatenated images of a sequence, and their multisets under reordering. These
  are the facts the unordered fan-out loops rely on.
- `DirTree`: the file system.
  - A `Dir` is a snapshot of one directory: its files, its subdirectories in listing order,
    and the absorbed exception, if any, that each of its two listings throws.
  - A `FileSystem` maps full paths to snapshots; `Resolve` returns a missing directory for an
    unknown path.
  - A `Matcher` is the selection rule: a search pattern or a delegate.
  - The module also defines the accepted files of a tree, the files a walk can reach, and
    paths of child positions.
- `PatternWalk`: specification functions of the walk (`Walk`), the chain collapse
  (`StartChain`, `ChainDirs`) and the fan-out (`UnitBatches`, `FastBatches`), with their
  properties.
- `CancellableSearch`: the cancellation token, the handler-task statuses, the completion
  logic, and the class `FileCancellationSearch`. Its methods `GetFiles`,
  `GetStartDirectories`, `GetFilesFast`, `OnFilesFound`, `OnSearchCompleted` and
  `StartSearch` follow the source's control flow and are proved against the specification
  functions.
- `SearchMultiple`: the argument checks, `Delegate.Combine`/`Delegate.Remove` on
  subscription lists, and the class `FileSearchMultiple`.

How the environment is represented:

- Each parallel `ForAll` is a loop that takes the remaining elements in an arbitrary order
  (`var k :| ...`), so every property proved about it holds for every order.
- The cancellation token is an object that becomes visibly cancelled from a fixed poll on,
  or never. It is polled before each unit and once when each fan-out level ends.
- The subscribers' view is a log of `FilesFound` and `SearchCompleted` calls.
- The deferred handler tasks are a list of batches. How the `i`-th task of a searcher ends
  is fixed when the searcher is built (`taskStatus`), so a task ends only one way however
  often it is waited for. A searcher counts the tasks a join has already waited for
  (`joined`), so every task delivers its batch once.

## Model

| member | source | states |
|---|---|---|
| DirTree.Resolve | NETFastSearchLibrary/FileSearch/FilePatternSearch.cs:45-69 | a folder that does not exist lists as `DirectoryNotFoundException` |
| DirTree.FilterCounts | NETFastSearchLibrary/FileSearch/FilePatternSearch.cs:52-54 | a file listing with the pattern keeps every accepted file as often as it occurs and nothing else |
| DirTree.ReachableWithinTree | NETFastSearchLibrary/FileSearch/FilePatternSearch.cs:40-91 | what the walk can reach is part of the tree's accepted files, and all of them when no listing fails |
| PatternWalk.Walk | NETFastSearchLibrary/FileSearch/FilePatternSearch.cs:40-91 | reference definition of `GetFiles`: the emissions of a post-order walk, each with the path of its directory; its properties are the `Walk*` lemmas below |
| CancellableSearch.FileCancellationSearch.GetFiles | NETFastSearchLibrary/FileSearch/FilePatternSearch.cs:40-91 | dispatches exactly the batches of `Walk(d)` in order: nothing if the subdirectory listing fails, else all children's walks in listing order, then the directory's own non-empty batch unless its file listing fails |
| PatternWalk.WalkOrigins | NETFastSearchLibrary/FileSearch/FilePatternSearch.cs:47-80 | every batch of the walk comes from one directory of the subtree whose two listings succeeded, and is that directory's non-empty match list |
| PatternWalk.WalkBatchesNonEmpty | NETFastSearchLibrary/FileSearch/FilePatternSearch.cs:52-80 | no batch of `GetFiles` is empty |
| PatternWalk.WalkPostOrder | NETFastSearchLibrary/FileSearch/FilePatternSearch.cs:71-80 | the batches come in post-order: children in listing order, each subtree before its directory |
| PatternWalk.ChildBatchesBeforeParent | NETFastSearchLibrary/FileSearch/FilePatternSearch.cs:71-80 | a batch from a descendant always comes before the batch of its ancestor |
| PatternWalk.WalkReportsReachable | NETFastSearchLibrary/FileSearch/FilePatternSearch.cs:40-91 | the files `GetFiles` reports are exactly the reachable accepted files, each as often as it occurs |
| PatternWalk.WalkComplete | NETFastSearchLibrary/FileSearch/FilePatternSearch.cs:40-91 | with no failing listing, `GetFiles(d)` reports every accepted file of the subtree exactly once |
| PatternWalk.WalkSkipsUnlistable | NETFastSearchLibrary/FileSearch/FilePatternSearch.cs:45-69 | a directory whose subdirectories cannot be listed contributes nothing, and neither does anything below it |
| PatternWalk.WalkKeepsChildrenWhenFilesFail | NETFastSearchLibrary/FileSearch/FilePatternSearch.cs:76-90 | a file listing that fails after the children were walked keeps the children's batches and adds none |
| CancellableSearch.FileCancellationSearch.GetStartDirectories | NETFastSearchLibrary/FileSearch/FilePatternSearch.cs:95-128 | returns the start set of `StartChain(d)` and dispatches exactly the chain's batches |
| PatternWalk.StartChain | NETFastSearchLibrary/FileSearch/FilePatternSearch.cs:95-128 | reference definition of `GetStartDirectories`: the chain's batches and the start set; its properties are the `Chain*` lemmas below |
| PatternWalk.ChainDirs | NETFastSearchLibrary/FileSearch/FilePatternSearch.cs:108-127 | the collapse passes through healthy single-child directories, each the only child of the one before, and stops at the first that fails or does not have exactly one subdirectory |
| PatternWalk.ChainDirsAt | NETFastSearchLibrary/FileSearch/FilePatternSearch.cs:127 | the `i`-th directory of the chain is the one reached by `i` first-child steps |
| PatternWalk.ChainBatchesFollowChain | NETFastSearchLibrary/FileSearch/FilePatternSearch.cs:101-127 | every directory on the collapsed chain, the last included, reports its own batch, in chain order |
| PatternWalk.ChainStartIsBranch | NETFastSearchLibrary/FileSearch/FilePatternSearch.cs:108-127 | the start set is the children of the chain's last directory if it is healthy and has two or more, otherwise empty |
| PatternWalk.StartSetNeverSingleton | NETFastSearchLibrary/FileSearch/FilePatternSearch.cs:108-112 | `GetStartDirectories` never returns exactly one directory |
| PatternWalk.ChainBatchesNonEmpty | NETFastSearchLibrary/FileSearch/FilePatternSearch.cs:104-106 | no batch of the chain collapse is empty |
| PatternWalk.ChainPartition | NETFastSearchLibrary/FileSearch/FilePatternSearch.cs:95-128 | the chain's files and the subtrees of the start set together stay within the tree, and cover it exactly when no listing fails |
| PatternWalk.ChainStartHasNoFailures | NETFastSearchLibrary/FileSearch/FilePatternSearch.cs:95-128 | in a tree without failing listings, every start directory is also without them |
| PatternWalk.FailedStartDirSkipsSubtree | NETFastSearchLibrary/FileSearch/FilePatternSearch.cs:99-125 | a directory whose file or subdirectory listing fails, given to `GetStartDirectories`, yields no batch and no start set, so its whole subtree is skipped |
| PatternWalk.SingleChildChainExample | NETFastSearchLibrary/FileSearch/FilePatternSearch.cs:95-128 | for root/{x.txt, sub1/{sub2/{y.txt}}} the collapse alone reports `{x.txt}` then `{y.txt}` and leaves no start directory |
| CancellableSearch.FileCancellationSearch.constructor | NETFastSearchLibrary/FileSearch/FileCancellationSearchBase.cs:17-22 | the searcher keeps its folder, selection rule, handler option, suppression flag, token and task outcomes, with nothing logged, no handler task, none joined and nothing subscribed |
| CancellableSearch.CancellationToken.Poll | NETFastSearchLibrary/FileSearch/FileCancellationSearchBase.cs:84-86 | one read of the token: it counts the poll and sees the request from its fixed poll on |
| CancellableSearch.FileCancellationSearch.OnFilesFound | NETFastSearchLibrary/FileSearch/FileCancellationSearchBase.cs:45-53 | inline: one handler call is logged and the task list is unchanged; deferred: one task with the batch is appended and nothing is logged |
| CancellableSearch.FileCancellationSearch.WalkRound | NETFastSearchLibrary/FileSearch/FileCancellationSearchBase.cs:86-89 | one round of the inner `ForAll`: polls, and unless cancelled runs `GetFiles` on any remaining directory, keeping the fan-out state `Round` |
| CancellableSearch.FileCancellationSearch.WalkAll | NETFastSearchLibrary/FileSearch/FileCancellationSearchBase.cs:86-89 | the inner `ForAll` in any order: dispatches a sub-multiset of the walks of all its directories, all of them unless cancelled; `canceled` is exactly whether a poll saw the request |
| CancellableSearch.FileCancellationSearch.SearchUnit | NETFastSearchLibrary/FileSearch/FileCancellationSearchBase.cs:86-89 | one outer unit: the chain of `d`, then the inner fan-out; dispatches part of `UnitBatches(d)`, all of it unless cancelled |
| CancellableSearch.FileCancellationSearch.UnitRound | NETFastSearchLibrary/FileSearch/FileCancellationSearchBase.cs:84-90 | one round of the outer `ForAll`: polls, and unless cancelled runs one remaining unit, keeping the fan-out state `Round` |
| CancellableSearch.FileCancellationSearch.RunUnits | NETFastSearchLibrary/FileSearch/FileCancellationSearchBase.cs:84-90 | the outer `ForAll` in any order: dispatches a sub-multiset of all units' batches, all of them unless cancelled; a request made before it starts lets nothing through |
| CancellableSearch.FileCancellationSearch.GetFilesFast | NETFastSearchLibrary/FileSearch/FileCancellationSearchBase.cs:80-91 | dispatches part of `FastBatches(root)`, and all of it in some order unless cancelled; a request before the search lets only the root's chain report |
| PatternWalk.UnitBatches | NETFastSearchLibrary/FileSearch/FileCancellationSearchBase.cs:86-89 | reference definition of one outer unit run in listing order: its chain's batches, then the walks of its start set; its property is `UnitWithinTree` |
| PatternWalk.FastBatches | NETFastSearchLibrary/FileSearch/FileCancellationSearchBase.cs:80-91 | reference definition of `GetFilesFast` run in listing order: the root's chain, then every unit; its properties are `FastWithinTree`, `FastBatchesNonEmpty` and `ReportedFilesWithinTree` |
| PatternWalk.UnitWithinTree | NETFastSearchLibrary/FileSearch/FileCancellationSearchBase.cs:86-89 | one unit reports only accepted files of its subtree, and all of them exactly once when no listing fails |
| PatternWalk.FastWithinTree | NETFastSearchLibrary/FileSearch/FileCancellationSearchBase.cs:80-91 | the chain stage and the two fan-out levels partition the tree: with no failing listing, every accepted file is reported exactly once |
| PatternWalk.FastBatchesNonEmpty | NETFastSearchLibrary/FileSearch/FileCancellationSearchBase.cs:80-91 | no batch of `GetFilesFast` is empty |
| PatternWalk.ReportedFilesWithinTree | NETFastSearchLibrary/FileSearch/FileCancellationSearchBase.cs:80-91 | whatever a possibly cancelled search dispatched is non-empty batches of accepted files of the tree; a full search of a tree with no failing listings reports each accepted file exactly once |
| CancellableSearch.FirstFailure | NETFastSearchLibrary/FileSearch/FileCancellationSearchBase.cs:62-66 | the inner exception `Task.WaitAll` puts first: the first task, in list order, that did not run to completion, or none when all did |
| CancellableSearch.Delivered | NETFastSearchLibrary/FileSearch/FileCancellationSearchBase.cs:49-50 | the handler calls of the tasks not yet joined are all `FilesFound` calls, never a completion |
| CancellableSearch.DeliveredInOrder | NETFastSearchLibrary/FileSearch/FileCancellationSearchBase.cs:49-50 | when no task started since the last join was cancelled, the join delivers every new batch once, in task order |
| CancellableSearch.DeliveredOnlyStarted | NETFastSearchLibrary/FileSearch/FileCancellationSearchBase.cs:49-50 | only started tasks deliver: no more handler calls than tasks not joined before, every call the batch of such a task that was not cancelled, and every such task's batch delivered |
| CancellableSearch.DeliveredOnce | NETFastSearchLibrary/FileSearch/FileCancellationSearchBase.cs:49-50 | two joins, the second after more tasks were started, deliver together exactly what one join of all the tasks would: each task's batch once |
| CancellableSearch.FileCancellationSearch.OnSearchCompleted | NETFastSearchLibrary/FileSearch/FileCancellationSearchBase.cs:56-77 | waits for every task; logs exactly `CompleteSearch(...).events`, which deliver only the tasks started since the last join, and throws exactly when `CompleteSearch(...).faulted`; afterwards every task counts as joined |
| CancellableSearch.CompleteSearch | NETFastSearchLibrary/FileSearch/FileCancellationSearchBase.cs:56-77 | reference definition of the join: inline, the completion with the flag as given; deferred, the calls of the tasks not joined before, then a rethrow if the first failed task faulted, otherwise the completion with the flag raised by a cancelled task; its properties are `CompletionFlag`, `FirstFailureKind` and `UncancelledSearchCompletes` |
| CancellableSearch.FirstFailureKind | NETFastSearchLibrary/FileSearch/FileCancellationSearchBase.cs:62-71 | the first failure rethrows exactly when some task faulted with only completed tasks before it; any cancelled task makes a first failure exist, and a first failure that is not a fault is a cancellation |
| CancellableSearch.CompletionFlag | NETFastSearchLibrary/FileSearch/FileCancellationSearchBase.cs:56-77 | inline, the flag passes through; deferred, it throws exactly when a task faulted and every task before it ran, and otherwise completes with the flag given or raised by a cancelled task, never lowered |
| CancellableSearch.CanceledTaskHidesLaterFault | NETFastSearchLibrary/FileSearch/FileCancellationSearchBase.cs:62-71 | a cancelled task ahead of a faulted one makes the search complete as cancelled without throwing |
| CancellableSearch.UncancelledSearchCompletes | NETFastSearchLibrary/FileSearch/FileCancellationSearchBase.cs:49-77 | with no cancelled handler task, a search whose traversal was not cancelled and that does not throw ends its log with a completion whose flag is down |
| CancellableSearch.SessionEvents | NETFastSearchLibrary/FileSearch/FileCancellationSearchBase.cs:25-42 | reference definition of what one `StartSearch` adds to the log: the inline handler calls of the traversal, then what the join adds; its properties are `SessionCompletesOnce` and `UncancelledSearchCompletes` |
| CancellableSearch.SessionCompletesOnce | NETFastSearchLibrary/FileSearch/FileCancellationSearchBase.cs:25-42 | a search issues exactly one completion, as its last event and flagged whenever the traversal was cancelled, or none when a faulted handler task makes it throw |
| CancellableSearch.FileCancellationSearch.FinishSearch | NETFastSearchLibrary/FileSearch/FileCancellationSearchBase.cs:31-41 | after the traversal: logs exactly what `OnSearchCompleted` adds, throws the fault exactly when the join faults, and rethrows the cancellation exactly when the traversal was cancelled, the join did not fault and suppression is off |
| CancellableSearch.FileCancellationSearch.StartSearch | NETFastSearchLibrary/FileSearch/FileCancellationSearchBase.cs:25-42 | `GetFilesFast` over the folder, then `OnSearchCompleted(canceled)`, which delivers only this search's new tasks and leaves every task joined; it rethrows the cancellation exactly when cancelled, not faulted and suppression is off, and throws the fault exactly when the join faults; with a token never cancelled (so no handler task is cancelled) it is not cancelled, never rethrows a cancellation, and when it returns its last event is `SearchCompleted(false)` |
| SearchMultiple.CheckFolder | NETFastSearchLibrary/FileSearch/FileSearchMultiple.cs:216-228 | no error exactly for a non-null, non-empty, existing folder; a null folder is reported as null before anything else, an empty one as not valid |
| SearchMultiple.FirstFolderError | NETFastSearchLibrary/FileSearch/FileSearchMultiple.cs:212-213 | no error exactly when every folder is non-null, non-empty and exists; otherwise the error of a folder all of whose predecessors pass |
| SearchMultiple.CheckFolders | NETFastSearchLibrary/FileSearch/FileSearchMultiple.cs:204-214 | the loop yields the error of `FoldersError`: a null list, an empty list, or the first rejected folder |
| SearchMultiple.FoldersError | NETFastSearchLibrary/FileSearch/FileSearchMultiple.cs:204-214 | a null list and an empty list are reported as such, and no error exactly for a non-empty list of good folders |
| SearchMultiple.FirstFolderIs | NETFastSearchLibrary/FileSearch/FileSearchMultiple.cs:212-228 | the first rejected folder decides the error, by the order of checks in `CheckFolder` |
| SearchMultiple.PatternError | NETFastSearchLibrary/FileSearch/FileSearchMultiple.cs:231-238 | no error exactly for a non-null, non-empty pattern; a null one is reported as null |
| SearchMultiple.DelegateArgsError | NETFastSearchLibrary/FileSearch/FileSearchMultiple.cs:76-80 | the folders are checked first, then the delegate, then the token source: a folder error wins, a null delegate is reported only when the folders pass, a null token source only when both pass |
| SearchMultiple.PatternArgsError | NETFastSearchLibrary/FileSearch/FileSearchMultiple.cs:140-144 | the folders are checked first, then the pattern, then the token source, each error reported only when the checks before it pass |
| SearchMultiple.DelegateArgsAccepted | NETFastSearchLibrary/FileSearch/FileSearchMultiple.cs:76-80 | delegate constructors accept exactly a non-empty list of non-null, non-empty, existing folders, a non-null delegate and a non-null token source |
| SearchMultiple.PatternArgsAccepted | NETFastSearchLibrary/FileSearch/FileSearchMultiple.cs:140-144 | pattern constructors accept exactly such folders, a non-null non-empty pattern and a non-null token source |
| SearchMultiple.FileSearchMultiple.constructor | NETFastSearchLibrary/FileSearch/FileSearchMultiple.cs:82-91 | one new searcher per folder, in folder order, each with suppression off, the shared token and its own task outcomes, nothing subscribed or joined |
| SearchMultiple.FileSearchMultiple.WithDelegate | NETFastSearchLibrary/FileSearch/FileSearchMultiple.cs:74-92 | fails exactly with the first failing check (folders, delegate, token source), before any searcher exists; otherwise builds the searchers as the constructor does |
| SearchMultiple.FileSearchMultiple.WithDelegateAndOption | NETFastSearchLibrary/FileSearch/FileSearchMultiple.cs:104-107 | as `WithDelegate`, with suppression on |
| SearchMultiple.FileSearchMultiple.WithDelegateDefaults | NETFastSearchLibrary/FileSearch/FileSearchMultiple.cs:118-121 | as `WithDelegate`, with handlers inline and suppression on |
| SearchMultiple.FileSearchMultiple.WithPattern | NETFastSearchLibrary/FileSearch/FileSearchMultiple.cs:138-156 | fails exactly with the first failing check (folders, pattern, token source); otherwise builds the searchers with the pattern's matcher |
| SearchMultiple.FileSearchMultiple.WithPatternAndOption | NETFastSearchLibrary/FileSearch/FileSearchMultiple.cs:168-171 | as `WithPattern`, with suppression on |
| SearchMultiple.FileSearchMultiple.WithPatternDefaults | NETFastSearchLibrary/FileSearch/FileSearchMultiple.cs:182-185 | as `WithPattern`, with handlers inline and suppression on |
| SearchMultiple.FileSearchMultiple.AllFiles | NETFastSearchLibrary/FileSearch/FileSearchMultiple.cs:195-198 | as `WithPattern` with pattern `"*"`, handlers inline and suppression on; it never fails on the pattern |
| SearchMultiple.Combine | NETFastSearchLibrary/FileSearch/FileSearchMultiple.cs:26-29 | subscribing a null delegate changes nothing; a non-null one is appended after the existing subscriptions |
| SearchMultiple.Remove | NETFastSearchLibrary/FileSearch/FileSearchMultiple.cs:31-34 | removing a null or absent delegate changes nothing; removing a present one shortens the list by one |
| SearchMultiple.RemoveOneCopy | NETFastSearchLibrary/FileSearch/FileSearchMultiple.cs:31-34 | removal takes exactly one copy of the delegate out of the subscription list |
| SearchMultiple.RemoveLastOccurrence | NETFastSearchLibrary/FileSearch/FileSearchMultiple.cs:31-34 | removal takes out the last occurrence and keeps the rest in order |
| SearchMultiple.RemoveUndoesCombine | NETFastSearchLibrary/FileSearch/FileSearchMultiple.cs:24-35 | unsubscribing a delegate just subscribed restores the subscription list |
| SearchMultiple.FileSearchMultiple.AddFilesFound | NETFastSearchLibrary/FileSearch/FileSearchMultiple.cs:26-29 | every searcher's subscription list gains the delegate |
| SearchMultiple.FileSearchMultiple.RemoveFilesFound | NETFastSearchLibrary/FileSearch/FileSearchMultiple.cs:31-34 | every searcher's subscription list loses the delegate |
| SearchMultiple.FileSearchMultiple.OnSearchCompleted | NETFastSearchLibrary/FileSearch/FileSearchMultiple.cs:49-59 | one completion with the given flag |
| SearchMultiple.FileSearchMultiple.RunSearcher | NETFastSearchLibrary/FileSearch/FileSearchMultiple.cs:265-268 | one searcher's `StartSearch`: the shared token is polled, and a rethrown cancellation means a poll saw the request |
| SearchMultiple.FileSearchMultiple.StartSearch | NETFastSearchLibrary/FileSearch/FileSearchMultiple.cs:261-279 | runs the searchers in order and starts none after the first that throws; one completion unless a fault escapes; ends as `MultiOutcome`; with a token never cancelled no searcher rethrows a cancellation and neither does it |
| SearchMultiple.MultiCompletions | NETFastSearchLibrary/FileSearch/FileSearchMultiple.cs:265-278 | reference definition of the orchestrator's completions once the searchers it ran ended with the given outcomes: none after a fault, otherwise one, flagged when the last rethrew the cancellation; its property is `MultiCompletesOnce` |
| SearchMultiple.MultiOutcome | NETFastSearchLibrary/FileSearch/FileSearchMultiple.cs:265-278 | reference definition of how the orchestrator's `StartSearch` ends: it returns unless the last searcher threw; a fault propagates; a cancellation is rethrown unless suppression is on; its property is `MultiCompletesOnce` |
| SearchMultiple.RanInOrder | NETFastSearchLibrary/FileSearch/FileSearchMultiple.cs:265-268 | reference definition of the loop over the searchers: every searcher before the last that ran returned, and the loop stops early only at a searcher that threw; `FileSearchMultiple.StartSearch` ensures it |
| SearchMultiple.MultiCompletesOnce | NETFastSearchLibrary/FileSearch/FileSearchMultiple.cs:263-278 | exactly one completion unless a handler fault escapes, flagged exactly when a searcher rethrew the cancellation (a searcher that completes as cancelled because a handler task was cancelled returns normally and does not raise it); the cancellation is rethrown exactly when suppression is off |

Two consequences of the code worth knowing:

- A single-child chain is not searched by one parallel unit. For root/{x.txt, sub1/{sub2/{y.txt}}},
  `GetStartDirectories(root)` follows the chain down to `sub2`. That directory has no
  subdirectories, so it returns an empty list, and both batches come from the chain
  collapse of the root. No unit of the fan-out runs (`SingleChildChainExample`).
- `OnSearchCompleted` inspects only the first inner exception of `Task.WaitAll`. Suppose a
  deferred handler task was cancelled before it started and a later one faulted. The search
  then completes as cancelled and the fault is not rethrown (`CanceledTaskHidesLaterFault`).

## Left out

- `FilePatternSearch.StartSearch` and the `FilePatternSearch` constructors (FilePatternSearch.cs:13-36) are not modelled. They belong to the non-cancellable search, which is not part of this model.
- `FileSearchBase` (the source of `CallFilesFound`, `CallSearchCompleted`, `taskHandlers`, `folder` and `handlerOption`) is not part of this model. Its two calls are appends to the subscribers' log; its fields are plain fields.
- `FileCancellationPatternSearch` and `FileCancellationDelegateSearch` are not part of this model. The model assumes that each child searcher runs the walk of `FilePatternSearch` (`GetFiles`, `GetStartDirectories`) under `FileCancellationSearchBase`, with the pattern or the delegate as the `Matcher`. Any token checks those classes make inside their own `GetFiles` or `GetStartDirectories` are not modelled: the token is polled only by the two fan-out levels.
- A deferred handler task can end cancelled only once the token is cancelled (`TaskEx.Run(..., token)`). The model states the part it needs as a precondition of `StartSearch`: a token that is never cancelled cancels no task. It does not relate the moment a task is cancelled to the poll at which the request became visible.
- `StartSearchAsync` and `StopSearch` are task-scheduling and token-source machinery. A cancellation request is the token's `requestedAfter`, that is, the poll from which it is visible.
- Threads and interleavings are not modelled. Each `ForAll` is an arbitrary order of whole elements, one at a time, and a running element is never interrupted. PLINQ checks the token between elements at points of its own choosing, and other workers may start elements while one sees the request. The model instead polls before every element and once when each level ends, and starts no element after a poll saw the request. The unsynchronised `taskHandlers.Add` from several workers is modelled as one append per batch.
- Deferred handler tasks are not scheduled. Their handler calls are logged at the join in `OnSearchCompleted` that first waits for them, in task order, and not when they run.
- Exceptions thrown by inline handlers are not modelled, and neither are exceptions of any other type than the three absorbed I/O exceptions, cancellation and a faulted handler task.
- `DirectoryInfo.Exists` is the oracle `isDir`, and the platform's search-pattern matching is the oracle `glob`. The directory tree is a snapshot that does not change during a search.
- The payloads `FileEventArgs` and `SearchCompletedEventArgs` are not modelled. Neither is the null check on the `SearchCompleted` subscriber: every completion is recorded whether or not anyone listens.
- SearchMultiple.FileSearchMultiple.RunSearcher: states only what the orchestrator relies on (the token was polled; a rethrow means the request was seen). The searcher's own reports are stated by `CancellableSearch.FileCancellationSearch.StartSearch`.
- SearchMultiple.FileSearchMultiple.StartSearch: states the order of runs, where the run stops, the searchers left untouched, the completion and the outcome. It does not restate each searcher's own reports.
