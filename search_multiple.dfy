/** `FileSearchMultiple`: argument checks, one cancellable searcher per folder sharing one
    token, the `FilesFound` subscription fanned out to every searcher, and a `StartSearch`
    that runs the searchers one after another and issues one completion of its own.

    A null reference is `None`; `DirectoryInfo.Exists` is the oracle `isDir`; the platform's
    search-pattern matching is the oracle `glob`. */
module SearchMultiple {
  import opened Wrappers
  import opened DirTree
  import opened CancellableSearch

  /** The exception a constructor throws, by parameter: `ArgumentNullException` for a null,
      `ArgumentException` for an empty list, an empty string or a missing folder. */
  datatype ArgError =
    | FoldersNull | FoldersEmpty
    | FolderNull | FolderNotValid | FolderNotFound
    | PatternNull | PatternNotValid
    | DelegateNull
    | TokenSourceNull

  /** `CheckFolder`: null first, then empty, then missing. */
  function CheckFolder(folder: Option<string>, isDir: string -> bool): (r: Option<ArgError>)
    ensures r.None? <==> GoodFolder(folder, isDir)
    ensures r == Some(FolderNull) <==> folder.None?
    ensures r == Some(FolderNotValid) <==> folder == Some("")
    ensures r.Some? ==> r.value in {FolderNull, FolderNotValid, FolderNotFound}
  {
    if folder.None? then Some(FolderNull)
    else if folder.value == "" then Some(FolderNotValid)
    else if !isDir(folder.value) then Some(FolderNotFound)
    else None
  }

  /** A folder `CheckFolder` accepts. */
  predicate GoodFolder(folder: Option<string>, isDir: string -> bool)
  {
    folder.Some? && folder.value != "" && isDir(folder.value)
  }

  /** The error of the first folder, in list order, that `CheckFolder` rejects. */
  function FirstFolderError(folders: seq<Option<string>>, isDir: string -> bool): (r: Option<ArgError>)
    ensures r.None? <==> forall i :: 0 <= i < |folders| ==> GoodFolder(folders[i], isDir)
    ensures r.Some? ==> exists i :: 0 <= i < |folders| && r == CheckFolder(folders[i], isDir)
                                    && forall j :: 0 <= j < i ==> GoodFolder(folders[j], isDir)
  {
    if folders == [] then None
    else if CheckFolder(folders[0], isDir).Some? then CheckFolder(folders[0], isDir)
    else
      var rest := FirstFolderError(folders[1..], isDir);
      assert forall i :: 0 < i < |folders| ==> folders[i] == folders[1..][i - 1];
      rest
  }

  /** `CheckFolders`: a null list, an empty list, or the first rejected folder. */
  function FoldersError(folders: Option<seq<Option<string>>>, isDir: string -> bool): (r: Option<ArgError>)
    ensures r == Some(FoldersNull) <==> folders.None?
    ensures r == Some(FoldersEmpty) <==> folders == Some([])
    ensures r.None? <==> GoodFolders(folders, isDir)
  {
    if folders.None? then Some(FoldersNull)
    else if folders.value == [] then Some(FoldersEmpty)
    else FirstFolderError(folders.value, isDir)
  }

  /** `CheckFolders`, as the loop over the list it is. */
  method CheckFolders(folders: Option<seq<Option<string>>>, isDir: string -> bool) returns (err: Option<ArgError>)
    ensures err == FoldersError(folders, isDir)
  {
    if folders.None? {
      return Some(FoldersNull);
    }
    var list := folders.value;
    if |list| == 0 {
      return Some(FoldersEmpty);
    }
    var i := 0;
    while i < |list|
      invariant i <= |list|
      invariant forall j :: 0 <= j < i ==> GoodFolder(list[j], isDir)
    {
      var e := CheckFolder(list[i], isDir);
      if e.Some? {
        FirstFolderIs(list, isDir, i);
        return e;
      }
      i := i + 1;
    }
    err := None;
  }

  /** The first rejected folder decides the error. */
  lemma {:induction false} FirstFolderIs(folders: seq<Option<string>>, isDir: string -> bool, i: nat)
    requires i < |folders| && !GoodFolder(folders[i], isDir)
    requires forall j :: 0 <= j < i ==> GoodFolder(folders[j], isDir)
    ensures FirstFolderError(folders, isDir) == CheckFolder(folders[i], isDir)
  {
    if i > 0 {
      assert GoodFolder(folders[0], isDir);
      var rest := folders[1..];
      assert forall j :: 0 <= j < i - 1 ==> rest[j] == folders[j + 1];
      FirstFolderIs(rest, isDir, i - 1);
    }
  }

  /** `CheckPattern`: null first, then empty. */
  function PatternError(pattern: Option<string>): (r: Option<ArgError>)
    ensures r.None? <==> pattern.Some? && pattern.value != ""
    ensures r == Some(PatternNull) <==> pattern.None?
    ensures r.Some? ==> r.value in {PatternNull, PatternNotValid}
  {
    if pattern.None? then Some(PatternNull) else if pattern.value == "" then Some(PatternNotValid) else None
  }

  /** The checks of the delegate constructors, in their order: folders, delegate, token source. */
  function DelegateArgsError(folders: Option<seq<Option<string>>>, isValid: Option<Matcher>,
                             tokenSource: Option<CancellationToken>, isDir: string -> bool): (r: Option<ArgError>)
    ensures FoldersError(folders, isDir).Some? ==> r == FoldersError(folders, isDir)
    ensures r == Some(DelegateNull) <==> FoldersError(folders, isDir).None? && isValid.None?
    ensures r == Some(TokenSourceNull) <==> FoldersError(folders, isDir).None? && isValid.Some? && tokenSource.None?
  {
    if FoldersError(folders, isDir).Some? then FoldersError(folders, isDir)
    else if isValid.None? then Some(DelegateNull)
    else if tokenSource.None? then Some(TokenSourceNull)
    else None
  }

  /** The checks of the pattern constructors, in their order: folders, pattern, token source. */
  function PatternArgsError(folders: Option<seq<Option<string>>>, pattern: Option<string>,
                            tokenSource: Option<CancellationToken>, isDir: string -> bool): (r: Option<ArgError>)
    ensures FoldersError(folders, isDir).Some? ==> r == FoldersError(folders, isDir)
    ensures FoldersError(folders, isDir).None? && PatternError(pattern).Some? ==> r == PatternError(pattern)
    ensures r == Some(TokenSourceNull)
            <==> FoldersError(folders, isDir).None? && PatternError(pattern).None? && tokenSource.None?
  {
    if FoldersError(folders, isDir).Some? then FoldersError(folders, isDir)
    else if PatternError(pattern).Some? then PatternError(pattern)
    else if tokenSource.None? then Some(TokenSourceNull)
    else None
  }

  /** Folders that pass the checks: a non-empty list of non-null, non-empty, existing folders. */
  predicate GoodFolders(folders: Option<seq<Option<string>>>, isDir: string -> bool)
  {
    folders.Some? && |folders.value| > 0 && forall i :: 0 <= i < |folders.value| ==> GoodFolder(folders.value[i], isDir)
  }

  /** A delegate constructor succeeds exactly when the folders pass, the delegate is not null
      and the token source is not null. */
  lemma DelegateArgsAccepted(folders: Option<seq<Option<string>>>, isValid: Option<Matcher>,
                             tokenSource: Option<CancellationToken>, isDir: string -> bool)
    ensures DelegateArgsError(folders, isValid, tokenSource, isDir).None?
            <==> GoodFolders(folders, isDir) && isValid.Some? && tokenSource.Some?
  {
  }

  /** A pattern constructor succeeds exactly when the folders pass, the pattern is neither null
      nor empty, and the token source is not null. */
  lemma PatternArgsAccepted(folders: Option<seq<Option<string>>>, pattern: Option<string>,
                            tokenSource: Option<CancellationToken>, isDir: string -> bool)
    ensures PatternArgsError(folders, pattern, tokenSource, isDir).None?
            <==> GoodFolders(folders, isDir) && pattern.Some? && pattern.value != "" && tokenSource.Some?
  {
  }

  /** The folder paths of a list that passed the checks. */
  function Paths(folders: seq<Option<string>>): (r: seq<string>)
    requires forall i :: 0 <= i < |folders| ==> folders[i].Some?
    ensures |r| == |folders| && forall i :: 0 <= i < |folders| ==> folders[i] == Some(r[i])
  {
    seq(|folders|, i requires 0 <= i < |folders| => folders[i].value)
  }

  /** The selection rule of a pattern searcher: the platform's match of `pattern`. */
  function PatternMatcher(glob: (string, File) -> bool, pattern: string): Matcher
  {
    f => glob(pattern, f)
  }

  /** `Delegate.Combine` on a subscription list: a null delegate changes nothing. */
  function Combine(handlers: seq<HandlerId>, h: Option<HandlerId>): (r: seq<HandlerId>)
    ensures |r| == |handlers| + (if h.Some? then 1 else 0) && r[..|handlers|] == handlers
    ensures h.Some? ==> r[|r| - 1] == h.value
    ensures multiset(r) == multiset(handlers) + (if h.Some? then multiset{h.value} else multiset{})
  {
    if h.None? then handlers else handlers + [h.value]
  }

  /** `Delegate.Remove` on a subscription list: the last occurrence of `h` goes; a null or
      absent delegate changes nothing. */
  function Remove(handlers: seq<HandlerId>, h: Option<HandlerId>): (r: seq<HandlerId>)
    ensures h.None? || h.value !in handlers ==> r == handlers
    ensures |r| == if h.Some? && h.value in handlers then |handlers| - 1 else |handlers|
  {
    if h.None? || handlers == [] then handlers
    else
      var n := |handlers| - 1;
      assert handlers == handlers[..n] + [handlers[n]];
      if handlers[n] == h.value then handlers[..n]
      else Remove(handlers[..n], h) + [handlers[n]]
  }

  /** Removal takes exactly one copy of `h` out of the subscription list. */
  lemma {:induction false} RemoveOneCopy(handlers: seq<HandlerId>, h: HandlerId)
    ensures multiset(Remove(handlers, Some(h))) == multiset(handlers) - multiset{h}
  {
    if handlers != [] {
      var n := |handlers| - 1;
      assert handlers == handlers[..n] + [handlers[n]];
      if handlers[n] != h {
        RemoveOneCopy(handlers[..n], h);
      }
    }
  }

  /** Removal takes out the last occurrence, at `k`, and keeps everything else in order. */
  lemma {:induction false} RemoveLastOccurrence(handlers: seq<HandlerId>, h: HandlerId, k: nat)
    requires k < |handlers| && handlers[k] == h && h !in handlers[k + 1..]
    ensures Remove(handlers, Some(h)) == handlers[..k] + handlers[k + 1..]
  {
    var n := |handlers| - 1;
    var front := handlers[..n];
    if k < n {
      assert handlers[n] in handlers[k + 1..];
      assert front[k + 1..] == handlers[k + 1..n];
      RemoveLastOccurrence(front, h, k);
      assert handlers[k + 1..] == front[k + 1..] + [handlers[n]];
      assert handlers[..k] == front[..k];
    }
  }

  /** Removing a delegate just added restores the subscription list. */
  lemma RemoveUndoesCombine(handlers: seq<HandlerId>, h: Option<HandlerId>)
    ensures Remove(Combine(handlers, h), h) == handlers
  {
    if h.Some? {
      var l := handlers + [h.value];
      assert l[..|l| - 1] == handlers;
    }
  }

  /** The completion `StartSearch` issues after the searchers it ran ended with `outcomes`:
      none if the last rethrew a handler fault, otherwise one, flagged if it was cancelled. */
  function MultiCompletions(outcomes: seq<Outcome>): seq<bool>
  {
    if outcomes != [] && outcomes[|outcomes| - 1] == ThrowsFault then []
    else [outcomes != [] && outcomes[|outcomes| - 1] == ThrowsCanceled]
  }

  /** How `StartSearch` ends after the searchers it ran ended with `outcomes`. */
  function MultiOutcome(outcomes: seq<Outcome>, suppress: bool): Outcome
  {
    if outcomes == [] || outcomes[|outcomes| - 1] == Returned then Returned
    else if outcomes[|outcomes| - 1] == ThrowsFault then ThrowsFault
    else if suppress then Returned
    else ThrowsCanceled
  }

  /** The searchers run in order and the run stops at the first that does not return. */
  predicate RanInOrder(outcomes: seq<Outcome>, n: nat)
  {
    && |outcomes| <= n
    && (forall j :: 0 <= j < |outcomes| - 1 ==> outcomes[j] == Returned)
    && (|outcomes| < n ==> |outcomes| > 0 && outcomes[|outcomes| - 1] != Returned)
  }

  /** Exactly one completion, unless a handler fault escapes, flagged exactly when some
      searcher was cancelled; the cancellation is rethrown exactly when suppression is off. */
  lemma MultiCompletesOnce(outcomes: seq<Outcome>, n: nat, suppress: bool)
    requires RanInOrder(outcomes, n)
    ensures |MultiCompletions(outcomes)| == if ThrowsFault in outcomes then 0 else 1
    ensures ThrowsFault !in outcomes ==> MultiCompletions(outcomes) == [ThrowsCanceled in outcomes]
    ensures MultiOutcome(outcomes, suppress) == ThrowsCanceled <==> ThrowsCanceled in outcomes && !suppress
    ensures MultiOutcome(outcomes, suppress) == ThrowsFault <==> ThrowsFault in outcomes
    ensures ThrowsCanceled in outcomes || ThrowsFault in outcomes ==> |outcomes| > 0
  {
    if outcomes != [] {
      var last := |outcomes| - 1;
      forall j | 0 <= j < last ensures outcomes[j] == Returned {
      }
      assert ThrowsFault in outcomes <==> outcomes[last] == ThrowsFault;
      assert ThrowsCanceled in outcomes <==> outcomes[last] == ThrowsCanceled;
    }
  }

  class FileSearchMultiple {
    const searchers: seq<FileCancellationSearch>
    const tokenSource: CancellationToken
    const suppress: bool
    /** The orchestrator's own `SearchCompleted` calls, by flag. */
    var completions: seq<bool>

    /** The searchers are distinct, share the token and never suppress the cancellation. */
    predicate Valid()
    {
      && (forall i, j :: 0 <= i < j < |searchers| ==> searchers[i] != searchers[j])
      && (forall i :: 0 <= i < |searchers| ==> searchers[i].token == tokenSource && !searchers[i].suppress)
    }

    /** One new searcher per folder, in folder order, with the given rule and dispatch, the
        handler tasks of searcher `i` ending as `taskStatus(i)` says, and nothing subscribed
        or reported yet. */
    ghost predicate Configured(folders: seq<string>, isMatch: Matcher, handlerOption: ExecuteHandlers,
                               taskStatus: nat -> nat -> TaskStatus)
      reads this, searchers
    {
      && |searchers| == |folders|
      && completions == []
      && forall i :: 0 <= i < |searchers| ==>
           && searchers[i].folder == folders[i]
           && searchers[i].isMatch == isMatch
           && searchers[i].handlerOption == handlerOption && searchers[i].taskStatus == taskStatus(i)
           && searchers[i].log == [] && searchers[i].taskHandlers == [] && searchers[i].handlers == []
           && searchers[i].joined == 0
    }

    /** The body shared by the constructors once the checks have passed. */
    constructor(folders: seq<string>, isMatch: Matcher, tokenSource: CancellationToken,
                handlerOption: ExecuteHandlers, suppress: bool, taskStatus: nat -> nat -> TaskStatus)
      ensures Valid() && Configured(folders, isMatch, handlerOption, taskStatus)
      ensures fresh(searchers) && this.tokenSource == tokenSource && this.suppress == suppress
    {
      var built: seq<FileCancellationSearch> := [];
      for i := 0 to |folders|
        invariant |built| == i && fresh(built)
        invariant forall j, k :: 0 <= j < k < i ==> built[j] != built[k]
        invariant forall j :: 0 <= j < i ==>
                    && built[j].token == tokenSource && !built[j].suppress
                    && built[j].folder == folders[j] && built[j].isMatch == isMatch
                    && built[j].handlerOption == handlerOption && built[j].taskStatus == taskStatus(j)
                    && built[j].log == [] && built[j].taskHandlers == [] && built[j].handlers == []
                    && built[j].joined == 0
      {
        var s := new FileCancellationSearch(folders[i], isMatch, handlerOption, false, tokenSource, taskStatus(i));
        built := built + [s];
      }
      searchers := built;
      this.suppress := suppress;
      this.tokenSource := tokenSource;
      completions := [];
    }

    /** The constructor with a delegate, a dispatch option and the suppression flag. Here and
        in the other constructors, `taskStatus(i)` is how the deferred handler tasks of
        searcher `i` end: the scheduler's and the handlers' part, not an argument of the
        library. */
    static method WithDelegate(folders: Option<seq<Option<string>>>, isValid: Option<Matcher>,
                               tokenSource: Option<CancellationToken>, handlerOption: ExecuteHandlers,
                               suppress: bool, isDir: string -> bool,
                               taskStatus: nat -> nat -> TaskStatus)
      returns (r: Result<FileSearchMultiple, ArgError>)
      ensures r.Failure? <==> DelegateArgsError(folders, isValid, tokenSource, isDir).Some?
      ensures r.Failure? ==> Some(r.error) == DelegateArgsError(folders, isValid, tokenSource, isDir)
      ensures r.Success? ==> GoodFolders(folders, isDir) && isValid.Some? && tokenSource.Some?
      ensures r.Success? ==>
                && fresh(r.value) && fresh(r.value.searchers) && r.value.Valid()
                && r.value.Configured(Paths(folders.value), isValid.value, handlerOption, taskStatus)
                && r.value.tokenSource == tokenSource.value && r.value.suppress == suppress
    {
      DelegateArgsAccepted(folders, isValid, tokenSource, isDir);
      var err := CheckFolders(folders, isDir);
      if err.Some? {
        return Failure(err.value);
      }
      if isValid.None? {
        return Failure(DelegateNull);
      }
      if tokenSource.None? {
        return Failure(TokenSourceNull);
      }
      var m := new FileSearchMultiple(Paths(folders.value), isValid.value, tokenSource.value, handlerOption, suppress, taskStatus);
      r := Success(m);
    }

    /** The delegate constructor without the flag: suppression is on. */
    static method WithDelegateAndOption(folders: Option<seq<Option<string>>>, isValid: Option<Matcher>,
                                        tokenSource: Option<CancellationToken>, handlerOption: ExecuteHandlers,
                                        isDir: string -> bool,
                               taskStatus: nat -> nat -> TaskStatus)
      returns (r: Result<FileSearchMultiple, ArgError>)
      ensures r.Failure? <==> DelegateArgsError(folders, isValid, tokenSource, isDir).Some?
      ensures r.Failure? ==> Some(r.error) == DelegateArgsError(folders, isValid, tokenSource, isDir)
      ensures r.Success? ==> GoodFolders(folders, isDir) && isValid.Some? && tokenSource.Some?
      ensures r.Success? ==>
                && fresh(r.value) && fresh(r.value.searchers) && r.value.Valid()
                && r.value.Configured(Paths(folders.value), isValid.value, handlerOption, taskStatus)
                && r.value.tokenSource == tokenSource.value && r.value.suppress
    {
      r := WithDelegate(folders, isValid, tokenSource, handlerOption, true, isDir, taskStatus);
    }

    /** The shortest delegate constructor: handlers inline, suppression on. */
    static method WithDelegateDefaults(folders: Option<seq<Option<string>>>, isValid: Option<Matcher>,
                                       tokenSource: Option<CancellationToken>, isDir: string -> bool,
                               taskStatus: nat -> nat -> TaskStatus)
      returns (r: Result<FileSearchMultiple, ArgError>)
      ensures r.Failure? <==> DelegateArgsError(folders, isValid, tokenSource, isDir).Some?
      ensures r.Failure? ==> Some(r.error) == DelegateArgsError(folders, isValid, tokenSource, isDir)
      ensures r.Success? ==> GoodFolders(folders, isDir) && isValid.Some? && tokenSource.Some?
      ensures r.Success? ==>
                && fresh(r.value) && fresh(r.value.searchers) && r.value.Valid()
                && r.value.Configured(Paths(folders.value), isValid.value, InCurrentTask, taskStatus)
                && r.value.tokenSource == tokenSource.value && r.value.suppress
    {
      r := WithDelegate(folders, isValid, tokenSource, InCurrentTask, true, isDir, taskStatus);
    }

    /** The constructor with a search pattern, a dispatch option and the suppression flag. */
    static method WithPattern(folders: Option<seq<Option<string>>>, pattern: Option<string>,
                              tokenSource: Option<CancellationToken>, handlerOption: ExecuteHandlers,
                              suppress: bool, isDir: string -> bool, glob: (string, File) -> bool,
                              taskStatus: nat -> nat -> TaskStatus)
      returns (r: Result<FileSearchMultiple, ArgError>)
      ensures r.Failure? <==> PatternArgsError(folders, pattern, tokenSource, isDir).Some?
      ensures r.Failure? ==> Some(r.error) == PatternArgsError(folders, pattern, tokenSource, isDir)
      ensures r.Success? ==> GoodFolders(folders, isDir) && pattern.Some? && pattern.value != "" && tokenSource.Some?
      ensures r.Success? ==>
                && fresh(r.value) && fresh(r.value.searchers) && r.value.Valid()
                && r.value.Configured(Paths(folders.value), PatternMatcher(glob, pattern.value), handlerOption, taskStatus)
                && r.value.tokenSource == tokenSource.value && r.value.suppress == suppress
    {
      PatternArgsAccepted(folders, pattern, tokenSource, isDir);
      var err := CheckFolders(folders, isDir);
      if err.Some? {
        return Failure(err.value);
      }
      if pattern.None? {
        return Failure(PatternNull);
      }
      if pattern.value == "" {
        return Failure(PatternNotValid);
      }
      if tokenSource.None? {
        return Failure(TokenSourceNull);
      }
      var m := new FileSearchMultiple(Paths(folders.value), PatternMatcher(glob, pattern.value),
                                      tokenSource.value, handlerOption, suppress, taskStatus);
      r := Success(m);
    }

    /** The pattern constructor without the flag: suppression is on. */
    static method WithPatternAndOption(folders: Option<seq<Option<string>>>, pattern: Option<string>,
                                       tokenSource: Option<CancellationToken>, handlerOption: ExecuteHandlers,
                                       isDir: string -> bool, glob: (string, File) -> bool,
                              taskStatus: nat -> nat -> TaskStatus)
      returns (r: Result<FileSearchMultiple, ArgError>)
      ensures r.Failure? <==> PatternArgsError(folders, pattern, tokenSource, isDir).Some?
      ensures r.Failure? ==> Some(r.error) == PatternArgsError(folders, pattern, tokenSource, isDir)
      ensures r.Success? ==> GoodFolders(folders, isDir) && pattern.Some? && pattern.value != "" && tokenSource.Some?
      ensures r.Success? ==>
                && fresh(r.value) && fresh(r.value.searchers) && r.value.Valid()
                && r.value.Configured(Paths(folders.value), PatternMatcher(glob, pattern.value), handlerOption, taskStatus)
                && r.value.tokenSource == tokenSource.value && r.value.suppress
    {
      r := WithPattern(folders, pattern, tokenSource, handlerOption, true, isDir, glob, taskStatus);
    }

    /** The pattern constructor with handlers inline and suppression on. */
    static method WithPatternDefaults(folders: Option<seq<Option<string>>>, pattern: Option<string>,
                                      tokenSource: Option<CancellationToken>,
                                      isDir: string -> bool, glob: (string, File) -> bool,
                              taskStatus: nat -> nat -> TaskStatus)
      returns (r: Result<FileSearchMultiple, ArgError>)
      ensures r.Failure? <==> PatternArgsError(folders, pattern, tokenSource, isDir).Some?
      ensures r.Failure? ==> Some(r.error) == PatternArgsError(folders, pattern, tokenSource, isDir)
      ensures r.Success? ==> GoodFolders(folders, isDir) && pattern.Some? && pattern.value != "" && tokenSource.Some?
      ensures r.Success? ==>
                && fresh(r.value) && fresh(r.value.searchers) && r.value.Valid()
                && r.value.Configured(Paths(folders.value), PatternMatcher(glob, pattern.value), InCurrentTask, taskStatus)
                && r.value.tokenSource == tokenSource.value && r.value.suppress
    {
      r := WithPattern(folders, pattern, tokenSource, InCurrentTask, true, isDir, glob, taskStatus);
    }

    /** The constructor with folders and a token source only: every file (pattern `"*"`),
        handlers inline, suppression on. */
    static method AllFiles(folders: Option<seq<Option<string>>>, tokenSource: Option<CancellationToken>,
                           isDir: string -> bool, glob: (string, File) -> bool,
                              taskStatus: nat -> nat -> TaskStatus)
      returns (r: Result<FileSearchMultiple, ArgError>)
      ensures r.Failure? <==> PatternArgsError(folders, Some("*"), tokenSource, isDir).Some?
      ensures r.Failure? ==> Some(r.error) == PatternArgsError(folders, Some("*"), tokenSource, isDir)
      ensures r.Failure? ==> r.error != PatternNull && r.error != PatternNotValid
      ensures r.Success? ==> GoodFolders(folders, isDir) && tokenSource.Some?
      ensures r.Success? ==>
                && fresh(r.value) && fresh(r.value.searchers) && r.value.Valid()
                && r.value.Configured(Paths(folders.value), PatternMatcher(glob, "*"), InCurrentTask, taskStatus)
                && r.value.tokenSource == tokenSource.value && r.value.suppress
    {
      r := WithPattern(folders, Some("*"), tokenSource, InCurrentTask, true, isDir, glob, taskStatus);
    }

    /** `FilesFound += h`: subscribes `h` on every searcher. */
    method AddFilesFound(h: Option<HandlerId>)
      requires Valid()
      modifies searchers`handlers
      ensures forall i :: 0 <= i < |searchers| ==> searchers[i].handlers == Combine(old(searchers[i].handlers), h)
    {
      for i := 0 to |searchers|
        invariant forall j :: 0 <= j < i ==> searchers[j].handlers == Combine(old(searchers[j].handlers), h)
        invariant forall j :: i <= j < |searchers| ==> searchers[j].handlers == old(searchers[j].handlers)
      {
        searchers[i].handlers := Combine(searchers[i].handlers, h);
      }
    }

    /** `FilesFound -= h`: unsubscribes `h` from every searcher. */
    method RemoveFilesFound(h: Option<HandlerId>)
      requires Valid()
      modifies searchers`handlers
      ensures forall i :: 0 <= i < |searchers| ==> searchers[i].handlers == Remove(old(searchers[i].handlers), h)
    {
      for i := 0 to |searchers|
        invariant forall j :: 0 <= j < i ==> searchers[j].handlers == Remove(old(searchers[j].handlers), h)
        invariant forall j :: i <= j < |searchers| ==> searchers[j].handlers == old(searchers[j].handlers)
      {
        searchers[i].handlers := Remove(searchers[i].handlers, h);
      }
    }

    /** `OnSearchCompleted(isCanceled)` of the orchestrator. */
    method OnSearchCompleted(isCanceled: bool)
      modifies this`completions
      ensures completions == old(completions) + [isCanceled]
    {
      completions := completions + [isCanceled];
    }

    /** A searcher's `StartSearch`: only its own state and the shared token change, and it
        rethrows a cancellation only once the token has been seen cancelled. */
    method RunSearcher(s: FileCancellationSearch, fs: FileSystem) returns (o: Outcome)
      requires s.token == tokenSource
      requires tokenSource.requestedAfter.None? ==> forall i :: s.taskStatus(i) != Canceled
      modifies s`log, s`taskHandlers, s`joined, tokenSource`polls
      ensures tokenSource.polls > old(tokenSource.polls)
      ensures o == ThrowsCanceled ==> tokenSource.ObservedBefore(tokenSource.polls)
    {
      ghost var canceled, emitted;
      o, canceled, emitted := s.StartSearch(fs);
    }

    /** `StartSearch`: each searcher's `StartSearch` in folder order, stopping at the first
        that throws; then
        one completion unless a handler fault escapes, and the cancellation rethrown only
        when suppression is off. Searchers after the one that stopped are never started. */
    method StartSearch(fs: FileSystem)
      returns (outcome: Outcome, ghost outcomes: seq<Outcome>)
      requires Valid()
      requires tokenSource.requestedAfter.None? ==>
               forall k, i :: 0 <= k < |searchers| ==> searchers[k].taskStatus(i) != Canceled
      modifies this`completions, searchers`log, searchers`taskHandlers, searchers`joined, tokenSource`polls
      ensures RanInOrder(outcomes, |searchers|)
      ensures forall j :: |outcomes| <= j < |searchers| ==>
                searchers[j].log == old(searchers[j].log) && searchers[j].taskHandlers == old(searchers[j].taskHandlers)
      ensures completions == old(completions) + MultiCompletions(outcomes)
      ensures outcome == MultiOutcome(outcomes, suppress)
      ensures ThrowsCanceled in outcomes ==> tokenSource.ObservedBefore(tokenSource.polls)
      ensures tokenSource.requestedAfter.None? ==> ThrowsCanceled !in outcomes && outcome != ThrowsCanceled
    {
      outcomes := [];
      var i := 0;
      while i < |searchers|
        invariant i <= |searchers| && |outcomes| == i
        invariant forall j :: 0 <= j < i ==> outcomes[j] == Returned
        invariant forall j :: i <= j < |searchers| ==>
                    searchers[j].log == old(searchers[j].log) && searchers[j].taskHandlers == old(searchers[j].taskHandlers)
        invariant completions == old(completions)
      {
        var o := RunSearcher(searchers[i], fs);
        outcomes := outcomes + [o];
        if o == ThrowsCanceled {
          OnSearchCompleted(true);
          outcome := if suppress then Returned else ThrowsCanceled;
          return;
        }
        if o == ThrowsFault {
          outcome := ThrowsFault;
          return;
        }
        i := i + 1;
      }
      OnSearchCompleted(false);
      outcome := Returned;
    }
  }
}
