/**
 The per-VM module loader: a depth-first search over a closed bundle with a cache of finished
 modules and a stack of modules being loaded.

 A module's source is reduced to what loading depends on: the `require` requests its top level makes
 in order, and whether it then raises an error of its own. A failing request ends the evaluation.
 */
module BundleLoader {
  import opened Wrappers
  import opened ModulePaths
  import opened Bundles

  datatype Script = Script(requests: seq<string>, raises: bool)

  datatype LoadError =
    | VirtualModuleDenied(request: string)
    | AbsoluteImport(request: string)
    | NonRelativeImport(request: string)
    | NoRequesterContext(request: string)
    | Resolve(error: ResolveError)
    | ModuleNotFound(path: string)
    | Cycle(path: string)
    | Lua(path: string)

  /** Requests refused before anything is resolved. */
  function Denied(request: string): Option<LoadError> {
    if "@" <= request then Some(VirtualModuleDenied(request))
    else if "/" <= request || "\\" <= request || HasDrive(request) then Some(AbsoluteImport(request))
    else if !IsRelative(request) then Some(NonRelativeImport(request))
    else None
  }

  /** The part of `require` that depends only on the requesting module: what the request names. */
  function Import(b: Bundle, from: string, request: string): Result<string, LoadError> {
    match Denied(request)
    case Some(error) => Err(error)
    case None =>
      match Resolved(b, from, request)
      case Err(error) => Err(Resolve(error))
      case Ok(path) => Ok(path)
  }

  /** The stack without the last occurrence of a module. */
  function WithoutLast(stack: seq<string>, path: string): seq<string> {
    if stack == [] then []
    else
      var (most, last) := (stack[..|stack| - 1], stack[|stack| - 1]);
      if last == path then most else WithoutLast(most, path) + [last]
  }

  method RemoveLast(stack: seq<string>, path: string) returns (s: seq<string>)
    ensures s == WithoutLast(stack, path)
  {
    var k := |stack|;
    assert stack[..k] == stack;
    while k > 0 && stack[k - 1] != path
      invariant k <= |stack| && WithoutLast(stack, path) == WithoutLast(stack[..k], path) + stack[k..]
    {
      assert stack[..k][..k - 1] == stack[..k - 1] && [stack[k - 1]] + stack[k..] == stack[k - 1..];
      k := k - 1;
    }
    if k == 0 {
      return stack;
    }
    assert stack[..k][..k - 1] == stack[..k - 1];
    return stack[..k - 1] + stack[k..];
  }

  /** A bundle together with what its modules do when evaluated. */
  datatype Program = Program(bundle: Bundle, scripts: map<string, Script>) {
    ghost predicate Valid() {
      ValidBundle(bundle) && scripts.Keys == bundle.modules.Keys
    }

    // ----- The import graph

    /** Evaluating `p` asks for `q`. */
    ghost predicate Imports(p: string, q: string) {
      p in scripts && exists r :: r in scripts[p].requests && Import(bundle, p, r) == Ok(q)
    }

    /** Evaluating `p` fails by itself: it raises, or makes a request that names no module. */
    ghost predicate Broken(p: string) {
      p in scripts && (scripts[p].raises || exists r :: r in scripts[p].requests && Import(bundle, p, r).Err?)
    }

    ghost predicate Chain(c: seq<string>) {
      c != [] && forall k :: 0 < k < |c| ==> Imports(c[k - 1], c[k])
    }

    ghost predicate ChainFrom(c: seq<string>, p: string, q: string) {
      Chain(c) && c[0] == p && c[|c| - 1] == q
    }

    ghost predicate Reaches(p: string, q: string) {
      exists c :: ChainFrom(c, p, q)
    }

    ghost predicate OnCycle(p: string) {
      exists c :: ChainFrom(c, p, p) && |c| > 1
    }

    /** Every module reachable from `p` evaluates by itself, and none of them imports itself. */
    ghost predicate Loadable(p: string) {
      p in scripts && forall q :: Reaches(p, q) ==> !Broken(q) && !OnCycle(q)
    }

    lemma ReachesItself(p: string)
      ensures Reaches(p, p)
    {
      assert ChainFrom([p], p, p);
    }

    lemma ReachesThrough(p: string, q: string, r: string)
      requires Imports(p, q) && Reaches(q, r)
      ensures Reaches(p, r)
    {
      var c :| ChainFrom(c, q, r);
      assert ChainFrom([p] + c, p, r);
    }

    lemma ImportNamesModule(p: string, q: string)
      requires Valid() && Imports(p, q)
      ensures q in scripts
    {
      var r :| r in scripts[p].requests && Import(bundle, p, r) == Ok(q);
      ResolvedIsModule(bundle, p, r);
    }

    lemma BadImport(p: string, q: string)
      requires Valid() && Imports(p, q) && !Loadable(q)
      ensures !Loadable(p)
    {
      ImportNamesModule(p, q);
      var r :| Reaches(q, r) && (Broken(r) || OnCycle(r));
      ReachesThrough(p, q, r);
    }

    // ----- What finished modules guarantee

    /** Modules in the order they finished: each works by itself and imports only earlier ones. */
    ghost predicate Ordered(log: seq<string>) {
      && Distinct(log)
      && (forall i :: 0 <= i < |log| ==> log[i] in scripts && !Broken(log[i]))
      && (forall i, q :: 0 <= i < |log| && Imports(log[i], q) ==> q in log[..i])
    }

    /** Following imports from a finished module leads back in the order. */
    lemma {:induction false} ChainGoesBack(log: seq<string>, i: nat, c: seq<string>)
      requires Ordered(log) && i < |log| && Chain(c) && c[0] == log[i]
      ensures c[|c| - 1] in log[..i + 1]
      ensures |c| > 1 ==> c[|c| - 1] != log[i]
      decreases |c|
    {
      if |c| > 1 {
        assert Imports(c[0], c[1]);
        var j :| 0 <= j < i && log[j] == c[1];
        assert forall k :: 0 < k < |c[1..]| ==> c[1..][k - 1] == c[k] && c[1..][k] == c[k + 1];
        ChainGoesBack(log, j, c[1..]);
        var last := c[|c| - 1];
        var m :| 0 <= m <= j && log[m] == last;
        assert log[..i + 1][m] == last && log[m] != log[i];
      }
    }

    lemma FinishedIsLoadable(log: seq<string>, p: string)
      requires Ordered(log) && p in log
      ensures Loadable(p) && forall q :: Reaches(p, q) ==> q in log
    {
      var i :| 0 <= i < |log| && log[i] == p;
      forall q | Reaches(p, q) ensures q in log && !Broken(q) && !OnCycle(q) {
        var c :| ChainFrom(c, p, q);
        ChainGoesBack(log, i, c);
        var j :| 0 <= j <= i && log[j] == q;
        if OnCycle(q) {
          var d :| ChainFrom(d, q, q) && |d| > 1;
          ChainGoesBack(log, j, d);
        }
      }
    }

    /** A module on the stack that is asked for again imports itself. */
    lemma StackedIsOnCycle(stack: seq<string>, p: string)
      requires Chain(stack) && Imports(stack[|stack| - 1], p) && p in stack
      ensures OnCycle(p) && Reaches(p, p)
    {
      ReachesItself(p);
      var j :| 0 <= j < |stack| && stack[j] == p;
      var c := stack[j..] + [p];
      forall k | 0 < k < |c| ensures Imports(c[k - 1], c[k]) {
        assert c[k - 1] == stack[j + k - 1];
        assert k < |c| - 1 ==> c[k] == stack[j + k];
      }
      assert ChainFrom(c, p, p);
    }

    /** An error names a real defect of some module reachable from `p`. */
    ghost predicate Blames(error: LoadError, p: string) {
      match error
      case Cycle(q) => Reaches(p, q) && OnCycle(q)
      case Lua(q) => Reaches(p, q) && q in scripts && scripts[q].raises
      case ModuleNotFound(q) => q == p && p !in scripts
      case _ =>
        exists q, r ::
          Reaches(p, q) && q in scripts && r in scripts[q].requests && Import(bundle, q, r) == Err(error)
    }

    lemma BlamesThrough(error: LoadError, p: string, q: string)
      requires Valid() && Imports(p, q) && Blames(error, q)
      ensures Blames(error, p)
    {
      ImportNamesModule(p, q);
      match error
      case Cycle(r) => ReachesThrough(p, q, r);
      case Lua(r) => ReachesThrough(p, q, r);
      case ModuleNotFound(r) =>
      case _ =>
        var m, r :| Reaches(q, m) && m in scripts && r in scripts[m].requests && Import(bundle, m, r) == Err(error);
        ReachesThrough(p, q, m);
    }
  }

  /** A run of the loader, seen in its histories: evaluations begun and modules finished. */
  datatype History = History(started: seq<string>, log: seq<string>)

  /**
   From history `h` to `h'` the loader worked for `p`: nothing is forgotten, only modules reachable from `p`
   finished, and if nothing failed then each evaluation begun is a module finished.
   */
  ghost predicate Grew(program: Program, p: string, h: History, h': History, done: bool) {
    && h.log <= h'.log && h.started <= h'.started
    && (forall q :: q in h'.log[|h.log|..] ==> program.Reaches(p, q))
    && (done ==> multiset(h'.started) == multiset(h.started) + multiset(h'.log[|h.log|..]))
  }

  lemma GrewFurther(program: Program, p: string, q: string, h: History, m: History, h': History, done: bool)
    requires program.Imports(p, q) && Grew(program, p, h, m, true) && Grew(program, q, m, h', done)
    ensures Grew(program, p, h, h', done)
  {
    assert h'.log[|h.log|..] == m.log[|h.log|..] + h'.log[|m.log|..];
    forall r | r in h'.log[|m.log|..] ensures program.Reaches(p, r) {
      program.ReachesThrough(p, q, r);
    }
  }

  /** Loading succeeds exactly for what is loadable; otherwise the error names a defect that can be reached. */
  ghost predicate LoadedAs(program: Program, path: string, r: Result<string, LoadError>, h: History, h': History) {
    && Grew(program, path, h, h', r.Ok?)
    && (r.Ok? <==> program.Loadable(path))
    && (if r.Ok? then r.value == path else program.Blames(r.error, path))
  }

  /** What a `require` of `from` may yield, and how far the histories grow. */
  ghost predicate Answers(program: Program, from: string, request: string, r: Result<string, LoadError>, h: History,
      h': History)
  {
    match Import(program.bundle, from, request)
    case Err(error) => r == Err(error) && h' == h
    case Ok(path) => LoadedAs(program, path, r, h, h')
  }

  lemma FailedAs(program: Program, path: string, error: LoadError, start: History, before: History, h: History)
    requires before == History(start.started + [path], start.log) && Grew(program, path, before, h, false)
    requires program.Blames(error, path) && !program.Loadable(path)
    ensures LoadedAs(program, path, Err(error), start, h)
  {
  }

  /** A failing request condemns the module that makes it; a successful one lets it go on. */
  lemma RequestOutcome(
    program: Program, path: string, request: string, r: Result<string, LoadError>, start: History, h: History,
      h': History)
    requires program.Valid() && path in program.scripts && request in program.scripts[path].requests
    requires Grew(program, path, start, h, true) && Answers(program, path, request, r, h, h')
    ensures Grew(program, path, start, h', r.Ok?)
    ensures r.Err? ==> program.Blames(r.error, path) && !program.Loadable(path)
  {
    program.ReachesItself(path);
    var target := Import(program.bundle, path, request);
    if target.Ok? {
      assert program.Imports(path, target.value);
      GrewFurther(program, path, target.value, start, h, h', r.Ok?);
      if r.Err? {
        program.BadImport(path, target.value);
        program.BlamesThrough(r.error, path, target.value);
      }
    }
  }

  /** The first `count` requests of a module named modules that are cached. */
  ghost predicate ServedUpTo(program: Program, path: string, count: nat, cache: set<string>) {
    && path in program.scripts && count <= |program.scripts[path].requests|
    && forall j :: 0 <= j < count ==>
         var target := Import(program.bundle, path, program.scripts[path].requests[j]);
         target.Ok? && target.value in cache
  }

  lemma AllServed(program: Program, path: string, cache: set<string>)
    requires path in program.scripts && !program.scripts[path].raises
    requires ServedUpTo(program, path, |program.scripts[path].requests|, cache)
    ensures !program.Broken(path) && forall q :: program.Imports(path, q) ==> q in cache
  {
  }

  // ----- The loader

  class RuntimeState {
    const program: Program
    /** Modules with a cached value. */
    var cache: set<string>
    /** Modules being evaluated, outermost first. */
    var loading: seq<string>
    /** Histories: evaluations begun, and modules finished. */
    ghost var started: seq<string>
    ghost var log: seq<string>

    ghost predicate Valid()
      reads this
    {
      && program.Valid()
      && program.Ordered(log)
      && (forall p :: p in cache <==> p in log)
      && Distinct(loading)
      && (forall p :: p in loading ==> p in program.scripts && p !in cache)
      && (loading != [] ==> program.Chain(loading))
    }

    constructor (program: Program)
      requires program.Valid()
      ensures Valid() && this.program == program
      ensures cache == {} && loading == [] && started == [] && log == []
    {
      this.program := program;
      cache, loading, started, log := {}, [], [], [];
    }

    ghost function Now(): History
      reads this
    {
      History(started, log)
    }

    function Pending(): set<string>
      reads this
    {
      set p | p in program.bundle.modules && p !in loading
    }

    method LoadRequired(request: string) returns (r: Result<string, LoadError>)
      requires Valid()
      requires loading != [] ==> request in program.scripts[loading[|loading| - 1]].requests
      modifies this
      ensures Valid() && loading == old(loading)
      ensures old(cache) <= cache
      ensures loading == [] ==> r.Err? && Now() == old(Now())
      ensures loading != [] ==>
        && Answers(program, loading[|loading| - 1], request, r, old(Now()), Now())
        && (r.Ok? ==> r.value in cache)
      decreases Pending(), 3
    {
      var denied := Denied(request);
      if denied.Some? {
        return Err(denied.value);
      }
      if loading == [] {
        return Err(NoRequesterContext(request));
      }
      var path := ResolveRelative(program.bundle, loading[|loading| - 1], request);
      if path.Err? {
        return Err(Resolve(path.error));
      }
      r := LoadFor(request, path.value);
    }

    /** Load what a request of the module on top of the stack names. */
    method LoadFor(request: string, path: string) returns (r: Result<string, LoadError>)
      requires Valid() && loading != []
      requires request in program.scripts[loading[|loading| - 1]].requests
      requires Import(program.bundle, loading[|loading| - 1], request) == Ok(path)
      modifies this
      ensures Valid() && loading == old(loading) && old(cache) <= cache
      ensures Answers(program, loading[|loading| - 1], request, r, old(Now()), Now()) && (r.Ok? ==> r.value in cache)
      decreases Pending(), 2
    {
      assert program.Imports(loading[|loading| - 1], path);
      r := LoadModule(path);
    }

    /** Make the requests of the module on top of the stack, up to the first that fails. */
    method RunRequests(path: string) returns (failure: Option<LoadError>)
      requires Valid() && loading != [] && loading[|loading| - 1] == path
      modifies this
      ensures Valid() && loading == old(loading) && old(cache) <= cache
      ensures Grew(program, path, old(Now()), Now(), failure.None?)
      ensures failure.None? ==> ServedUpTo(program, path, |program.scripts[path].requests|, cache)
      ensures failure.Some? ==> program.Blames(failure.value, path) && !program.Loadable(path)
      decreases Pending(), 5
    {
      ghost var start := Now();
      for k := 0 to |program.scripts[path].requests|
        invariant Valid() && loading == old(loading) && old(cache) <= cache
        invariant Grew(program, path, start, Now(), true)
        invariant ServedUpTo(program, path, k, cache)
      {
        failure := RunRequest(path, k, start);
        if failure.Some? {
          return;
        }
      }
      return None;
    }

    /** Make one request for a module whose earlier requests all succeeded. */
    method RunRequest(path: string, k: nat, ghost start: History) returns (failure: Option<LoadError>)
      requires Valid() && loading != [] && loading[|loading| - 1] == path
      requires ServedUpTo(program, path, k, cache) && k < |program.scripts[path].requests|
      requires Grew(program, path, start, Now(), true)
      modifies this
      ensures Valid() && loading == old(loading) && old(cache) <= cache
      ensures Grew(program, path, start, Now(), failure.None?)
      ensures failure.None? ==> ServedUpTo(program, path, k + 1, cache)
      ensures failure.Some? ==> program.Blames(failure.value, path) && !program.Loadable(path)
      decreases Pending(), 4
    {
      var request := program.scripts[path].requests[k];
      ghost var before := Now();
      var loaded := LoadRequired(request);
      RequestOutcome(program, path, request, loaded, start, before, Now());
      failure := if loaded.Err? then Some(loaded.error) else None;
    }

    /** Evaluate the module on top of the stack: its requests, then its own outcome. */
    method Evaluate(path: string) returns (failure: Option<LoadError>)
      requires Valid() && loading != [] && loading[|loading| - 1] == path
      modifies this
      ensures Valid() && loading == old(loading) && old(cache) <= cache
      ensures Grew(program, path, old(Now()), Now(), failure.None?)
      ensures failure.None? ==> !program.Broken(path) && forall q :: program.Imports(path, q) ==> q in cache
      ensures failure.Some? ==> program.Blames(failure.value, path) && !program.Loadable(path)
      decreases Pending(), 6
    {
      program.ReachesItself(path);
      failure := RunRequests(path);
      if failure.None? {
        if program.scripts[path].raises {
          return Some(Lua(path));
        }
        AllServed(program, path, cache);
      }
    }

    method LoadModule(path: string) returns (r: Result<string, LoadError>)
      requires Valid()
      requires loading != [] ==> program.Imports(loading[|loading| - 1], path)
      modifies this
      ensures Valid() && loading == old(loading)
      ensures LoadedAs(program, path, r, old(Now()), Now()) && (r.Ok? ==> path in cache)
      ensures old(cache) <= cache
      ensures path in old(cache) ==> Now() == old(Now())
      decreases Pending(), 1
    {
      if path in cache {
        program.FinishedIsLoadable(log, path);
        return Ok(path);
      }
      if path in loading {
        program.StackedIsOnCycle(loading, path);
        return Err(Cycle(path));
      }
      if path !in program.bundle.modules {
        return Err(ModuleNotFound(path));
      }
      r := LoadFresh(path);
    }

    /** Evaluate a module that is neither finished nor being evaluated, and cache it if that succeeds. */
    method LoadFresh(path: string) returns (r: Result<string, LoadError>)
      requires Valid() && path in program.bundle.modules && path !in cache && path !in loading
      requires loading != [] ==> program.Imports(loading[|loading| - 1], path)
      modifies this
      ensures Valid() && loading == old(loading) && old(cache) <= cache
      ensures LoadedAs(program, path, r, old(Now()), Now()) && (r.Ok? ==> path in cache)
      decreases Pending(), 0
    {
      Begin(path);
      ghost var before := Now();
      var failure := Evaluate(path);
      r := Settle(path, failure, old(Now()), before);
      assert loading == old(loading);
    }

    /** Leave a module whose evaluation has ended, and cache it unless it failed. */
    method Settle(path: string, failure: Option<LoadError>, ghost start: History, ghost before: History)
      returns (r: Result<string, LoadError>)
      requires Valid() && loading != [] && loading[|loading| - 1] == path
      requires before == History(start.started + [path], start.log) && Grew(program, path, before, Now(), failure.None?)
      requires failure.None? ==> !program.Broken(path) && forall q :: program.Imports(path, q) ==> q in cache
      requires failure.Some? ==> program.Blames(failure.value, path) && !program.Loadable(path)
      modifies this
      ensures Valid() && loading == old(loading)[..|old(loading)| - 1] && old(cache) <= cache
      ensures LoadedAs(program, path, r, start, Now()) && (r.Ok? ==> path in cache)
    {
      Leave(path);
      if failure.Some? {
        FailedAs(program, path, failure.value, start, before, Now());
        return Err(failure.value);
      }
      Record(path, start, before);
      program.FinishedIsLoadable(log, path);
      return Ok(path);
    }

    /** Pop the module that was being evaluated off the stack. */
    method Leave(path: string)
      requires Valid() && loading != [] && loading[|loading| - 1] == path
      modifies this`loading
      ensures Valid() && loading == old(loading)[..|old(loading)| - 1] && path !in loading
    {
      FinishLoading(path);
    }

    /** Push a module on the stack. */
    method Begin(path: string)
      requires Valid() && path in program.bundle.modules && path !in cache && path !in loading
      requires loading != [] ==> program.Imports(loading[|loading| - 1], path)
      modifies this`loading, this`started
      ensures Valid() && loading == old(loading) + [path]
      ensures Now() == History(old(started) + [path], log)
      ensures Pending() < old(Pending())
    {
      assert path in Pending();
      loading := loading + [path];
      started := started + [path];
      assert path !in Pending() && Pending() <= old(Pending());
    }

    /** Cache a module that was evaluated without a failure. */
    method Record(path: string, ghost start: History, ghost before: History)
      requires Valid() && path in program.scripts && path !in cache && path !in loading && !program.Broken(path)
      requires forall q :: program.Imports(path, q) ==> q in cache
      requires before == History(start.started + [path], start.log) && Grew(program, path, before, Now(), true)
      modifies this`cache, this`log
      ensures Valid() && cache == old(cache) + {path} && log == old(log) + [path]
      ensures Grew(program, path, start, Now(), true)
    {
      ghost var after := Now();
      cache := cache + {path};
      log := log + [path];
      OneMoreFinished(path, start, before, after);
    }

    /** Adding a module whose imports are all finished keeps the order. */
    lemma OneMoreFinished(path: string, start: History, before: History, after: History)
      requires program.Ordered(after.log) && path in program.scripts && path !in after.log && !program.Broken(path)
      requires forall q :: program.Imports(path, q) ==> q in after.log
      requires before == History(start.started + [path], start.log)
      requires Grew(program, path, before, after, true)
      requires Now() == History(after.started, after.log + [path])
      ensures program.Ordered(log) && Grew(program, path, start, Now(), true)
    {
      program.ReachesItself(path);
      forall i, q | 0 <= i < |log| && program.Imports(log[i], q) ensures q in log[..i] {
        assert log[..i] == after.log[..i];
      }
      assert log[|start.log|..] == after.log[|start.log|..] + [path];
    }

    /** `finish_loading`: remove the last occurrence of the module from the stack, which is usually its top. */
    method FinishLoading(path: string)
      modifies this`loading
      ensures loading == WithoutLast(old(loading), path)
      ensures old(loading) != [] && old(loading)[|old(loading)| - 1] == path ==>
        loading == old(loading)[..|old(loading)| - 1]
    {
      if loading != [] && loading[|loading| - 1] == path {
        loading := loading[..|loading| - 1];
      } else {
        loading := RemoveLast(loading, path);
      }
    }

    /**
     Evaluate the entrypoint. It succeeds exactly if every reachable module works and no import cycle
     is reachable. On a fresh runtime every reachable module has then been evaluated exactly once,
     after everything it imports; on a later call nothing is evaluated again.
     */
    method EvalEntrypoint() returns (r: Result<string, LoadError>)
      requires Valid() && loading == []
      modifies this
      ensures Valid() && loading == []
      ensures r.Ok? <==> program.Loadable(program.bundle.manifest.entrypoint)
      ensures r.Err? ==> program.Blames(r.error, program.bundle.manifest.entrypoint)
      ensures r.Ok? && old(log) == [] && old(started) == [] ==>
        && multiset(started) == multiset(log) && Distinct(log) && program.Ordered(log)
        && forall q :: q in log <==> program.Reaches(program.bundle.manifest.entrypoint, q)
      ensures program.bundle.manifest.entrypoint in old(cache) ==> Now() == old(Now())
    {
      r := LoadModule(program.bundle.manifest.entrypoint);
      if r.Ok? {
        program.FinishedIsLoadable(log, program.bundle.manifest.entrypoint);
      }
    }
  }
}
