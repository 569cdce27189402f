/** Closed module bundles: manifests, source records and relative import resolution. */
module Bundles {
  import opened Wrappers
  import opened StringOrder
  import opened ModulePaths

  const ABI_VERSION := 1

  // ----- Manifests

  datatype CapabilityError =
    | EmptyName
    | NonAscii(name: string)
    | EmptyPart(name: string)
    | InvalidCharacter(name: string)

  predicate IsCapabilityChar(c: char) {
    'a' <= c <= 'z' || 'A' <= c <= 'Z' || '0' <= c <= '9' || c == '_' || c == '-' || c == '.'
  }

  function CheckCapability(name: string): Option<CapabilityError> {
    if name == "" then Some(EmptyName)
    else if exists c :: c in name && c >= '\U{80}' then Some(NonAscii(name))
    else if name[0] == '.' || name[|name| - 1] == '.'
            || exists k :: 0 < k < |name| && name[k - 1] == name[k] == '.' then
      Some(EmptyPart(name))
    else if exists c :: c in name && !IsCapabilityChar(c) then Some(InvalidCharacter(name))
    else None
  }

  datatype Manifest = Manifest(abiVersion: nat, entrypoint: string, capabilities: seq<string>)

  datatype ManifestError =
    | UnsupportedAbiVersion(actual: nat)
    | InvalidEntrypoint(error: PathError)
    | InvalidCapability(capabilityError: CapabilityError)
    | DuplicateCapability(capability: string)

  function FirstInvalid(names: seq<string>): Option<CapabilityError> {
    if names == [] then None
    else if CheckCapability(names[0]).Some? then CheckCapability(names[0])
    else FirstInvalid(names[1..])
  }

  function Insert(name: string, sorted: seq<string>): seq<string> {
    if sorted == [] || !Less(sorted[0], name) then [name] + sorted
    else [sorted[0]] + Insert(name, sorted[1..])
  }

  /** Stands for the library's `sort_unstable`. */
  function Sort(names: seq<string>): seq<string> {
    if names == [] then [] else Insert(names[0], Sort(names[1..]))
  }

  function FirstDuplicate(sorted: seq<string>): Option<string> {
    if |sorted| < 2 then None
    else if sorted[0] == sorted[1] then Some(sorted[0])
    else FirstDuplicate(sorted[1..])
  }

  function NewManifest(abiVersion: nat, entrypoint: string, capabilities: seq<string>)
    : Result<Manifest, ManifestError>
  {
    if abiVersion != ABI_VERSION then Err(UnsupportedAbiVersion(abiVersion))
    else
      match NewPath(entrypoint)
      case Err(error) => Err(InvalidEntrypoint(error))
      case Ok(entry) =>
        match FirstInvalid(capabilities)
        case Some(error) => Err(InvalidCapability(error))
        case None =>
          var sorted := Sort(capabilities);
          match FirstDuplicate(sorted)
          case Some(name) => Err(DuplicateCapability(name))
          case None => Ok(Manifest(abiVersion, entry, sorted))
  }

  ghost predicate Distinct<T>(items: seq<T>) {
    forall i, j :: 0 <= i < j < |items| ==> items[i] != items[j]
  }

  ghost predicate SortedWeakly(names: seq<string>) {
    forall i, j :: 0 <= i < j < |names| ==> !Less(names[j], names[i])
  }

  lemma {:induction false} InsertSorted(name: string, sorted: seq<string>)
    requires SortedWeakly(sorted)
    ensures SortedWeakly(Insert(name, sorted))
    ensures multiset(Insert(name, sorted)) == multiset(sorted) + multiset{name}
  {
    if sorted != [] {
      assert sorted == [sorted[0]] + sorted[1..];
      if Less(sorted[0], name) {
        InsertSorted(name, sorted[1..]);
        var rest := Insert(name, sorted[1..]);
        LessTotal(sorted[0], name);
        forall j | 0 <= j < |rest| ensures !Less(rest[j], sorted[0]) {
          assert rest[j] in multiset(rest);
          if rest[j] != name {
            assert rest[j] in sorted[1..];
          }
        }
      } else {
        forall j | 0 <= j < |sorted| ensures !Less(sorted[j], name) {
          if Less(sorted[j], name) {
            LessTotal(sorted[0], sorted[j]);
            LessTotal(sorted[0], name);
            if sorted[0] != sorted[j] { LessTransitive(sorted[0], sorted[j], name); }
          }
        }
      }
    }
  }

  lemma {:induction false} SortSorts(names: seq<string>)
    ensures SortedWeakly(Sort(names)) && multiset(Sort(names)) == multiset(names)
  {
    if names != [] {
      SortSorts(names[1..]);
      InsertSorted(names[0], Sort(names[1..]));
      assert names == [names[0]] + names[1..];
    }
  }

  lemma {:induction false} FirstDuplicateExactly(sorted: seq<string>)
    requires SortedWeakly(sorted)
    ensures FirstDuplicate(sorted).None? <==> Sorted(sorted)
  {
    if |sorted| >= 2 {
      FirstDuplicateExactly(sorted[1..]);
      LessTotal(sorted[0], sorted[1]);
      assert Sorted(sorted) ==> Sorted(sorted[1..]);
      if FirstDuplicate(sorted).None? {
        forall j | 1 <= j < |sorted| ensures Less(sorted[0], sorted[j]) {
          if j > 1 {
            assert Less(sorted[1..][0], sorted[1..][j - 1]);
            LessTransitive(sorted[0], sorted[1], sorted[j]);
          }
        }
        assert forall i, j :: 1 <= i < j < |sorted| ==>
          sorted[i] == sorted[1..][i - 1] && sorted[j] == sorted[1..][j - 1];
      }
    }
  }

  lemma {:induction false} SortedIsDistinct(names: seq<string>)
    requires SortedWeakly(names)
    ensures Sorted(names) <==> Distinct(names)
  {
    forall i, j | 0 <= i < j < |names| ensures names[i] != names[j] <==> Less(names[i], names[j]) {
      LessTotal(names[i], names[j]);
      assert !Less(names[j], names[i]);
    }
  }

  lemma {:induction false} DistinctIsMultiset<T>(items: seq<T>)
    ensures Distinct(items) <==> forall x :: x in items ==> multiset(items)[x] == 1
  {
    if items != [] {
      var rest := items[1..];
      DistinctIsMultiset(rest);
      assert items == [items[0]] + rest;
      if Distinct(items) {
        assert items[0] !in rest;
      }
      if forall x :: x in items ==> multiset(items)[x] == 1 {
        assert multiset(items)[items[0]] == 1;
        assert items[0] !in rest;
        forall x | x in rest ensures multiset(rest)[x] == 1 {
          assert multiset(items)[x] == 1;
        }
      }
    }
  }

  /** Rearranging a list keeps its elements and their distinctness. */
  lemma Rearranged<T>(first: seq<T>, second: seq<T>)
    requires multiset(first) == multiset(second)
    ensures Distinct(first) <==> Distinct(second)
    ensures forall x :: x in first <==> x in second
  {
    DistinctIsMultiset(first);
    DistinctIsMultiset(second);
    assert forall x :: x in first <==> x in multiset(first);
    assert forall x :: x in second <==> x in multiset(second);
  }

  lemma {:induction false} FirstInvalidExactly(names: seq<string>)
    ensures FirstInvalid(names).None? <==> forall n :: n in names ==> CheckCapability(n).None?
  {
    if names != [] {
      FirstInvalidExactly(names[1..]);
      assert names[0] in names;
      assert forall n :: n in names <==> n == names[0] || n in names[1..];
    }
  }

  /** A manifest is built exactly from a supported ABI, a canonical entrypoint and distinct valid names. */
  lemma ManifestExactly(abiVersion: nat, entrypoint: string, capabilities: seq<string>)
    ensures var r := NewManifest(abiVersion, entrypoint, capabilities);
      && (r.Ok? <==> abiVersion == ABI_VERSION && Canonical(entrypoint) && Distinct(capabilities) &&
                     forall n :: n in capabilities ==> CheckCapability(n).None?)
      && (r.Ok? ==> r.value.entrypoint == entrypoint && Sorted(r.value.capabilities) &&
                    multiset(r.value.capabilities) == multiset(capabilities))
  {
    var sorted := Sort(capabilities);
    NewPathExactly(entrypoint);
    FirstInvalidExactly(capabilities);
    SortSorts(capabilities);
    FirstDuplicateExactly(sorted);
    SortedIsDistinct(sorted);
    DistinctIsMultiset(sorted);
    DistinctIsMultiset(capabilities);
    assert forall n :: n in sorted <==> n in multiset(sorted);
    assert forall n :: n in capabilities <==> n in multiset(capabilities);
  }

  /** The order in which capabilities are declared leaves no trace in a manifest. */
  lemma ManifestOrderFree(abiVersion: nat, entrypoint: string, first: seq<string>, second: seq<string>)
    requires multiset(first) == multiset(second)
    ensures NewManifest(abiVersion, entrypoint, first).Ok? ==>
      NewManifest(abiVersion, entrypoint, second) == NewManifest(abiVersion, entrypoint, first)
  {
    ManifestExactly(abiVersion, entrypoint, first);
    ManifestExactly(abiVersion, entrypoint, second);
    Rearranged(first, second);
    if NewManifest(abiVersion, entrypoint, first).Ok? {
      var a := NewManifest(abiVersion, entrypoint, first).value.capabilities;
      var b := NewManifest(abiVersion, entrypoint, second).value.capabilities;
      Rearranged(a, b);
      assert Elements(a) == Elements(b);
      SortedUnique(a, b);
    }
  }

  // ----- Bundles

  datatype Bundle = Bundle(manifest: Manifest, modules: map<string, string>)

  datatype Source = Source(path: string, text: string)

  datatype BundleError =
    | InvalidModulePath(error: PathError)
    | DuplicateModule(path: string)
    | MissingEntrypoint(entrypoint: string)

  /** The source records read so far, or the first record that cannot be added. */
  function Collect(modules: map<string, string>, sources: seq<Source>): Result<map<string, string>, BundleError>
    decreases |sources|
  {
    if sources == [] then Ok(modules)
    else
      match NewPath(sources[0].path)
      case Err(error) => Err(InvalidModulePath(error))
      case Ok(path) =>
        if path in modules then Err(DuplicateModule(path))
        else Collect(modules[path := sources[0].text], sources[1..])
  }

  function Built(manifest: Manifest, sources: seq<Source>): Result<Bundle, BundleError> {
    match Collect(map[], sources)
    case Err(error) => Err(error)
    case Ok(modules) =>
      if manifest.entrypoint !in modules then Err(MissingEntrypoint(manifest.entrypoint))
      else Ok(Bundle(manifest, modules))
  }

  /** `Bundle::from_sources`: fill the module map record by record. */
  method FromSources(manifest: Manifest, sources: seq<Source>) returns (r: Result<Bundle, BundleError>)
    ensures r == Built(manifest, sources)
  {
    var modules: map<string, string> := map[];
    for k := 0 to |sources|
      invariant Collect(map[], sources) == Collect(modules, sources[k..])
    {
      assert sources[k..][1..] == sources[k + 1..];
      var path := NewPath(sources[k].path);
      if path.Err? {
        return Err(InvalidModulePath(path.error));
      }
      if path.value in modules {
        return Err(DuplicateModule(path.value));
      }
      modules := modules[path.value := sources[k].text];
    }
    if manifest.entrypoint !in modules {
      return Err(MissingEntrypoint(manifest.entrypoint));
    }
    return Ok(Bundle(manifest, modules));
  }

  ghost predicate DistinctPaths(sources: seq<Source>) {
    forall i, j :: 0 <= i < j < |sources| ==> sources[i].path != sources[j].path
  }

  lemma DistinctPathsCons(sources: seq<Source>)
    requires sources != []
    ensures DistinctPaths(sources) <==>
      DistinctPaths(sources[1..]) && forall r :: r in sources[1..] ==> r.path != sources[0].path
  {
    var rest := sources[1..];
    assert forall i :: 0 <= i < |rest| ==> rest[i] == sources[i + 1];
    if DistinctPaths(rest) && forall r :: r in rest ==> r.path != sources[0].path {
      forall i, j | 0 <= i < j < |sources| ensures sources[i].path != sources[j].path {
        assert rest[j - 1] in rest && sources[j] == rest[j - 1];
        assert i > 0 ==> sources[i] == rest[i - 1];
      }
    }
  }

  ghost predicate Addable(sources: seq<Source>, modules: map<string, string>) {
    DistinctPaths(sources) && forall s :: s in sources ==> Canonical(s.path) && s.path !in modules
  }

  ghost predicate Extends(modules: map<string, string>, sources: seq<Source>, all: map<string, string>) {
    && (forall p :: p in all <==> p in modules || exists s :: s in sources && s.path == p)
    && (forall p :: p in modules ==> all[p] == modules[p])
    && (forall s :: s in sources ==> all[s.path] == s.text)
  }

  lemma {:induction false} CollectSucceeds(modules: map<string, string>, sources: seq<Source>)
    ensures Collect(modules, sources).Ok? <==> Addable(sources, modules)
    decreases |sources|
  {
    if sources != [] {
      var s, rest := sources[0], sources[1..];
      assert forall r :: r in sources <==> r == s || r in rest;
      NewPathExactly(s.path);
      DistinctPathsCons(sources);
      CollectSucceeds(modules[s.path := s.text], rest);
    }
  }

  lemma {:induction false} CollectExtends(modules: map<string, string>, sources: seq<Source>)
    requires Collect(modules, sources).Ok?
    ensures Extends(modules, sources, Collect(modules, sources).value)
    decreases |sources|
  {
    if sources != [] {
      var s, rest := sources[0], sources[1..];
      assert forall r :: r in sources <==> r == s || r in rest;
      NewPathExactly(s.path);
      var next := modules[s.path := s.text];
      CollectExtends(next, rest);
      assert s in sources && s.path in next;
    }
  }

  /** A bundle is built exactly from distinct canonical records that include the entrypoint, and holds just them. */
  lemma BuiltExactly(manifest: Manifest, sources: seq<Source>)
    ensures var r := Built(manifest, sources);
      && (r.Ok? <==> DistinctPaths(sources) && (forall s :: s in sources ==> Canonical(s.path)) &&
                     exists s :: s in sources && s.path == manifest.entrypoint)
      && (r.Ok? ==>
            && r.value.manifest == manifest
            && (forall p :: p in r.value.modules <==> exists s :: s in sources && s.path == p)
            && (forall s :: s in sources ==> r.value.modules[s.path] == s.text))
  {
    CollectSucceeds(map[], sources);
    if Collect(map[], sources).Ok? {
      CollectExtends(map[], sources);
    }
  }

  /** The order of the source records leaves no trace in a bundle. */
  lemma BuiltOrderFree(manifest: Manifest, first: seq<Source>, second: seq<Source>)
    requires multiset(first) == multiset(second)
    ensures Built(manifest, first).Ok? ==> Built(manifest, second) == Built(manifest, first)
  {
    Rearranged(first, second);
    BuiltExactly(manifest, first);
    BuiltExactly(manifest, second);
    if Built(manifest, first).Ok? {
      DistinctPathsRearranged(first, second);
      assert Built(manifest, first).value.modules == Built(manifest, second).value.modules;
    }
  }

  lemma DistinctPathsRearranged(first: seq<Source>, second: seq<Source>)
    requires multiset(first) == multiset(second) && DistinctPaths(first)
    ensures DistinctPaths(second)
  {
    Rearranged(first, second);
    assert Distinct(first);
    forall i, j | 0 <= i < j < |second| ensures second[i].path != second[j].path {
      assert second[i] in first && second[j] in first;
      var a :| 0 <= a < |first| && first[a] == second[i];
      var b :| 0 <= b < |first| && first[b] == second[j];
      assert a < b || b < a;
    }
  }

  // ----- Relative resolution

  datatype ResolveError =
    | InvalidPath(error: PathError)
    | EscapesBundle(from: string, requested: string)
    | RequesterNotFound(path: string)
    | NotFound(path: string)

  datatype WalkError = EmptyPiece | ParentOfRootPath | AboveRoot

  predicate IsRelative(request: string) {
    request == "." || request == ".." || "./" <= request || "../" <= request
  }

  /** Follow request segments from a directory stack: `.` stays, `..` pops, a name pushes. */
  function Walk(stack: seq<string>, request: seq<string>, relative: bool): Result<seq<string>, WalkError>
    decreases |request|
  {
    if request == [] then Ok(stack)
    else if request[0] == "" then Err(EmptyPiece)
    else if request[0] == "." then Walk(stack, request[1..], relative)
    else if request[0] == ".." then
      if !relative then Err(ParentOfRootPath)
      else if stack == [] then Err(AboveRoot)
      else Walk(stack[..|stack| - 1], request[1..], relative)
    else Walk(stack + [request[0]], request[1..], relative)
  }

  function Directory(from: string): seq<string> {
    match Parent(from)
    case None => []
    case Some(parent) => Split(parent)
  }

  function WalkFailure(error: WalkError, from: string, requested: string): ResolveError {
    match error
    case EmptyPiece => InvalidPath(EmptySegment(requested))
    case ParentOfRootPath => InvalidPath(Traversal(requested))
    case AboveRoot => EscapesBundle(from, requested)
  }

  function Resolved(b: Bundle, from: string, requested: string): Result<string, ResolveError> {
    if from !in b.modules then Err(RequesterNotFound(from))
    else if "/" <= requested || "\\" <= requested then Err(InvalidPath(AbsoluteOrTrailingSeparator(requested)))
    else
      var relative := IsRelative(requested);
      match Walk(if relative then Directory(from) else [], Split(requested), relative)
      case Err(error) => Err(WalkFailure(error, from, requested))
      case Ok(stack) =>
        match NewPath(Join(stack))
        case Err(error) => Err(InvalidPath(error))
        case Ok(path) => if path in b.modules then Ok(path) else Err(NotFound(path))
  }

  /** `Bundle::resolve_relative`: one pass over the request, pushing and popping segments. */
  method ResolveRelative(b: Bundle, from: string, requested: string) returns (r: Result<string, ResolveError>)
    ensures r == Resolved(b, from, requested)
  {
    if from !in b.modules {
      return Err(RequesterNotFound(from));
    }
    if "/" <= requested || "\\" <= requested {
      return Err(InvalidPath(AbsoluteOrTrailingSeparator(requested)));
    }
    var relative := IsRelative(requested);
    var segments := if relative then Directory(from) else [];
    ghost var start := segments;
    var pieces := Split(requested);
    for k := 0 to |pieces|
      invariant Walk(start, pieces, relative) == Walk(segments, pieces[k..], relative)
    {
      assert pieces[k..][1..] == pieces[k + 1..];
      if pieces[k] == "" {
        return Err(InvalidPath(EmptySegment(requested)));
      } else if pieces[k] == "." {
      } else if pieces[k] == ".." {
        if !relative {
          return Err(InvalidPath(Traversal(requested)));
        }
        if segments == [] {
          return Err(EscapesBundle(from, requested));
        }
        segments := segments[..|segments| - 1];
      } else {
        segments := segments + [pieces[k]];
      }
    }
    var path := NewPath(Join(segments));
    if path.Err? {
      return Err(InvalidPath(path.error));
    }
    if path.value !in b.modules {
      return Err(NotFound(path.value));
    }
    return Ok(path.value);
  }

  /** Walking is compositional, so `.` and `name/..` pairs can be removed anywhere in a request. */
  lemma {:induction false} WalkComposes(stack: seq<string>, first: seq<string>, second: seq<string>, relative: bool)
    ensures Walk(stack, first + second, relative)
         == match Walk(stack, first, relative)
            case Err(error) => Err(error)
            case Ok(middle) => Walk(middle, second, relative)
    decreases |first|
  {
    if first == [] {
      assert first + second == second;
    } else {
      assert (first + second)[1..] == first[1..] + second;
      if first[0] == "" {
      } else if first[0] == "." {
        WalkComposes(stack, first[1..], second, relative);
      } else if first[0] != ".." {
        WalkComposes(stack + [first[0]], first[1..], second, relative);
      } else if relative && stack != [] {
        WalkComposes(stack[..|stack| - 1], first[1..], second, relative);
      }
    }
  }

  lemma WalkNormalises(stack: seq<string>, before: seq<string>, name: string, after: seq<string>)
    requires name != "" && name != "." && name != ".."
    ensures Walk(stack, before + [".", name, ".."] + after, true) == Walk(stack, before + after, true)
  {
    WalkComposes(stack, before, after, true);
    WalkComposes(stack, before, [".", name, ".."] + after, true);
    assert before + [".", name, ".."] + after == before + ([".", name, ".."] + after);
    if Walk(stack, before, true).Ok? {
      var middle := Walk(stack, before, true).value;
      var detour := [".", name, ".."] + after;
      assert detour[1..] == [name, ".."] + after;
      assert Walk(middle, detour, true) == Walk(middle, [name, ".."] + after, true);
      assert ([name, ".."] + after)[1..] == [".."] + after;
      assert Walk(middle, [name, ".."] + after, true) == Walk(middle + [name], [".."] + after, true);
      assert ([".."] + after)[1..] == after;
      assert (middle + [name])[..|middle|] == middle;
    }
  }

  /** How many levels a request descends, counting each `..` as one level up. */
  function Descent(request: seq<string>): int {
    if request == [] then 0
    else
      var last := request[|request| - 1];
      Descent(request[..|request| - 1]) + if last == ".." then -1 else if last == "." then 0 else 1
  }

  /** A request leaves the bundle exactly if some prefix of it climbs above the root. */
  lemma {:induction false} EscapesExactly(stack: seq<string>, request: seq<string>)
    requires "" !in request
    ensures Walk(stack, request, true).Ok? || Walk(stack, request, true) == Err(AboveRoot)
    ensures Walk(stack, request, true).Err? <==> exists k :: 0 <= k <= |request| && |stack| + Descent(request[..k]) < 0
    ensures Walk(stack, request, true).Ok? ==> |Walk(stack, request, true).value| == |stack| + Descent(request)
  {
    if request != [] {
      var n := |request| - 1;
      var init, last := request[..n], request[n];
      EscapesExactly(stack, init);
      assert request == init + [last] && last in request;
      WalkComposes(stack, init, [last], true);
      assert forall k :: 0 <= k <= n ==> init[..k] == request[..k];
      assert request[..n + 1] == request;
      if Walk(stack, init, true).Ok? {
        var middle := Walk(stack, init, true).value;
        assert [last][1..] == [];
        assert Walk(middle, [last], true).Err? <==> |stack| + Descent(request) < 0;
      }
    }
  }

  ghost predicate ValidBundle(b: Bundle) {
    b.manifest.entrypoint in b.modules && forall p :: p in b.modules ==> Canonical(p)
  }

  lemma BuiltIsValid(manifest: Manifest, sources: seq<Source>)
    requires Built(manifest, sources).Ok?
    ensures ValidBundle(Built(manifest, sources).value)
  {
    BuiltExactly(manifest, sources);
  }

  /** Whatever resolves is a module of the bundle, reached by walking names from the requester's directory. */
  lemma ResolvedIsModule(b: Bundle, from: string, requested: string)
    requires ValidBundle(b) && Resolved(b, from, requested).Ok?
    ensures var path := Resolved(b, from, requested).value;
      && path in b.modules
      && Walk(
           if IsRelative(requested) then Split(from)[..|Split(from)| - 1] else [],
           Split(requested), IsRelative(requested))
         == Ok(Split(path))
  {
    ParentSegments(from);
    var relative := IsRelative(requested);
    var start := if relative then Directory(from) else [];
    NewPathExactly(from);
    JoinOfSplit(from);
    JoinOfSplit(requested);
    WalkPushesNames(start, Split(requested), relative);
    var stack := Walk(start, Split(requested), relative).value;
    NewPathExactly(Join(stack));
    SplitOfJoin(stack);
  }

  lemma {:induction false} WalkPushesNames(stack: seq<string>, request: seq<string>, relative: bool)
    requires forall n :: n in stack || n in request ==> '/' !in n
    ensures Walk(stack, request, relative).Ok? ==>
      forall n :: n in Walk(stack, request, relative).value ==> '/' !in n
    decreases |request|
  {
    if request != [] && request[0] != "" {
      assert request[0] in request && forall n :: n in request[1..] ==> n in request;
      if request[0] == "." {
        WalkPushesNames(stack, request[1..], relative);
      } else if request[0] != ".." {
        WalkPushesNames(stack + [request[0]], request[1..], relative);
      } else if relative && stack != [] {
        WalkPushesNames(stack[..|stack| - 1], request[1..], relative);
      }
    }
  }

  // ----- Every module can name every other module

  function Ups(n: nat): string {
    if n == 0 then "" else "../" + Ups(n - 1)
  }

  /** Climb to the bundle root, then descend to the target. */
  function RelativeRequest(from: string, target: string): string {
    if Parent(from).None? then "./" + target else Ups(|Split(from)| - 1) + target
  }

  lemma {:induction false} UpsSegments(n: nat, target: string)
    ensures Split(Ups(n) + target) == seq(n, _ => "..") + Split(target)
  {
    if n > 0 {
      UpsSegments(n - 1, target);
      SplitSlash("..", Ups(n - 1) + target);
      SplitWhole("..");
      assert Ups(n) + target == ".." + "/" + (Ups(n - 1) + target);
      assert seq(n, _ => "..") == [".."] + seq(n - 1, _ => "..");
    } else {
      assert Ups(0) + target == target;
    }
  }

  lemma {:induction false} WalkUps(stack: seq<string>, rest: seq<string>)
    ensures Walk(stack, seq(|stack|, _ => "..") + rest, true) == Walk([], rest, true)
  {
    var ups := seq(|stack|, _ => "..");
    if stack == [] {
      assert ups + rest == rest;
    } else {
      var init := stack[..|stack| - 1];
      WalkUps(init, rest);
      assert (ups + rest)[1..] == seq(|init|, _ => "..") + rest;
    }
  }

  lemma {:induction false} WalkNames(stack: seq<string>, names: seq<string>)
    requires forall n :: n in names ==> IsName(n)
    ensures Walk(stack, names, true) == Ok(stack + names)
    decreases |names|
  {
    if names == [] {
      assert stack + names == stack;
    } else {
      assert names[0] in names && forall n :: n in names[1..] ==> n in names;
      WalkNames(stack + [names[0]], names[1..]);
      assert stack + names == stack + [names[0]] + names[1..];
    }
  }

  lemma RequestSegments(from: string, target: string)
    ensures IsRelative(RelativeRequest(from, target))
    ensures Parent(from).None? ==> Split(RelativeRequest(from, target)) == ["."] + Split(target)
    ensures Parent(from).Some? ==>
      Split(RelativeRequest(from, target)) == seq(|Split(from)| - 1, _ => "..") + Split(target)
  {
    ParentSegments(from);
    if Parent(from).None? {
      SiblingSegments(from, target);
    } else {
      UpwardSegments(from, target);
    }
  }

  lemma SiblingSegments(from: string, target: string)
    requires Parent(from).None?
    ensures IsRelative(RelativeRequest(from, target)) && Split(RelativeRequest(from, target)) == ["."] + Split(target)
  {
    var request := RelativeRequest(from, target);
    SplitSlash(".", target);
    SplitWhole(".");
    assert request == "." + "/" + target && request[..2] == "./";
  }

  lemma UpwardSegments(from: string, target: string)
    requires Parent(from).Some? && |Split(from)| > 1
    ensures IsRelative(RelativeRequest(from, target))
    ensures Split(RelativeRequest(from, target)) == seq(|Split(from)| - 1, _ => "..") + Split(target)
  {
    UpsSegments(|Split(from)| - 1, target);
    UpsAreRelative(|Split(from)| - 1, target);
  }

  lemma UpsAreRelative(depth: nat, target: string)
    requires depth > 0
    ensures IsRelative(Ups(depth) + target)
  {
    assert Ups(depth) + target == "../" + (Ups(depth - 1) + target);
  }

  /** Walking the computed request from the requester's directory ends at the target's segments. */
  lemma RelativeRequestWalks(from: string, target: string)
    requires forall n :: n in Split(target) ==> IsName(n)
    ensures Walk(Directory(from), Split(RelativeRequest(from, target)), true) == Ok(Split(target))
  {
    RequestSegments(from, target);
    ParentSegments(from);
    var names := Split(target);
    WalkNames([], names);
    assert [] + names == names;
    if Parent(from).None? {
      assert (["."] + names)[1..] == names;
    } else {
      WalkUps(Directory(from), names);
    }
  }

  /** The relative request computed for two modules of a bundle resolves to exactly the target. */
  lemma RelativeRequestResolves(b: Bundle, from: string, target: string)
    requires ValidBundle(b) && from in b.modules && target in b.modules
    ensures Resolved(b, from, RelativeRequest(from, target)) == Ok(target)
  {
    NewPathExactly(target);
    JoinOfSplit(target);
    RequestSegments(from, target);
    RelativeRequestWalks(from, target);
  }

  /** The same for every bundle that can be built: whatever records it was built from, its modules reach each other. */
  lemma BuiltRequestResolves(manifest: Manifest, sources: seq<Source>, from: Source, target: Source)
    requires Built(manifest, sources).Ok? && from in sources && target in sources
    ensures
      Resolved(Built(manifest, sources).value, from.path, RelativeRequest(from.path, target.path)) == Ok(target.path)
  {
    BuiltExactly(manifest, sources);
    BuiltIsValid(manifest, sources);
    RelativeRequestResolves(Built(manifest, sources).value, from.path, target.path);
  }
}
