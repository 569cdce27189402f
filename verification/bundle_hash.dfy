/**
 The byte stream behind a bundle's source identity: every field is preceded by its length as eight
 little-endian bytes. Only this stream is modelled, not the 64-bit FNV fold over it.
 */
module BundleHash {
  import opened Wrappers
  import opened Utf8
  import opened StringOrder
  import opened ModulePaths
  import opened Bundles

  /** The low `count` bytes of `n`, least significant first. */
  function LittleEndian(n: nat, count: nat): (bytes: seq<byte>)
    ensures |bytes| == count
  {
    if count == 0 then [] else [n % 256] + LittleEndian(n / 256, count - 1)
  }

  function Frame(field: seq<byte>): seq<byte> {
    LittleEndian(|field|, 8) + field
  }

  function Frames(fields: seq<seq<byte>>): seq<byte> {
    if fields == [] then [] else Frame(fields[0]) + Frames(fields[1..])
  }

  function Encoded(texts: seq<string>): seq<seq<byte>> {
    seq(|texts|, k requires 0 <= k < |texts| => Encode(texts[k]))
  }

  function ModuleFields(paths: seq<string>, modules: map<string, string>): seq<seq<byte>>
    requires forall p :: p in paths ==> p in modules
  {
    if paths == [] then []
    else [Encode(paths[0]), Encode(modules[paths[0]])] + ModuleFields(paths[1..], modules)
  }

  function HeadFields(manifest: Manifest): seq<seq<byte>> {
    [LittleEndian(manifest.abiVersion, 4), Encode(manifest.entrypoint)] + Encoded(manifest.capabilities)
  }

  /** All hashed fields in order; neither capabilities nor modules are counted. */
  ghost function Fields(b: Bundle): seq<seq<byte>> {
    HeadFields(b.manifest) + ModuleFields(InOrder(b.modules.Keys), b.modules)
  }

  ghost function Stream(b: Bundle): seq<byte> {
    Frames(Fields(b))
  }

  // ----- The running hash, reduced to the bytes it has been fed

  class Hasher {
    var fed: seq<byte>

    constructor ()
      ensures fed == []
    {
      fed := [];
    }

    /** `hash_field`: feed the length prefix, then the field. */
    method HashField(field: seq<byte>)
      modifies this
      ensures fed == old(fed) + Frame(field)
    {
      var bytes := LittleEndian(|field|, 8) + field;
      for k := 0 to |bytes|
        invariant fed == old(fed) + bytes[..k]
      {
        fed := fed + [bytes[k]];
      }
    }
  }

  lemma {:induction false} FramesAppend(fields: seq<seq<byte>>, more: seq<seq<byte>>)
    ensures Frames(fields + more) == Frames(fields) + Frames(more)
  {
    if fields == [] {
      assert fields + more == more;
    } else {
      assert (fields + more)[1..] == fields[1..] + more;
      FramesAppend(fields[1..], more);
    }
  }

  lemma FramesTwo(first: seq<byte>, second: seq<byte>)
    ensures Frames([first]) == Frame(first)
    ensures Frames([first, second]) == Frame(first) + Frame(second)
  {
    assert [first, second][1..] == [second];
    assert Frames([second]) == Frame(second) + Frames([second][1..]);
  }

  lemma InOrderStep(names: set<string>, least: string)
    requires IsLeast(least, names)
    ensures InOrder(names) == [least] + InOrder(names - {least})
  {
    var rest := InOrder(names - {least});
    assert Elements([least] + rest) == Elements(InOrder(names)) by {
      assert forall n :: n in [least] + rest <==> n == least || n in rest;
    }
    assert Sorted([least] + rest) by {
      forall j | 0 <= j < |rest| ensures Less(least, rest[j]) {
        assert rest[j] in rest;
      }
    }
    SortedUnique([least] + rest, InOrder(names));
  }

  lemma ModuleFieldsStep(remaining: set<string>, path: string, modules: map<string, string>)
    requires remaining <= modules.Keys && IsLeast(path, remaining)
    ensures Frames(ModuleFields(InOrder(remaining), modules))
         == Frame(Encode(path)) + Frame(Encode(modules[path]))
            + Frames(ModuleFields(InOrder(remaining - {path}), modules))
  {
    InOrderStep(remaining, path);
    var rest := InOrder(remaining - {path});
    assert ([path] + rest)[1..] == rest;
    var pair := [Encode(path), Encode(modules[path])];
    FramesAppend(pair, ModuleFields(rest, modules));
    FramesTwo(pair[0], pair[1]);
  }

  method HashHead(hash: Hasher, manifest: Manifest)
    requires hash.fed == []
    modifies hash
    ensures hash.fed == Frames(HeadFields(manifest))
  {
    hash.HashField(LittleEndian(manifest.abiVersion, 4));
    hash.HashField(Encode(manifest.entrypoint));
    ghost var head := HeadFields(manifest);
    FramesTwo(head[0], head[1]);
    assert head[..2] == [head[0], head[1]];
    for k := 0 to |manifest.capabilities|
      invariant hash.fed == Frames(head[..k + 2])
    {
      assert head[..k + 3] == head[..k + 2] + [head[k + 2]];
      FramesAppend(head[..k + 2], [head[k + 2]]);
      FramesTwo(head[k + 2], []);
      hash.HashField(Encode(manifest.capabilities[k]));
    }
    assert head[..|head|] == head;
  }

  lemma Regroup(fed: seq<byte>, first: seq<byte>, second: seq<byte>, rest: seq<byte>)
    ensures fed + (first + second + rest) == fed + first + second + rest
  {
  }

  method HashModules(hash: Hasher, modules: map<string, string>)
    modifies hash
    ensures hash.fed == old(hash.fed) + Frames(ModuleFields(InOrder(modules.Keys), modules))
  {
    var remaining := modules.Keys;
    while remaining != {}
      invariant remaining <= modules.Keys
      invariant hash.fed + Frames(ModuleFields(InOrder(remaining), modules))
             == old(hash.fed) + Frames(ModuleFields(InOrder(modules.Keys), modules))
    {
      LeastExists(remaining);
      ghost var least :| IsLeast(least, remaining);
      var path :| path in remaining && forall n :: n in remaining ==> n == path || Less(path, n);
      ModuleFieldsStep(remaining, path, modules);
      Regroup(hash.fed, Frame(Encode(path)), Frame(Encode(modules[path])),
              Frames(ModuleFields(InOrder(remaining - {path}), modules)));
      hash.HashField(Encode(path));
      hash.HashField(Encode(modules[path]));
      remaining := remaining - {path};
    }
  }

  /** `calculate_hash`: the manifest's fields, then the modules in path order. */
  method CalculateHash(b: Bundle) returns (fed: seq<byte>)
    ensures fed == Stream(b)
  {
    var hash := new Hasher();
    HashHead(hash, b.manifest);
    HashModules(hash, b.modules);
    FramesAppend(HeadFields(b.manifest), ModuleFields(InOrder(b.modules.Keys), b.modules));
    fed := hash.fed;
  }

  // ----- What the stream determines

  function Bound(count: nat): nat {
    if count == 0 then 1 else 256 * Bound(count - 1)
  }

  lemma {:induction false} LittleEndianInjective(n: nat, m: nat, count: nat)
    requires n < Bound(count) && m < Bound(count)
    requires LittleEndian(n, count) == LittleEndian(m, count)
    ensures n == m
  {
    if count > 0 {
      var a, b := LittleEndian(n, count), LittleEndian(m, count);
      assert a[0] == b[0] && a[1..] == b[1..];
      LittleEndianInjective(n / 256, m / 256, count - 1);
    }
  }

  /** Field lengths fit the eight-byte prefix, as every length in memory does. */
  ghost predicate Framable(fields: seq<seq<byte>>) {
    forall f :: f in fields ==> |f| < Bound(8)
  }

  /** Framing loses nothing: concatenation cannot move bytes between fields. */
  lemma {:induction false} FramesInjective(a: seq<seq<byte>>, b: seq<seq<byte>>)
    requires Framable(a) && Framable(b) && Frames(a) == Frames(b)
    ensures a == b
  {
    if a != [] && b != [] {
      var s := Frames(a);
      assert s[..8] == LittleEndian(|a[0]|, 8);
      assert s[..8] == LittleEndian(|b[0]|, 8);
      assert a[0] in a && b[0] in b;
      LittleEndianInjective(|a[0]|, |b[0]|, 8);
      assert a[0] == s[8..8 + |a[0]|];
      assert b[0] == s[8..8 + |a[0]|];
      assert Frames(a[1..]) == s[8 + |a[0]|..];
      assert Frames(b[1..]) == s[8 + |a[0]|..];
      FramesInjective(a[1..], b[1..]);
      assert a == [a[0]] + a[1..] && b == [b[0]] + b[1..];
    }
  }

  lemma {:induction false} ModuleFieldsInjective(p: seq<string>, m: map<string, string>, q: seq<string>,
      n: map<string, string>)
    requires forall k :: k in p ==> k in m
    requires forall k :: k in q ==> k in n
    requires ModuleFields(p, m) == ModuleFields(q, n)
    ensures p == q && forall k :: k in p ==> m[k] == n[k]
  {
    if p != [] && q != [] {
      var a, b := ModuleFields(p, m), ModuleFields(q, n);
      assert a[0] == b[0] && a[1] == b[1];
      EncodeInjective(p[0], q[0]);
      EncodeInjective(m[p[0]], n[q[0]]);
      assert a[2..] == ModuleFields(p[1..], m) && b[2..] == ModuleFields(q[1..], n);
      ModuleFieldsInjective(p[1..], m, q[1..], n);
      assert p == [p[0]] + p[1..] && q == [q[0]] + q[1..];
    }
  }

  lemma EncodedInjective(a: seq<string>, b: seq<string>)
    requires Encoded(a) == Encoded(b)
    ensures a == b
  {
    assert |a| == |Encoded(a)| == |b|;
    forall k | 0 <= k < |a| ensures a[k] == b[k] {
      assert Encoded(a)[k] == Encoded(b)[k];
      EncodeInjective(a[k], b[k]);
    }
  }

  lemma HeadFieldsInjective(a: Manifest, b: Manifest)
    requires a.abiVersion < Bound(4) && b.abiVersion < Bound(4)
    requires HeadFields(a) == HeadFields(b)
    ensures a == b
  {
    var x, y := HeadFields(a), HeadFields(b);
    assert x[0] == y[0] && x[1] == y[1];
    LittleEndianInjective(a.abiVersion, b.abiVersion, 4);
    EncodeInjective(a.entrypoint, b.entrypoint);
    assert Encoded(a.capabilities) == x[2..] && Encoded(b.capabilities) == y[2..];
    EncodedInjective(a.capabilities, b.capabilities);
  }

  /** Equal fields with equally many capabilities come from one bundle. */
  lemma FieldsInjective(a: Bundle, b: Bundle)
    requires a.manifest.abiVersion < Bound(4) && b.manifest.abiVersion < Bound(4)
    requires |a.manifest.capabilities| == |b.manifest.capabilities|
    requires Fields(a) == Fields(b)
    ensures a == b
  {
    var n := |HeadFields(a.manifest)|;
    assert HeadFields(a.manifest) == Fields(a)[..n] && HeadFields(b.manifest) == Fields(b)[..n];
    HeadFieldsInjective(a.manifest, b.manifest);
    var p, q := InOrder(a.modules.Keys), InOrder(b.modules.Keys);
    assert ModuleFields(p, a.modules) == Fields(a)[n..] && ModuleFields(q, b.modules) == Fields(b)[n..];
    ModuleFieldsInjective(p, a.modules, q, b.modules);
    assert a.modules == b.modules;
  }

  /**
   The stream identifies a bundle exactly among bundles with the same number of capabilities:
   two bundles with one stream are the same bundle if and only if those numbers agree.
   */
  lemma StreamIdentifiesExactly(a: Bundle, b: Bundle)
    requires a.manifest.abiVersion < Bound(4) && b.manifest.abiVersion < Bound(4)
    requires Framable(Fields(a)) && Framable(Fields(b))
    requires Stream(a) == Stream(b)
    ensures a == b <==> |a.manifest.capabilities| == |b.manifest.capabilities|
  {
    FramesInjective(Fields(a), Fields(b));
    if |a.manifest.capabilities| == |b.manifest.capabilities| {
      FieldsInjective(a, b);
    }
  }

  /** The identity does not depend on the order in which capabilities and source records are supplied. */
  lemma StreamOrderFree(
    entrypoint: string, names: seq<string>, sameNames: seq<string>, sources: seq<Source>, sameSources: seq<Source>)
    requires multiset(names) == multiset(sameNames) && multiset(sources) == multiset(sameSources)
    requires NewManifest(ABI_VERSION, entrypoint, names).Ok?
    requires Built(NewManifest(ABI_VERSION, entrypoint, names).value, sources).Ok?
    ensures
      var manifest := NewManifest(ABI_VERSION, entrypoint, sameNames);
      && manifest.Ok? && Built(manifest.value, sameSources).Ok?
      && Stream(Built(manifest.value, sameSources).value)
         == Stream(Built(NewManifest(ABI_VERSION, entrypoint, names).value, sources).value)
  {
    ManifestOrderFree(ABI_VERSION, entrypoint, names, sameNames);
    BuiltOrderFree(NewManifest(ABI_VERSION, entrypoint, names).value, sources, sameSources);
  }

  // ----- Two different valid bundles with one stream

  const DECLARING := Bundle(Manifest(ABI_VERSION, "m", ["a", "b"]), map["m" := ""])

  const CONTAINING := Bundle(Manifest(ABI_VERSION, "m", []), map["a" := "b", "m" := ""])

  lemma ShortNameIsCanonical(name: string)
    requires |name| == 1 && 'a' <= name[0] <= 'z'
    ensures Canonical(name)
  {
    assert Join([name]) == name;
    assert IsName(name);
  }

  lemma DeclaringIsBuilt()
    ensures NewManifest(ABI_VERSION, "m", ["a", "b"]) == Ok(DECLARING.manifest)
    ensures Built(DECLARING.manifest, [Source("m", "")]) == Ok(DECLARING)
  {
    ShortNameIsCanonical("m");
    NewPathExactly("m");
    ManifestExactly(ABI_VERSION, "m", ["a", "b"]);
    var built := NewManifest(ABI_VERSION, "m", ["a", "b"]).value.capabilities;
    Rearranged(built, ["a", "b"]);
    assert Less("a", "b");
    SortedUnique(built, ["a", "b"]);
    BuiltExactly(DECLARING.manifest, [Source("m", "")]);
    assert Source("m", "") in [Source("m", "")];
    assert Built(DECLARING.manifest, [Source("m", "")]).value.modules == DECLARING.modules;
  }

  lemma ContainingIsBuilt()
    ensures NewManifest(ABI_VERSION, "m", []) == Ok(CONTAINING.manifest)
    ensures Built(CONTAINING.manifest, [Source("a", "b"), Source("m", "")]) == Ok(CONTAINING)
  {
    ShortNameIsCanonical("a");
    ShortNameIsCanonical("m");
    NewPathExactly("m");
    assert Sort([]) == [];
    var sources := [Source("a", "b"), Source("m", "")];
    BuiltExactly(CONTAINING.manifest, sources);
    assert sources[0] in sources && sources[1] in sources;
    assert Built(CONTAINING.manifest, sources).value.modules == CONTAINING.modules;
  }

  lemma SameFields()
    ensures Fields(DECLARING) == Fields(CONTAINING)
  {
    assert DECLARING.modules.Keys == {"m"} && CONTAINING.modules.Keys == {"a", "m"};
    OneInOrder("m");
    TwoInOrder("a", "m");
    assert ["m"][1..] == [] && ["a", "m"][1..] == ["m"];
    assert Encoded(["a", "b"]) == [Encode("a"), Encode("b")] && Encoded([]) == [];
  }

  lemma OneInOrder(a: string)
    ensures InOrder({a}) == [a]
  {
    assert Elements([a]) == Elements(InOrder({a}));
    SortedUnique(InOrder({a}), [a]);
  }

  lemma TwoInOrder(a: string, b: string)
    requires Less(a, b)
    ensures InOrder({a, b}) == [a, b]
  {
    assert Elements([a, b]) == Elements(InOrder({a, b}));
    SortedUnique(InOrder({a, b}), [a, b]);
  }

  /** Two declared capabilities look like one module's path and source, because nothing is counted. */
  lemma CapabilitiesCanPoseAsModule()
    ensures exists names, sources ::
      NewManifest(ABI_VERSION, "m", names) == Ok(DECLARING.manifest)
        && Built(DECLARING.manifest, sources) == Ok(DECLARING)
    ensures exists names, sources ::
      NewManifest(ABI_VERSION, "m", names) == Ok(CONTAINING.manifest)
        && Built(CONTAINING.manifest, sources) == Ok(CONTAINING)
    ensures Stream(DECLARING) == Stream(CONTAINING) && DECLARING != CONTAINING
  {
    DeclaringIsBuilt();
    ContainingIsBuilt();
    SameFields();
    assert |DECLARING.manifest.capabilities| != |CONTAINING.manifest.capabilities|;
  }
}
