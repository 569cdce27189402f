/**
 The validator for tool arguments: which schemas it supports, what satisfying a schema means, and
 the recursive procedures that push failures into one shared list.

 The applicators are those of sections 10.2.1 and 10.3.2 of JSON Schema Core, draft 2020-12. The
 type `integer` is stricter than section 6.1.1 of JSON Schema Validation: it accepts integer number
 forms only, not floats with a zero fraction. `const`, `enum` and `uniqueItems` compare number forms as
 well, so 1 and 1.0 differ; `EqualExactly` relates that to the instance equality of the standard.
 */
module Schema {
  import opened Binary64
  import opened Json
  import opened Wrappers

  // ----- Supported schemas

  const KEYWORDS: set<string> := {
    "$comment", "$id", "$schema", "additionalProperties", "allOf", "anyOf", "const", "default", "deprecated",
    "description", "enum", "examples", "exclusiveMaximum", "exclusiveMinimum", "items", "maxItems", "maxLength",
    "maximum", "minItems", "minLength", "minimum", "not", "oneOf", "properties", "required", "title", "type",
    "uniqueItems"
  }

  predicate SupportedType(name: string) {
    name in {"null", "boolean", "integer", "number", "string", "array", "object"}
  }

  predicate TypeKeywordOk(value: Json) {
    match value
    case Str(name) => SupportedType(name)
    case Arr(names) => names != [] && forall n :: n in names ==> n.Str? && SupportedType(n.text)
    case _ => false
  }

  predicate RequiredOk(value: Json) {
    && value.Arr?
    && (forall n :: n in value.items ==> n.Str?)
    && forall i, j :: 0 <= i < j < |value.items| ==> value.items[i] != value.items[j]
  }

  predicate CountOk(value: Json) { value.Num? && value.number.Unsigned? }

  const COUNTS: set<string> := {"minItems", "maxItems", "minLength", "maxLength"}
  const BOUNDS: set<string> := {"minimum", "maximum", "exclusiveMinimum", "exclusiveMaximum"}

  /** Every schema in every position where a schema is expected is supported as well. */
  ghost predicate Supported(schema: Json)
    decreases schema, 2
  {
    && schema.Obj?
    && (forall k :: k in schema.fields ==> k in KEYWORDS)
    && ("type" in schema.fields ==> TypeKeywordOk(schema.fields["type"]))
    && PropertiesSupported(schema)
    && ("required" in schema.fields ==> RequiredOk(schema.fields["required"]))
    && SubschemasSupported(schema)
    && FormsSupported(schema.fields)
  }

  ghost predicate PropertiesSupported(schema: Json)
    requires schema.Obj?
    decreases schema, 1
  {
    var o := schema.fields;
    "properties" in o ==>
      o["properties"].Obj? && forall p :: p in o["properties"].fields ==> Supported(o["properties"].fields[p])
  }

  ghost predicate SubschemasSupported(schema: Json)
    requires schema.Obj?
    decreases schema, 1
  {
    var o := schema.fields;
    && ("additionalProperties" in o ==> o["additionalProperties"].Bool? || Supported(o["additionalProperties"]))
    && ("items" in o ==> Supported(o["items"]))
    && BranchesSupported(schema, "allOf")
    && BranchesSupported(schema, "anyOf")
    && BranchesSupported(schema, "oneOf")
    && ("not" in o ==> Supported(o["not"]))
  }

  ghost predicate BranchesSupported(schema: Json, keyword: string)
    requires schema.Obj?
    decreases schema, 0
  {
    var o := schema.fields;
    keyword in o ==> o[keyword].Arr? && forall s :: s in o[keyword].items ==> Supported(s)
  }

  predicate FormsSupported(o: map<string, Json>) {
    && ("enum" in o ==> o["enum"].Arr?)
    && (forall k :: k in COUNTS && k in o ==> CountOk(o[k]))
    && (forall k :: k in BOUNDS && k in o ==> o[k].Num?)
    && ("uniqueItems" in o ==> o["uniqueItems"].Bool?)
  }

  // ----- Satisfaction

  predicate TypeMatches(name: string, value: Json) {
    match name
    case "null" => value.Null?
    case "boolean" => value.Bool?
    case "integer" => value.Num? && !value.number.Float?
    case "number" => value.Num?
    case "string" => value.Str?
    case "array" => value.Arr?
    case "object" => value.Obj?
    case _ => false
  }

  predicate HasType(types: Json, value: Json) {
    match types
    case Str(name) => TypeMatches(name, value)
    case Arr(names) => exists n :: n in names && n.Str? && TypeMatches(n.text, value)
    case _ => false
  }

  predicate AtLeast(o: map<string, Json>, keyword: string, count: nat) {
    keyword in o && CountOk(o[keyword]) ==> count >= o[keyword].number.magnitude
  }

  predicate AtMost(o: map<string, Json>, keyword: string, count: nat) {
    keyword in o && CountOk(o[keyword]) ==> count <= o[keyword].number.magnitude
  }

  predicate MeetsBound(o: map<string, Json>, keyword: string, x: real) {
    keyword in o && o[keyword].Num? ==>
      var bound := AsReal(o[keyword].number);
      match keyword
      case "minimum" => x >= bound
      case "maximum" => x <= bound
      case "exclusiveMinimum" => x > bound
      case "exclusiveMaximum" => x < bound
      case _ => true
  }

  predicate MeetsBounds(o: map<string, Json>, keywords: seq<string>, x: real) {
    forall k :: k in keywords ==> MeetsBound(o, k, x)
  }

  predicate InRange(o: map<string, Json>, x: real) {
    && MeetsBound(o, "minimum", x)
    && MeetsBound(o, "maximum", x)
    && MeetsBound(o, "exclusiveMinimum", x)
    && MeetsBound(o, "exclusiveMaximum", x)
  }

  predicate Unique(items: seq<Json>) {
    forall i, j :: 0 <= i < j < |items| ==> items[i] != items[j]
  }

  predicate IsProperty(o: map<string, Json>, name: string) {
    "properties" in o && o["properties"].Obj? && name in o["properties"].fields
  }

  /** The value satisfies the schema. */
  ghost predicate Satisfies(schema: Json, value: Json)
    decreases schema, 3
  {
    && schema.Obj?
    && ("type" in schema.fields ==> HasType(schema.fields["type"], value))
    && SatisfiesConstants(schema, value)
    && SatisfiesApplicators(schema, value)
    && SatisfiesKind(schema, value)
  }

  predicate SatisfiesConstants(schema: Json, value: Json)
    requires schema.Obj?
  {
    var o := schema.fields;
    && ("enum" in o && o["enum"].Arr? ==> value in o["enum"].items)
    && ("const" in o ==> value == o["const"])
  }

  ghost predicate SatisfiesApplicators(schema: Json, value: Json)
    requires schema.Obj?
    decreases schema, 2
  {
    && AllOf(schema, value)
    && AnyOf(schema, value)
    && OneOf(schema, value)
    && ("not" in schema.fields ==> !Satisfies(schema.fields["not"], value))
  }

  ghost predicate AllOf(schema: Json, value: Json)
    requires schema.Obj?
    decreases schema, 1
  {
    var o := schema.fields;
    "allOf" in o && o["allOf"].Arr? ==> forall s :: s in o["allOf"].items ==> Satisfies(s, value)
  }

  ghost predicate EachSatisfied(schemas: seq<Json>, value: Json) {
    forall s :: s in schemas ==> Satisfies(s, value)
  }

  ghost predicate AnyOf(schema: Json, value: Json)
    requires schema.Obj?
    decreases schema, 1
  {
    var o := schema.fields;
    "anyOf" in o && o["anyOf"].Arr? ==> exists s :: s in o["anyOf"].items && Satisfies(s, value)
  }

  ghost predicate OneOf(schema: Json, value: Json)
    requires schema.Obj?
    decreases schema, 1
  {
    var o := schema.fields;
    "oneOf" in o && o["oneOf"].Arr? ==>
      var schemas := o["oneOf"].items;
      exists i :: 0 <= i < |schemas| && Satisfies(schemas[i], value) &&
        forall j :: 0 <= j < |schemas| && Satisfies(schemas[j], value) ==> j == i
  }

  /** What the schema asks of a value because of the kind of value it is. */
  ghost predicate SatisfiesKind(schema: Json, value: Json)
    requires schema.Obj?
    decreases schema, 2
  {
    var o := schema.fields;
    match value
    case Obj(fields) => ObjectSatisfies(schema, fields)
    case Arr(items) => ArraySatisfies(schema, items)
    case Str(text) => AtLeast(o, "minLength", |text|) && AtMost(o, "maxLength", |text|)
    case Num(number) => InRange(o, AsReal(number))
    case _ => true
  }

  /** Required properties are present; each property satisfies its own schema, or else the additional one. */
  ghost predicate ObjectSatisfies(schema: Json, fields: map<string, Json>)
    requires schema.Obj?
    decreases schema, 1
  {
    && HasRequired(schema.fields, fields)
    && PropertiesSatisfy(schema, fields)
    && AdditionalSatisfy(schema, fields, fields.Keys)
  }

  predicate HasRequired(o: map<string, Json>, fields: map<string, Json>) {
    "required" in o && o["required"].Arr? ==> Present(o["required"].items, fields)
  }

  predicate Present(names: seq<Json>, fields: map<string, Json>) {
    forall n :: n in names && n.Str? ==> n.text in fields
  }

  ghost predicate PropertiesSatisfy(schema: Json, fields: map<string, Json>)
    requires schema.Obj?
    decreases schema, 0
  {
    var o := schema.fields;
    "properties" in o && o["properties"].Obj? ==>
      forall name :: name in o["properties"].fields && name in fields ==>
        Satisfies(o["properties"].fields[name], fields[name])
  }

  ghost predicate AdditionalSatisfy(schema: Json, fields: map<string, Json>, names: set<string>)
    requires schema.Obj? && names <= fields.Keys
    decreases schema, 0, 1
  {
    forall name :: name in names ==> AdditionalSatisfies(schema, name, fields[name])
  }

  ghost predicate AdditionalSatisfies(schema: Json, name: string, value: Json)
    requires schema.Obj?
    decreases schema, 0, 0
  {
    var o := schema.fields;
    !IsProperty(o, name) && "additionalProperties" in o ==>
      && o["additionalProperties"] != Bool(false)
      && (o["additionalProperties"].Obj? ==> Satisfies(o["additionalProperties"], value))
  }

  ghost predicate ArraySatisfies(schema: Json, items: seq<Json>)
    requires schema.Obj?
    decreases schema, 1
  {
    var o := schema.fields;
    && ItemsSatisfy(schema, items)
    && ("uniqueItems" in o && o["uniqueItems"] == Bool(true) ==> Unique(items))
    && AtLeast(o, "minItems", |items|) && AtMost(o, "maxItems", |items|)
  }

  ghost predicate ItemsSatisfy(schema: Json, items: seq<Json>)
    requires schema.Obj?
    decreases schema, 0
  {
    "items" in schema.fields ==> forall item :: item in items ==> Satisfies(schema.fields["items"], item)
  }

  ghost predicate EachSatisfies(schema: Json, items: seq<Json>) {
    forall item :: item in items ==> Satisfies(schema, item)
  }

  /** The properties in `names` that the object has satisfy their schemas. */
  ghost predicate TheseSatisfy(properties: map<string, Json>, names: set<string>, fields: map<string, Json>)
    requires names <= properties.Keys
  {
    forall name :: name in names && name in fields ==> Satisfies(properties[name], fields[name])
  }

  // ----- The shared failure list

  datatype Problem =
    | MustBeOfType(types: Json)
    | NotEnumerated
    | NotConstant
    | MatchesNone
    | NotExactlyOne
    | MatchesForbidden
    | MissingProperty(name: string)
    | AdditionalProperty
    | DuplicateItems
    | CountBelow(bound: nat)
    | CountAbove(bound: nat)
    | OutOfBound(keyword: string, limit: real)

  datatype Failure = Failure(path: string, problem: Problem)

  function ChildPath(path: string, child: string): string {
    if path == "" then child else path + "." + child
  }

  function DisplayPath(path: string): string {
    if path == "" then "root" else path
  }

  /** An index as the path shows it. */
  function Decimal(n: nat): string {
    if n < 10 then [(n as char) + '0'] else Decimal(n / 10) + [((n % 10) as char) + '0']
  }

  class Failures {
    var list: seq<Failure>

    constructor ()
      ensures list == []
    {
      list := [];
    }
  }

  /** A failure found below `path` is reported there or deeper. */
  predicate Within(path: string, reported: string) {
    path == "" || reported == path || path + "." <= reported
  }

  /** A check appended to the list, all below `path`, and appended nothing exactly if the check passed. */
  ghost predicate Appended(before: seq<Failure>, after: seq<Failure>, path: string, passed: bool) {
    && before <= after
    && (after == before <==> passed)
    && forall f :: f in after[|before|..] ==> Within(path, f.path)
  }

  lemma AppendedBoth(a: seq<Failure>, b: seq<Failure>, c: seq<Failure>, path: string, first: bool, second: bool)
    requires Appended(a, b, path, first) && Appended(b, c, path, second)
    ensures Appended(a, c, path, first && second)
  {
    assert c[|a|..] == b[|a|..] + c[|b|..];
  }

  lemma AppendedBelow(a: seq<Failure>, b: seq<Failure>, path: string, child: string, passed: bool)
    requires Appended(a, b, ChildPath(path, child), passed)
    ensures Appended(a, b, path, passed)
  {
    if path != "" {
      forall f | f in b[|a|..] ensures Within(path, f.path) {
        assert Within(path + "." + child, f.path);
        assert path + "." <= path + "." + child;
      }
    }
  }

  /** Pushes one failure at `path` unless the check passed. */
  method Report(errors: Failures, path: string, problem: Problem, passed: bool)
    modifies errors
    ensures Appended(old(errors.list), errors.list, path, passed)
    ensures !passed ==> errors.list == old(errors.list) + [Failure(DisplayPath(path), problem)]
  {
    if !passed {
      errors.list := errors.list + [Failure(DisplayPath(path), problem)];
    }
  }

  // ----- Validation of values

  /** Appends nothing exactly if the value satisfies the schema, whatever the path and the earlier failures. */
  method ValidateValue(schema: Json, value: Json, path: string, errors: Failures)
    requires Supported(schema)
    modifies errors
    ensures Appended(old(errors.list), errors.list, path, Satisfies(schema, value))
    decreases schema, 2
  {
    var o := schema.fields;
    if "type" in o && !HasType(o["type"], value) {
      Report(errors, path, MustBeOfType(o["type"]), false);
      return;
    }
    ghost var start := errors.list;
    ValidateConstants(schema, value, path, errors);
    ghost var constants := errors.list;
    ValidateApplicators(schema, value, path, errors);
    ghost var applied := errors.list;
    AppendedBoth(start, constants, applied, path, SatisfiesConstants(schema, value),
      SatisfiesApplicators(schema, value));
    ValidateKind(schema, value, path, errors);
    AppendedBoth(start, applied, errors.list, path,
      SatisfiesConstants(schema, value) && SatisfiesApplicators(schema, value), SatisfiesKind(schema, value));
  }

  method ValidateConstants(schema: Json, value: Json, path: string, errors: Failures)
    requires Supported(schema)
    modifies errors
    ensures Appended(old(errors.list), errors.list, path, SatisfiesConstants(schema, value))
  {
    var o := schema.fields;
    ghost var start := errors.list;
    var enumerated := "enum" in o && o["enum"].Arr? ==> value in o["enum"].items;
    Report(errors, path, NotEnumerated, enumerated);
    ghost var first := errors.list;
    var constant := "const" in o ==> value == o["const"];
    Report(errors, path, NotConstant, constant);
    AppendedBoth(start, first, errors.list, path, enumerated, constant);
  }

  method ValidateApplicators(schema: Json, value: Json, path: string, errors: Failures)
    requires Supported(schema)
    modifies errors
    ensures Appended(old(errors.list), errors.list, path, SatisfiesApplicators(schema, value))
    decreases schema, 1
  {
    ghost var start := errors.list;
    ValidateAllOf(schema, value, path, errors);
    ghost var all := errors.list;
    var any := MatchesAny(schema, value);
    Report(errors, path, MatchesNone, any);
    AppendedBoth(start, all, errors.list, path, AllOf(schema, value), any);
    ghost var anyOf := errors.list;
    var one := MatchesOne(schema, value);
    Report(errors, path, NotExactlyOne, one);
    AppendedBoth(start, anyOf, errors.list, path, AllOf(schema, value) && any, one);
    ghost var oneOf := errors.list;
    var forbidden := false;
    if "not" in schema.fields {
      forbidden := IsValid(schema.fields["not"], value);
    }
    Report(errors, path, MatchesForbidden, !forbidden);
    AppendedBoth(start, oneOf, errors.list, path, AllOf(schema, value) && any && one, !forbidden);
  }

  method ValidateAllOf(schema: Json, value: Json, path: string, errors: Failures)
    requires Supported(schema)
    modifies errors
    ensures Appended(old(errors.list), errors.list, path, AllOf(schema, value))
    decreases schema, 0
  {
    var o := schema.fields;
    if "allOf" in o && o["allOf"].Arr? {
      var schemas := o["allOf"].items;
      assert forall s :: s in schemas ==> Supported(s) by {
        assert BranchesSupported(schema, "allOf");
      }
      ghost var start := errors.list;
      var i := 0;
      while i < |schemas|
        invariant 0 <= i <= |schemas|
        invariant Appended(start, errors.list, path, EachSatisfied(schemas[..i], value))
      {
        ghost var before := errors.list;
        ValidateValue(schemas[i], value, path, errors);
        AppendedBoth(start, before, errors.list, path, EachSatisfied(schemas[..i], value),
          Satisfies(schemas[i], value));
        assert schemas[..i + 1] == schemas[..i] + [schemas[i]];
        i := i + 1;
      }
      assert schemas[..i] == schemas;
    }
  }

  method MatchesAny(schema: Json, value: Json) returns (matched: bool)
    requires Supported(schema)
    ensures matched <==> AnyOf(schema, value)
    decreases schema, 0
  {
    var o := schema.fields;
    if !("anyOf" in o && o["anyOf"].Arr?) {
      return true;
    }
    var schemas := o["anyOf"].items;
    assert BranchesSupported(schema, "anyOf");
    for i := 0 to |schemas|
      invariant forall j :: 0 <= j < i ==> !Satisfies(schemas[j], value)
    {
      var valid := IsValid(schemas[i], value);
      if valid {
        return true;
      }
    }
    return false;
  }

  /** Counts the matching branches; exactly one has to match. */
  method MatchesOne(schema: Json, value: Json) returns (matched: bool)
    requires Supported(schema)
    ensures matched <==> OneOf(schema, value)
    decreases schema, 0
  {
    var o := schema.fields;
    if !("oneOf" in o && o["oneOf"].Arr?) {
      return true;
    }
    var schemas := o["oneOf"].items;
    assert BranchesSupported(schema, "oneOf");
    var matches := 0;
    ghost var at := 0;
    ghost var other := 0;
    for i := 0 to |schemas|
      invariant 0 <= matches
      invariant matches == 0 ==> forall j :: 0 <= j < i ==> !Satisfies(schemas[j], value)
      invariant matches == 1 ==> 0 <= at < i && Satisfies(schemas[at], value)
      invariant matches == 1 ==> forall j :: 0 <= j < i && Satisfies(schemas[j], value) ==> j == at
      invariant matches > 1 ==> 0 <= at < i && 0 <= other < i && at != other
      invariant matches > 1 ==> Satisfies(schemas[at], value) && Satisfies(schemas[other], value)
    {
      var valid := IsValid(schemas[i], value);
      if valid {
        if matches == 0 { at := i; } else if matches == 1 { other := i; }
        matches := matches + 1;
      }
    }
    return matches == 1;
  }

  /** Validates into a list of its own. */
  method IsValid(schema: Json, value: Json) returns (valid: bool)
    requires Supported(schema)
    ensures valid <==> Satisfies(schema, value)
    decreases schema, 3
  {
    var errors := new Failures();
    ValidateValue(schema, value, "", errors);
    return errors.list == [];
  }

  method ValidateKind(schema: Json, value: Json, path: string, errors: Failures)
    requires Supported(schema)
    modifies errors
    ensures Appended(old(errors.list), errors.list, path, SatisfiesKind(schema, value))
    decreases schema, 1
  {
    match value
    case Obj(fields) => ValidateObject(schema, fields, path, errors);
    case Arr(items) => ValidateArray(schema, items, path, errors);
    case Str(text) => CheckCounts(schema.fields, "minLength", "maxLength", |text|, path, errors);
    case Num(number) => ValidateNumber(schema.fields, AsReal(number), path, errors);
    case _ =>
  }

  method ValidateObject(schema: Json, fields: map<string, Json>, path: string, errors: Failures)
    requires Supported(schema)
    modifies errors
    ensures Appended(old(errors.list), errors.list, path, ObjectSatisfies(schema, fields))
    decreases schema, 0, 1
  {
    ghost var start := errors.list;
    CheckRequired(schema.fields, fields, path, errors);
    ghost var required := errors.list;
    ValidateProperties(schema, fields, path, errors);
    ghost var properties := errors.list;
    AppendedBoth(start, required, properties, path, HasRequired(schema.fields, fields),
      PropertiesSatisfy(schema, fields));
    ValidateAdditional(schema, fields, path, errors);
    AppendedBoth(start, properties, errors.list, path,
      HasRequired(schema.fields, fields) && PropertiesSatisfy(schema, fields),
      AdditionalSatisfy(schema, fields, fields.Keys));
  }

  method CheckRequired(o: map<string, Json>, fields: map<string, Json>, path: string, errors: Failures)
    modifies errors
    ensures Appended(old(errors.list), errors.list, path, HasRequired(o, fields))
  {
    if "required" in o && o["required"].Arr? {
      var names := o["required"].items;
      ghost var start := errors.list;
      var i := 0;
      while i < |names|
        invariant 0 <= i <= |names|
        invariant Appended(start, errors.list, path, Present(names[..i], fields))
      {
        if names[i].Str? {
          ghost var before := errors.list;
          var passed := names[i].text in fields;
          Report(errors, ChildPath(path, names[i].text), MissingProperty(names[i].text), passed);
          AppendedBelow(before, errors.list, path, names[i].text, passed);
          AppendedBoth(start, before, errors.list, path, Present(names[..i], fields), passed);
        }
        assert names[..i + 1] == names[..i] + [names[i]];
        i := i + 1;
      }
      assert names[..i] == names;
    }
  }

  method ValidateProperties(schema: Json, fields: map<string, Json>, path: string, errors: Failures)
    requires Supported(schema)
    modifies errors
    ensures Appended(old(errors.list), errors.list, path, PropertiesSatisfy(schema, fields))
    decreases schema, 0, 0
  {
    var o := schema.fields;
    if "properties" in o && o["properties"].Obj? {
      var properties := o["properties"].fields;
      ghost var start := errors.list;
      var rest := properties.Keys;
      while rest != {}
        invariant rest <= properties.Keys
        invariant Appended(start, errors.list, path, TheseSatisfy(properties, properties.Keys - rest, fields))
        decreases |rest|
      {
        var name :| name in rest;
        ghost var done := properties.Keys - rest;
        if name in fields {
          ghost var before := errors.list;
          ValidateValue(properties[name], fields[name], ChildPath(path, name), errors);
          AppendedBelow(before, errors.list, path, name, Satisfies(properties[name], fields[name]));
          AppendedBoth(start, before, errors.list, path,
            TheseSatisfy(properties, done, fields), Satisfies(properties[name], fields[name]));
        }
        rest := rest - {name};
        assert properties.Keys - rest == done + {name};
      }
      assert properties.Keys - rest == properties.Keys;
    }
  }

  /** Properties without a schema of their own meet the additional one. */
  method ValidateAdditional(schema: Json, fields: map<string, Json>, path: string, errors: Failures)
    requires Supported(schema)
    modifies errors
    ensures Appended(old(errors.list), errors.list, path, AdditionalSatisfy(schema, fields, fields.Keys))
    decreases schema, 0, 0
  {
    var o := schema.fields;
    ghost var start := errors.list;
    var rest := fields.Keys;
    while rest != {}
      invariant rest <= fields.Keys
      invariant Appended(start, errors.list, path, AdditionalSatisfy(schema, fields, fields.Keys - rest))
      decreases |rest|
    {
      var name :| name in rest;
      ghost var done := fields.Keys - rest;
      ghost var before := errors.list;
      if !IsProperty(o, name) && "additionalProperties" in o {
        match o["additionalProperties"]
        case Bool(false) =>
          Report(errors, ChildPath(path, name), AdditionalProperty, false);
        case Obj(_) =>
          ValidateValue(o["additionalProperties"], fields[name], ChildPath(path, name), errors);
        case _ =>
      }
      AppendedBelow(before, errors.list, path, name, AdditionalSatisfies(schema, name, fields[name]));
      AppendedBoth(start, before, errors.list, path,
        AdditionalSatisfy(schema, fields, done), AdditionalSatisfies(schema, name, fields[name]));
      rest := rest - {name};
      assert fields.Keys - rest == done + {name};
    }
    assert fields.Keys - rest == fields.Keys;
  }

  method ValidateArray(schema: Json, items: seq<Json>, path: string, errors: Failures)
    requires Supported(schema)
    modifies errors
    ensures Appended(old(errors.list), errors.list, path, ArraySatisfies(schema, items))
    decreases schema, 0, 1
  {
    var o := schema.fields;
    ghost var start := errors.list;
    ValidateItems(schema, items, path, errors);
    ghost var each := errors.list;
    var passed := true;
    if "uniqueItems" in o && o["uniqueItems"] == Bool(true) {
      passed := IsUnique(items);
    }
    Report(errors, path, DuplicateItems, passed);
    AppendedBoth(start, each, errors.list, path, ItemsSatisfy(schema, items), passed);
    ghost var unique := errors.list;
    CheckCounts(o, "minItems", "maxItems", |items|, path, errors);
    AppendedBoth(start, unique, errors.list, path, ItemsSatisfy(schema, items) && passed,
      AtLeast(o, "minItems", |items|) && AtMost(o, "maxItems", |items|));
  }

  method ValidateItems(schema: Json, items: seq<Json>, path: string, errors: Failures)
    requires Supported(schema)
    modifies errors
    ensures Appended(old(errors.list), errors.list, path, ItemsSatisfy(schema, items))
    decreases schema, 0, 0
  {
    var o := schema.fields;
    if "items" in o {
      ghost var start := errors.list;
      var i := 0;
      while i < |items|
        invariant 0 <= i <= |items|
        invariant Appended(start, errors.list, path, EachSatisfies(o["items"], items[..i]))
      {
        ghost var before := errors.list;
        ValidateValue(o["items"], items[i], ChildPath(path, Decimal(i)), errors);
        AppendedBelow(before, errors.list, path, Decimal(i), Satisfies(o["items"], items[i]));
        AppendedBoth(start, before, errors.list, path, EachSatisfies(o["items"], items[..i]),
          Satisfies(o["items"], items[i]));
        assert items[..i + 1] == items[..i] + [items[i]];
        i := i + 1;
      }
      assert items[..i] == items;
    }
  }

  /** Looks each item up among the earlier ones. */
  method IsUnique(items: seq<Json>) returns (unique: bool)
    ensures unique <==> Unique(items)
  {
    for i := 0 to |items|
      invariant Unique(items[..i])
    {
      if items[i] in items[..i] {
        return false;
      }
      assert items[..i + 1] == items[..i] + [items[i]];
    }
    assert items[..|items|] == items;
    return true;
  }

  method CheckCounts(o: map<string, Json>, least: string, most: string, count: nat, path: string, errors: Failures)
    modifies errors
    ensures Appended(old(errors.list), errors.list, path, AtLeast(o, least, count) && AtMost(o, most, count))
  {
    ghost var start := errors.list;
    if least in o && CountOk(o[least]) {
      Report(errors, path, CountBelow(o[least].number.magnitude), count >= o[least].number.magnitude);
    }
    ghost var lower := errors.list;
    if most in o && CountOk(o[most]) {
      Report(errors, path, CountAbove(o[most].number.magnitude), count <= o[most].number.magnitude);
    }
    AppendedBoth(start, lower, errors.list, path, AtLeast(o, least, count), AtMost(o, most, count));
  }

  method ValidateNumber(o: map<string, Json>, x: real, path: string, errors: Failures)
    modifies errors
    ensures Appended(old(errors.list), errors.list, path, InRange(o, x))
  {
    var keywords := ["minimum", "maximum", "exclusiveMinimum", "exclusiveMaximum"];
    ghost var start := errors.list;
    var i := 0;
    while i < |keywords|
      invariant 0 <= i <= |keywords|
      invariant Appended(start, errors.list, path, MeetsBounds(o, keywords[..i], x))
    {
      var keyword := keywords[i];
      ghost var before := errors.list;
      if keyword in o && o[keyword].Num? {
        Report(errors, path, OutOfBound(keyword, AsReal(o[keyword].number)), MeetsBound(o, keyword, x));
      }
      AppendedBoth(start, before, errors.list, path, MeetsBounds(o, keywords[..i], x), MeetsBound(o, keyword, x));
      assert keywords[..i + 1] == keywords[..i] + [keyword];
      i := i + 1;
    }
    assert keywords[..i] == keywords;
  }

  /** The integer a number stands for, if it has an integer form. */
  function IntegerOf(number: Number): int
    requires !number.Float?
  {
    if number.Signed? then number.value else number.magnitude
  }

  /**
   Bounds of integers hold exactly as for the integers themselves, but for a number and a bound that differ and round
   to one binary floating point number: inclusive bounds then accept, exclusive ones reject.
   */
  lemma IntegerBoundsExactly(number: Number, bound: Number)
    requires !number.Float? && !bound.Float?
    ensures
      var (n, b, x) := (IntegerOf(number), IntegerOf(bound), AsReal(number));
      var same := Rounded(n) == Rounded(b);
      && (MeetsBound(map["minimum" := Num(bound)], "minimum", x) <==> n >= b || same)
      && (MeetsBound(map["maximum" := Num(bound)], "maximum", x) <==> n <= b || same)
      && (MeetsBound(map["exclusiveMinimum" := Num(bound)], "exclusiveMinimum", x) <==> n > b && !same)
      && (MeetsBound(map["exclusiveMaximum" := Num(bound)], "exclusiveMaximum", x) <==> n < b && !same)
  {
    RoundedOrder(IntegerOf(number), IntegerOf(bound));
    RoundedOrder(IntegerOf(bound), IntegerOf(number));
  }

  /** Up to 53 bits no two integers round to one number; just above, two do. */
  lemma BoundsBlurAbove53Bits()
    ensures forall n: int, m: int :: Abs(n) <= TWO_53 && Abs(m) <= TWO_53 && Rounded(n) == Rounded(m) ==> n == m
    ensures Rounded(TWO_53 + 1) == Rounded(TWO_53)
  {
    forall n: int, m: int | Abs(n) <= TWO_53 && Abs(m) <= TWO_53 && Rounded(n) == Rounded(m) ensures n == m {
      RoundedExact(n);
      RoundedExact(m);
    }
    assert Step(TWO_53 / 2) == 1 && Step(TWO_53) == 2 && Step(TWO_53 + 1) == 2;
  }

  // ----- Validation of schemas

  datatype SchemaError =
    | NotAnObject
    | UnsupportedKeyword(keyword: string)
    | UnsupportedType
    | Malformed(keyword: string)
    | DuplicateRequired(name: string)
    | InProperty(name: string, error: SchemaError)

  type Checked = Result<(), SchemaError>

  /** Accepts exactly the supported schemas. */
  method ValidateSchema(schema: Json) returns (r: Checked)
    ensures r.Ok? <==> Supported(schema)
    decreases schema, 2
  {
    if !schema.Obj? {
      return Err(NotAnObject);
    }
    var o := schema.fields;
    r := CheckKeywords(o);
    if r.Err? { return; }
    if "type" in o && !TypeKeywordOk(o["type"]) {
      return Err(UnsupportedType);
    }
    r := CheckProperties(schema);
    if r.Err? { return; }
    if "required" in o {
      r := CheckRequiredKeyword(o["required"]);
      if r.Err? { return; }
    }
    r := CheckSubschemas(schema);
    if r.Err? { return; }
    r := CheckForms(o);
  }

  method CheckKeywords(o: map<string, Json>) returns (r: Checked)
    ensures r.Ok? <==> forall k :: k in o ==> k in KEYWORDS
    ensures r.Err? ==> r.error.UnsupportedKeyword? && r.error.keyword in o && r.error.keyword !in KEYWORDS
  {
    var rest := o.Keys;
    while rest != {}
      invariant rest <= o.Keys
      invariant forall k :: k in o && k !in rest ==> k in KEYWORDS
      decreases |rest|
    {
      var k :| k in rest;
      if k !in KEYWORDS {
        return Err(UnsupportedKeyword(k));
      }
      rest := rest - {k};
    }
    return Ok(());
  }

  method CheckProperties(schema: Json) returns (r: Checked)
    requires schema.Obj?
    ensures r.Ok? <==> PropertiesSupported(schema)
    decreases schema, 1
  {
    if "properties" in schema.fields {
      if !schema.fields["properties"].Obj? {
        return Err(Malformed("properties"));
      }
      var properties := schema.fields["properties"].fields;
      var rest := properties.Keys;
      while rest != {}
        invariant rest <= properties.Keys
        invariant forall p :: p in properties && p !in rest ==> Supported(properties[p])
        decreases |rest|
      {
        var p :| p in rest;
        var checked := ValidateSchema(properties[p]);
        if checked.Err? {
          return Err(InProperty(p, checked.error));
        }
        rest := rest - {p};
      }
    }
    return Ok(());
  }

  /** Collects the names in a set to find a duplicate. */
  method CheckRequiredKeyword(value: Json) returns (r: Checked)
    ensures r.Ok? <==> RequiredOk(value)
  {
    if !value.Arr? {
      return Err(Malformed("required"));
    }
    var names: set<string> := {};
    for i := 0 to |value.items|
      invariant forall j :: 0 <= j < i ==> value.items[j].Str? && value.items[j].text in names
      invariant forall n :: n in names ==> Str(n) in value.items[..i]
      invariant forall j, k :: 0 <= j < k < i ==> value.items[j] != value.items[k]
    {
      var name := value.items[i];
      if !name.Str? {
        return Err(Malformed("required"));
      }
      if name.text in names {
        return Err(DuplicateRequired(name.text));
      }
      names := names + {name.text};
      assert value.items[..i + 1] == value.items[..i] + [name];
    }
    return Ok(());
  }

  method CheckSubschemas(schema: Json) returns (r: Checked)
    requires schema.Obj?
    ensures r.Ok? <==> SubschemasSupported(schema)
    decreases schema, 1
  {
    var o := schema.fields;
    if "additionalProperties" in o && !o["additionalProperties"].Bool? {
      if !o["additionalProperties"].Obj? {
        return Err(Malformed("additionalProperties"));
      }
      r := ValidateSchema(o["additionalProperties"]);
      if r.Err? { return; }
    }
    if "items" in o {
      if !o["items"].Obj? {
        return Err(Malformed("items"));
      }
      r := ValidateSchema(o["items"]);
      if r.Err? { return; }
    }
    var keywords := ["allOf", "anyOf", "oneOf"];
    for i := 0 to |keywords|
      invariant forall j :: 0 <= j < i ==> BranchesSupported(schema, keywords[j])
    {
      r := CheckBranches(schema, keywords[i]);
      if r.Err? { return; }
    }
    assert BranchesSupported(schema, keywords[0]) && BranchesSupported(schema, keywords[1]);
    assert BranchesSupported(schema, keywords[2]);
    if "not" in o {
      r := ValidateSchema(o["not"]);
      if r.Err? { return; }
    }
    return Ok(());
  }

  method CheckBranches(schema: Json, keyword: string) returns (r: Checked)
    requires schema.Obj?
    ensures r.Ok? <==> BranchesSupported(schema, keyword)
    decreases schema, 0
  {
    if keyword in schema.fields {
      if !schema.fields[keyword].Arr? {
        return Err(Malformed(keyword));
      }
      var schemas := schema.fields[keyword].items;
      for i := 0 to |schemas|
        invariant forall j :: 0 <= j < i ==> Supported(schemas[j])
      {
        r := ValidateSchema(schemas[i]);
        if r.Err? { return; }
      }
    }
    return Ok(());
  }

  method CheckForms(o: map<string, Json>) returns (r: Checked)
    ensures r.Ok? <==> FormsSupported(o)
  {
    if "enum" in o && !o["enum"].Arr? {
      return Err(Malformed("enum"));
    }
    var counts := ["minItems", "maxItems", "minLength", "maxLength"];
    for i := 0 to |counts|
      invariant forall j :: 0 <= j < i && counts[j] in o ==> CountOk(o[counts[j]])
    {
      if counts[i] in o && !CountOk(o[counts[i]]) {
        assert counts[i] in COUNTS;
        return Err(Malformed(counts[i]));
      }
    }
    assert forall k :: k in COUNTS ==> k in counts;
    var bounds := ["minimum", "maximum", "exclusiveMinimum", "exclusiveMaximum"];
    for i := 0 to |bounds|
      invariant forall j :: 0 <= j < i && bounds[j] in o ==> o[bounds[j]].Num?
    {
      if bounds[i] in o && !o[bounds[i]].Num? {
        assert bounds[i] in BOUNDS;
        return Err(Malformed(bounds[i]));
      }
    }
    assert forall k :: k in BOUNDS ==> k in bounds;
    if "uniqueItems" in o && !o["uniqueItems"].Bool? {
      return Err(Malformed("uniqueItems"));
    }
    return Ok(());
  }

  // ----- Tool arguments

  datatype ToolError =
    | InvalidSchema(reason: SchemaError)
    | NotJson
    | Invalid(failures: seq<Failure>)

  /** Arguments pass exactly if the schema is supported, they parse, and the parsed value satisfies it. */
  method ValidateToolArguments(schema: Json, arguments: Option<Json>) returns (r: Result<(), ToolError>)
    ensures r.Ok? <==> Supported(schema) && arguments.Some? && Satisfies(schema, arguments.value)
    ensures r.Err? && r.error.InvalidSchema? <==> !Supported(schema)
    ensures r.Err? && r.error.NotJson? <==> Supported(schema) && arguments.None?
    ensures r.Err? && r.error.Invalid? ==> r.error.failures != []
  {
    var checked := ValidateSchema(schema);
    if checked.Err? {
      return Err(InvalidSchema(checked.error));
    }
    if arguments.None? {
      return Err(NotJson);
    }
    var errors := new Failures();
    ValidateValue(schema, arguments.value, "", errors);
    if errors.list == [] {
      return Ok(());
    }
    return Err(Invalid(errors.list));
  }

  // ----- What satisfaction means for whole schemas

  ghost predicate Extends(base: map<string, Json>, extended: map<string, Json>) {
    forall k :: k in base ==> k in extended && extended[k] == base[k]
  }

  /** If a part has `additionalProperties`, then it has the `properties` that say what is additional. */
  predicate Together(part: map<string, Json>, whole: map<string, Json>) {
    "properties" in part || "properties" !in whole || "additionalProperties" !in part
  }

  /** Keywords constrain independently, except that `properties` says what `additionalProperties` covers. */
  lemma KeywordsAreIndependent(base: map<string, Json>, added: map<string, Json>, whole: map<string, Json>, value: Json)
    requires Extends(base, whole) && Extends(added, whole) && whole.Keys == base.Keys + added.Keys
    requires Together(base, whole) && Together(added, whole)
    ensures Satisfies(Obj(whole), value) <==> Satisfies(Obj(base), value) && Satisfies(Obj(added), value)
  {
    if Satisfies(Obj(whole), value) {
      AddingKeywordsNarrows(base, whole, value);
      AddingKeywordsNarrows(added, whole, value);
    }
    if Satisfies(Obj(base), value) && Satisfies(Obj(added), value) {
      KeywordsJoin(base, added, whole, value);
    }
  }

  lemma KeywordsJoin(base: map<string, Json>, added: map<string, Json>, whole: map<string, Json>, value: Json)
    requires Extends(base, whole) && Extends(added, whole) && whole.Keys == base.Keys + added.Keys
    requires Together(base, whole) && Together(added, whole)
    requires Satisfies(Obj(base), value) && Satisfies(Obj(added), value)
    ensures Satisfies(Obj(whole), value)
  {
    ApplicatorsJoin(base, added, whole, value);
    KindJoins(base, added, whole, value);
  }

  lemma KindJoins(base: map<string, Json>, added: map<string, Json>, whole: map<string, Json>, value: Json)
    requires Extends(base, whole) && Extends(added, whole) && whole.Keys == base.Keys + added.Keys
    requires Together(base, whole) && Together(added, whole)
    requires SatisfiesKind(Obj(base), value) && SatisfiesKind(Obj(added), value)
    ensures SatisfiesKind(Obj(whole), value)
  {
    match value
    case Obj(fields) => ObjectJoins(base, added, whole, fields);
    case Arr(items) => ArrayJoins(base, added, whole, items);
    case _ =>
  }

  lemma ArrayJoins(base: map<string, Json>, added: map<string, Json>, whole: map<string, Json>, items: seq<Json>)
    requires Extends(base, whole) && Extends(added, whole) && whole.Keys == base.Keys + added.Keys
    requires ArraySatisfies(Obj(base), items) && ArraySatisfies(Obj(added), items)
    ensures ArraySatisfies(Obj(whole), items)
  {
    assert ItemsSatisfy(Obj(base), items) && ItemsSatisfy(Obj(added), items);
    assert ItemsSatisfy(Obj(whole), items);
  }

  lemma ApplicatorsJoin(base: map<string, Json>, added: map<string, Json>, whole: map<string, Json>, value: Json)
    requires Extends(base, whole) && Extends(added, whole) && whole.Keys == base.Keys + added.Keys
    requires SatisfiesApplicators(Obj(base), value) && SatisfiesApplicators(Obj(added), value)
    ensures SatisfiesApplicators(Obj(whole), value)
  {
    var (b, a, w) := (Obj(base), Obj(added), Obj(whole));
    assert AllOf(b, value) && AllOf(a, value) && AllOf(w, value);
    assert AnyOf(b, value) && AnyOf(a, value) && AnyOf(w, value);
    assert OneOf(b, value) && OneOf(a, value) && OneOf(w, value);
  }

  lemma ObjectJoins(base: map<string, Json>, added: map<string, Json>, whole: map<string, Json>,
      fields: map<string, Json>)
    requires Extends(base, whole) && Extends(added, whole) && whole.Keys == base.Keys + added.Keys
    requires Together(base, whole) && Together(added, whole)
    requires ObjectSatisfies(Obj(base), fields) && ObjectSatisfies(Obj(added), fields)
    ensures ObjectSatisfies(Obj(whole), fields)
  {
    var (b, a, w) := (Obj(base), Obj(added), Obj(whole));
    assert HasRequired(base, fields) && HasRequired(added, fields) && HasRequired(whole, fields);
    assert PropertiesSatisfy(b, fields) && PropertiesSatisfy(a, fields) && PropertiesSatisfy(w, fields);
    forall name | name in fields.Keys
      ensures AdditionalSatisfies(w, name, fields[name])
    {
      assert AdditionalSatisfy(b, fields, fields.Keys) && AdditionalSatisfy(a, fields, fields.Keys);
      assert AdditionalSatisfies(b, name, fields[name]) && AdditionalSatisfies(a, name, fields[name]);
    }
    assert AdditionalSatisfy(w, fields, fields.Keys);
  }

  lemma AddingKeywordsNarrows(base: map<string, Json>, extended: map<string, Json>, value: Json)
    requires Extends(base, extended)
    requires Together(base, extended)
    requires Satisfies(Obj(extended), value)
    ensures Satisfies(Obj(base), value)
  {
    ApplicatorsNarrow(base, extended, value);
    match value
    case Obj(fields) => ObjectNarrows(base, extended, fields);
    case Arr(items) =>
      assert ArraySatisfies(Obj(extended), items);
      assert ItemsSatisfy(Obj(extended), items) && ItemsSatisfy(Obj(base), items);
      assert ArraySatisfies(Obj(base), items);
    case _ =>
  }

  lemma ObjectNarrows(base: map<string, Json>, extended: map<string, Json>, fields: map<string, Json>)
    requires Extends(base, extended)
    requires Together(base, extended)
    requires ObjectSatisfies(Obj(extended), fields)
    ensures ObjectSatisfies(Obj(base), fields)
  {
    var (b, e) := (Obj(base), Obj(extended));
    assert HasRequired(extended, fields) && HasRequired(base, fields);
    assert PropertiesSatisfy(e, fields) && PropertiesSatisfy(b, fields);
    forall name | name in fields.Keys
      ensures AdditionalSatisfies(b, name, fields[name])
    {
      assert AdditionalSatisfy(e, fields, fields.Keys);
      assert AdditionalSatisfies(e, name, fields[name]);
    }
    assert AdditionalSatisfy(b, fields, fields.Keys);
  }

  lemma ApplicatorsNarrow(base: map<string, Json>, extended: map<string, Json>, value: Json)
    requires Extends(base, extended) && SatisfiesApplicators(Obj(extended), value)
    ensures SatisfiesApplicators(Obj(base), value)
  {
    var (b, e) := (Obj(base), Obj(extended));
    assert AllOf(e, value) && AllOf(b, value);
    assert AnyOf(e, value) && AnyOf(b, value);
    assert OneOf(e, value) && OneOf(b, value);
  }

  /** Without the exception the claim fails: `properties` makes room for a name that is otherwise refused. */
  lemma PropertiesWiden()
    ensures
      var base := map["additionalProperties" := Bool(false)];
      var extended := base["properties" := Obj(map["a" := Obj(map[])])];
      var value := Obj(map["a" := Null]);
      Satisfies(Obj(extended), value) && !Satisfies(Obj(base), value)
  {
    var base := map["additionalProperties" := Bool(false)];
    var extended := base["properties" := Obj(map["a" := Obj(map[])])];
    var fields := map["a" := Null];
    assert !AdditionalSatisfies(Obj(base), "a", Null);
    assert "a" in fields.Keys;
    assert IsProperty(extended, "a");
    assert Satisfies(Obj(map[]), Null);
    assert AdditionalSatisfies(Obj(extended), "a", Null);
    assert PropertiesSatisfy(Obj(extended), fields);
    assert HasRequired(extended, fields);
    assert AdditionalSatisfy(Obj(extended), fields, fields.Keys);
    assert ObjectSatisfies(Obj(extended), fields);
    assert SatisfiesKind(Obj(extended), Obj(fields));
  }

  // ----- Equality of values

  /** The value of a number, before any rounding. */
  function Exact(number: Number): real {
    match number
    case Signed(n) => n as real
    case Unsigned(n) => n as real
    case Float(x) => Value(x)
  }

  /** Instance equality as in section 4.2.2 of JSON Schema Core: numbers are equal if their values are. */
  predicate EqualInstances(a: Json, b: Json) {
    match a
    case Num(n) => b.Num? && Exact(n) == Exact(b.number)
    case Arr(xs) => b.Arr? && |xs| == |b.items| && forall i :: 0 <= i < |xs| ==> EqualInstances(xs[i], b.items[i])
    case Obj(f) => b.Obj? && f.Keys == b.fields.Keys && forall k :: k in f ==> EqualInstances(f[k], b.fields[k])
    case _ => a == b
  }

  predicate SameForm(n: Number, m: Number) {
    (n.Signed? <==> m.Signed?) && (n.Unsigned? <==> m.Unsigned?)
  }

  /** Numbers in the same places have the same form. */
  predicate SameForms(a: Json, b: Json) {
    match a
    case Num(n) => b.Num? ==> SameForm(n, b.number)
    case Arr(xs) => b.Arr? ==> forall i :: 0 <= i < |xs| && i < |b.items| ==> SameForms(xs[i], b.items[i])
    case Obj(f) => b.Obj? ==> forall k :: k in f && k in b.fields ==> SameForms(f[k], b.fields[k])
    case _ => true
  }

  lemma NumbersEqualExactly(n: Number, m: Number)
    ensures n == m <==> Exact(n) == Exact(m) && SameForm(n, m)
  {
    if n.Float? && m.Float? {
      ValueUnique(n.fraction, m.fraction);
    }
  }

  /** The validator's equality is instance equality of values whose numbers have the same forms. */
  lemma {:induction false} EqualExactly(a: Json, b: Json)
    ensures a == b <==> EqualInstances(a, b) && SameForms(a, b)
  {
    match a
    case Num(n) =>
      if b.Num? { NumbersEqualExactly(n, b.number); }
    case Arr(xs) =>
      if b.Arr? {
        forall i | 0 <= i < |xs| && i < |b.items|
          ensures xs[i] == b.items[i] <==> EqualInstances(xs[i], b.items[i]) && SameForms(xs[i], b.items[i])
        {
          EqualExactly(xs[i], b.items[i]);
        }
        assert xs == b.items <==> |xs| == |b.items| && forall i :: 0 <= i < |xs| ==> xs[i] == b.items[i];
      }
    case Obj(f) =>
      if b.Obj? {
        forall k | k in f && k in b.fields
          ensures f[k] == b.fields[k] <==> EqualInstances(f[k], b.fields[k]) && SameForms(f[k], b.fields[k])
        {
          EqualExactly(f[k], b.fields[k]);
        }
        assert f == b.fields <==> f.Keys == b.fields.Keys && forall k :: k in f ==> f[k] == b.fields[k];
      }
    case _ =>
  }

  lemma ConstantsDecide(o: map<string, Json>, value: Json)
    requires forall k :: k in o ==> k == "const" || k == "enum"
    ensures Satisfies(Obj(o), value) <==> SatisfiesConstants(Obj(o), value)
  {
    var schema := Obj(o);
    assert "allOf" !in o && "anyOf" !in o && "oneOf" !in o && "not" !in o && "type" !in o;
    assert AllOf(schema, value) && AnyOf(schema, value) && OneOf(schema, value);
    if value.Obj? {
      assert "required" !in o && "properties" !in o && "additionalProperties" !in o;
      assert forall name, v :: AdditionalSatisfies(schema, name, v);
      assert AdditionalSatisfy(schema, value.fields, value.fields.Keys);
      assert ObjectSatisfies(schema, value.fields);
    } else if value.Arr? {
      assert "items" !in o && "uniqueItems" !in o;
      assert ArraySatisfies(schema, value.items);
    }
  }

  /** A constant accepts the equal instances whose numbers have its forms, and nothing else. */
  lemma ConstantAcceptsExactly(constant: Json, value: Json)
    ensures Satisfies(Obj(map["const" := constant]), value) <==>
      EqualInstances(constant, value) && SameForms(constant, value)
  {
    EqualExactly(constant, value);
    ConstantsDecide(map["const" := constant], value);
  }

  /** One and 1.0 are equal instances, but no constant or enumeration takes one for the other. */
  lemma OneIsNotOnePointZero()
    ensures
      var (one, float) := (Num(Unsigned(1)), Num(Float(ONE)));
      && EqualInstances(one, float) && EqualInstances(float, one)
      && !Satisfies(Obj(map["const" := one]), float) && !Satisfies(Obj(map["const" := float]), one)
      && !Satisfies(Obj(map["enum" := Arr([one])]), float)
      && Satisfies(Obj(map["uniqueItems" := Bool(true)]), Arr([one, float]))
  {
    OneIsOne();
    var (one, float) := (Num(Unsigned(1)), Num(Float(ONE)));
    ConstantsDecide(map["const" := one], float);
    ConstantsDecide(map["const" := float], one);
    ConstantsDecide(map["enum" := Arr([one])], float);
    UniqueDecides([one, float]);
  }

  lemma UniqueDecides(items: seq<Json>)
    ensures Satisfies(Obj(map["uniqueItems" := Bool(true)]), Arr(items)) <==> Unique(items)
  {
    var schema := Obj(map["uniqueItems" := Bool(true)]);
    assert SatisfiesApplicators(schema, Arr(items)) && ItemsSatisfy(schema, items);
    assert SatisfiesKind(schema, Arr(items)) <==> ArraySatisfies(schema, items);
  }
}
