/**
 JSON text: what the session codec relies on about printing and parsing, and that a printer and a parser with
 these properties exist.
 */
module JsonText {
  import opened Binary64
  import opened DisplayWidth
  import opened Json
  import opened StringOrder
  import opened Wrappers

  datatype Text = Text(render: Json -> string, parse: string -> Option<Json>)

  /** Values as the parser produces them: a number without a sign is unsigned. */
  predicate Plain(v: Json) {
    match v
    case Num(Signed(n)) => n < 0
    case Arr(items) => forall i :: i in items ==> Plain(i)
    case Obj(fields) => forall k :: k in fields ==> Plain(fields[k])
    case _ => true
  }

  predicate Blank(line: string) { forall c :: c in line ==> IsWhite(c) }

  /** Parsing undoes printing, parsed values are plain, a printed value is never a blank line. */
  ghost predicate Faithful(text: Text) {
    && (forall v :: Plain(v) ==> text.parse(text.render(v)) == Some(v))
    && (forall t :: text.parse(t).Some? ==> Plain(text.parse(t).value))
    && (forall v :: !Blank(text.render(v)))
    && text.render(Null) == "null"
  }

  // ----- A printer that determines the value

  function Tally(n: nat): string { if n == 0 then "." else "1" + Tally(n - 1) }

  function IntegerCode(n: int): string { if n < 0 then "-" + Tally(-n) else "+" + Tally(n) }

  function NumberCode(number: Number): string {
    match number
    case Signed(n) => "i" + IntegerCode(n)
    case Unsigned(n) => "u" + IntegerCode(n)
    case Float(x) => "f" + (IntegerCode(x.mantissa) + IntegerCode(x.exponent))
  }

  function StringCode(s: string): string { Tally(|s|) + s }

  ghost function Code(v: Json): (code: string)
    ensures code != "" && !IsWhite(code[0])
    decreases v
  {
    match v
    case Null => "null"
    case Bool(flag) => if flag then "t" else "f"
    case Num(number) => "#" + NumberCode(number)
    case Str(s) => "'" + StringCode(s)
    case Arr(items) => "[" + (Tally(|items|) + CodeAll(items))
    case Obj(fields) => "{" + (Tally(|InOrder(fields.Keys)|) + CodeFields(v, InOrder(fields.Keys)))
  }

  ghost function CodeAll(items: seq<Json>): string
    decreases items
  {
    if items == [] then "" else Code(items[0]) + CodeAll(items[1..])
  }

  ghost function CodeFields(v: Json, keys: seq<string>): string
    requires v.Obj? && forall k :: k in keys ==> k in v.fields
    decreases v, |keys|
  {
    if keys == [] then "" else StringCode(keys[0]) + (Code(v.fields[keys[0]]) + CodeFields(v, keys[1..]))
  }

  lemma Peel(c: char, x: string, a: string, d: char, y: string, b: string)
    requires [c] + x + a == [d] + y + b
    ensures c == d && x + a == y + b
  {
    assert ([c] + x + a)[0] == c && ([d] + y + b)[0] == d;
    assert ([c] + x + a)[1..] == x + a && ([d] + y + b)[1..] == y + b;
  }

  lemma {:induction false} TallyPrefix(n: nat, m: nat, a: string, b: string)
    requires Tally(n) + a == Tally(m) + b
    ensures n == m && a == b
  {
    var (c, d) := (if n == 0 then '.' else '1', if m == 0 then '.' else '1');
    var (x, y) := (if n == 0 then "" else Tally(n - 1), if m == 0 then "" else Tally(m - 1));
    assert Tally(n) == [c] + x && Tally(m) == [d] + y;
    Peel(c, x, a, d, y, b);
    if n > 0 {
      TallyPrefix(n - 1, m - 1, a, b);
    } else {
      assert "" + a == a && "" + b == b;
    }
  }

  lemma IntegerPrefix(n: int, m: int, a: string, b: string)
    requires IntegerCode(n) + a == IntegerCode(m) + b
    ensures n == m && a == b
  {
    var (p, q) := (Abs(n), Abs(m));
    Peel(if n < 0 then '-' else '+', Tally(p), a, if m < 0 then '-' else '+', Tally(q), b);
    TallyPrefix(p, q, a, b);
  }

  lemma TextPrefix(s: string, t: string, a: string, b: string)
    requires StringCode(s) + a == StringCode(t) + b
    ensures s == t && a == b
  {
    assert StringCode(s) + a == Tally(|s|) + (s + a) && StringCode(t) + b == Tally(|t|) + (t + b);
    TallyPrefix(|s|, |t|, s + a, t + b);
    assert s == (s + a)[..|s|] && t == (t + b)[..|t|] && a == (s + a)[|s|..] && b == (t + b)[|t|..];
  }

  lemma NumberPrefix(x: Number, y: Number, a: string, b: string)
    requires NumberCode(x) + a == NumberCode(y) + b
    ensures x == y && a == b
  {
    assert NumberCode(x)[0] == (NumberCode(x) + a)[0] && NumberCode(y)[0] == (NumberCode(y) + b)[0];
    match (x, y)
    case (Signed(n), Signed(m)) =>
      Peel('i', IntegerCode(n), a, 'i', IntegerCode(m), b);
      IntegerPrefix(n, m, a, b);
    case (Unsigned(n), Unsigned(m)) =>
      Peel('u', IntegerCode(n), a, 'u', IntegerCode(m), b);
      IntegerPrefix(n, m, a, b);
    case (Float(r), Float(s)) => FloatPrefix(r, s, a, b);
    case _ =>
  }

  lemma FloatPrefix(x: Float64, y: Float64, a: string, b: string)
    requires NumberCode(Float(x)) + a == NumberCode(Float(y)) + b
    ensures x == y && a == b
  {
    var (p, q) := (IntegerCode(x.exponent), IntegerCode(y.exponent));
    Peel('f', IntegerCode(x.mantissa) + p, a, 'f', IntegerCode(y.mantissa) + q, b);
    TwoIntegers(x.mantissa, x.exponent, y.mantissa, y.exponent, a, b);
  }

  lemma TwoIntegers(n: int, k: int, m: int, l: int, a: string, b: string)
    requires IntegerCode(n) + IntegerCode(k) + a == IntegerCode(m) + IntegerCode(l) + b
    ensures n == m && k == l && a == b
  {
    Regroup(IntegerCode(n), IntegerCode(k), a);
    Regroup(IntegerCode(m), IntegerCode(l), b);
    IntegerPrefix(n, m, IntegerCode(k) + a, IntegerCode(l) + b);
    IntegerPrefix(k, l, a, b);
  }

  lemma Regroup(a: string, b: string, c: string)
    ensures a + b + c == a + (b + c)
  {
  }

  /** A code is the beginning of no other: code and rest can be told apart. */
  lemma {:induction false} CodePrefix(v: Json, w: Json, a: string, b: string)
    requires Code(v) + a == Code(w) + b
    ensures v == w && a == b
    decreases v
  {
    assert Code(v)[0] == (Code(v) + a)[0] && Code(w)[0] == (Code(w) + b)[0];
    match (v, w)
    case (Null, Null) => SameLength("null", a, "null", b);
    case (Bool(f), Bool(g)) => SameLength(Code(v), a, Code(w), b);
    case (Num(n), Num(m)) =>
      Peel('#', NumberCode(n), a, '#', NumberCode(m), b);
      NumberPrefix(n, m, a, b);
    case (Str(s), Str(t)) =>
      Peel('\'', StringCode(s), a, '\'', StringCode(t), b);
      TextPrefix(s, t, a, b);
    case (Arr(s), Arr(t)) =>
      CountPrefix('[', |s|, CodeAll(s), a, |t|, CodeAll(t), b);
      AllPrefix(s, t, a, b);
    case (Obj(f), Obj(g)) =>
      var (k, l) := (InOrder(f.Keys), InOrder(g.Keys));
      CountPrefix('{', |k|, CodeFields(v, k), a, |l|, CodeFields(w, l), b);
      FieldsPrefix(v, k, w, l, a, b);
      SameFields(f, g);
    case _ =>
  }

  lemma SameLength(x: string, a: string, y: string, b: string)
    requires |x| == |y| && x + a == y + b
    ensures x == y && a == b
  {
    assert x == (x + a)[..|x|] && y == (y + b)[..|y|] && a == (x + a)[|x|..] && b == (y + b)[|y|..];
  }

  lemma SameFields(f: map<string, Json>, g: map<string, Json>)
    requires InOrder(f.Keys) == InOrder(g.Keys) && forall n :: n in InOrder(f.Keys) ==> f[n] == g[n]
    ensures f == g
  {
    assert f.Keys == g.Keys;
  }

  lemma CountPrefix(c: char, n: nat, x: string, a: string, m: nat, y: string, b: string)
    requires [c] + (Tally(n) + x) + a == [c] + (Tally(m) + y) + b
    ensures n == m && x + a == y + b
  {
    Peel(c, Tally(n) + x, a, c, Tally(m) + y, b);
    assert Tally(n) + x + a == Tally(n) + (x + a) && Tally(m) + y + b == Tally(m) + (y + b);
    TallyPrefix(n, m, x + a, y + b);
  }

  lemma {:induction false} AllPrefix(s: seq<Json>, t: seq<Json>, a: string, b: string)
    requires |s| == |t| && CodeAll(s) + a == CodeAll(t) + b
    ensures s == t && a == b
    decreases s
  {
    if s != [] {
      var (x, y) := (CodeAll(s[1..]), CodeAll(t[1..]));
      Regroup(Code(s[0]), x, a);
      Regroup(Code(t[0]), y, b);
      CodePrefix(s[0], t[0], x + a, y + b);
      AllPrefix(s[1..], t[1..], a, b);
      assert s == [s[0]] + s[1..] && t == [t[0]] + t[1..];
    } else {
      assert "" + a == a && "" + b == b;
    }
  }

  lemma {:induction false} FieldsPrefix(v: Json, k: seq<string>, w: Json, l: seq<string>, a: string, b: string)
    requires v.Obj? && w.Obj? && |k| == |l|
    requires (forall n :: n in k ==> n in v.fields) && (forall n :: n in l ==> n in w.fields)
    requires CodeFields(v, k) + a == CodeFields(w, l) + b
    ensures k == l && a == b && forall n :: n in k ==> v.fields[n] == w.fields[n]
    decreases v, |k|
  {
    if k == [] {
      assert "" + a == a && "" + b == b;
    } else {
      var (x, y) := (CodeFields(v, k[1..]), CodeFields(w, l[1..]));
      var (p, q) := (Code(v.fields[k[0]]), Code(w.fields[l[0]]));
      assert StringCode(k[0]) + (p + x) + a == StringCode(k[0]) + (p + (x + a));
      assert StringCode(l[0]) + (q + y) + b == StringCode(l[0]) + (q + (y + b));
      TextPrefix(k[0], l[0], p + (x + a), q + (y + b));
      CodePrefix(v.fields[k[0]], w.fields[l[0]], x + a, y + b);
      FieldsPrefix(v, k[1..], w, l[1..], a, b);
      assert k == [k[0]] + k[1..] && l == [l[0]] + l[1..];
    }
  }

  lemma CodeInjective(v: Json, w: Json)
    requires Code(v) == Code(w)
    ensures v == w
  {
    assert Code(v) + "" == Code(v) && Code(w) + "" == Code(w);
    CodePrefix(v, w, "", "");
  }

  ghost predicate Prints(v: Json, t: string) { Plain(v) && Code(v) == t }

  ghost function Decoded(t: string): Option<Json> {
    if exists v :: Prints(v, t) then
      var v :| Prints(v, t);
      Some(v)
    else None
  }

  /** What the codec asks of printing and parsing can be met. */
  lemma FaithfulTextExists()
    ensures exists text :: Faithful(text)
  {
    var text := Text(v => Code(v), t => Decoded(t));
    forall v | Plain(v) ensures text.parse(text.render(v)) == Some(v) {
      assert Prints(v, Code(v));
      CodeInjective(v, Decoded(Code(v)).value);
    }
    assert Faithful(text);
  }
}
