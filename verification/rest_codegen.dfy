/** The wrapper generator of RestServiceProvider/CodeGen.cs: it groups the
    wrapped type's own methods by name, picks for each group the overload
    served from the query parameters and the one served from the request
    body, and builds the text of one wrapper statement per group. */
module RestCodeGen {
  import opened Wrappers
  import opened Reflection
  import opened Text
  import opened WrapperText

  /** Guard of the body branch of an overloaded wrapper. */
  const BodyGuard: string := "if " + "(" + "!String.IsNullOrEmpty" + "(" + "body" + ")" + ")"
  /** The text around the body overload's parameter type:
      `(JsonConvert.DeserializeObject<` and `>(body))); else`. */
  const DeserializeOpen: string := "(" + "JsonConvert.DeserializeObject<"
  const BodyClose: string := ">" + "(" + "body" + ")" + ")" + ")" + "; else"

  /** The System.Convert method that decodes a parameter of the given type
      name; any other type is handed to a JSON converter whose name carries
      the source's typo "DerializeObject". */
  function ConvertSelect(typeName: string): string
  {
    match PrimitiveConverter(typeName)
    case Some(conv) => conv
    case None => "JsonConvert.DerializeObject<" + typeName + ">"
  }

  /** The converter table: the five primitive types (seven spellings) map to
      their System.Convert method, every other type name to the misspelt JSON
      converter for that type; the selection is total. */
  lemma ConvertSelectMapping(typeName: string)
    ensures typeName == "Int32" ==> ConvertSelect(typeName) == "ToInt32"
    ensures typeName == "Int64" ==> ConvertSelect(typeName) == "ToInt64"
    ensures typeName == "decimal" || typeName == "Decimal" ==> ConvertSelect(typeName) == "ToDecimal"
    ensures typeName == "String" || typeName == "string" ==> ConvertSelect(typeName) == "ToString"
    ensures typeName == "DateTime" ==> ConvertSelect(typeName) == "ToDateTime"
    ensures !(typeName in {"Int32", "Int64", "decimal", "Decimal", "String", "string", "DateTime"}) ==>
      ConvertSelect(typeName) == "JsonConvert.DerializeObject<" + typeName + ">"
  {
    PrimitiveConverterTable(typeName);
  }

  /** One argument expression per parameter, in declaration order. */
  function ArgTexts(ps: seq<ParamInfo>): seq<string>
  {
    seq(|ps|, i requires 0 <= i < |ps| => ArgText(ps[i], ConvertSelect(ps[i].typeName)))
  }

  // ---------------------------------------------------------------------
  // Overload selection
  // ---------------------------------------------------------------------

  /** Which overload serves a request: `simple` takes its arguments from the
      query parameters; `bodyOverload`, present only for a two-method group,
      takes its single argument deserialized from the request body. */
  datatype Plan = Plan(name: string, simple: MethodInfo, bodyOverload: Option<MethodInfo>)

  /** A method can serve a body request when it has exactly one parameter
      whose type is declared in the given module (the group's module). */
  predicate TakesBody(m: MethodInfo, moduleName: string)
  {
    |m.params| == 1 && m.params[0].typeModule == moduleName
  }

  /** Overload selection. A group of one is served as is; a group of two
      needs a method that takes its body, and the first such method serves
      the body while the other one serves the query; larger groups and
      groups of two without such a method are rejected; an empty group fails
      on its first element. */
  function Classify(methods: seq<MethodInfo>): (r: Result<Plan>)
    ensures r.Ok? <==>
      || |methods| == 1
      || (|methods| == 2
          && (TakesBody(methods[0], methods[0].moduleName) || TakesBody(methods[1], methods[0].moduleName)))
    ensures |methods| == 0 ==> r == Err(ArgumentOutOfRange)
    ensures |methods| > 2 ==> r == Err(Exception(TooManyOverloads(methods[0].name)))
    ensures |methods| == 2 && r.Err? ==> r == Err(Exception(NoBodyOverload(methods[0].name)))
    ensures r.Ok? ==> r.value.name == methods[0].name
    ensures r.Ok? ==> (r.value.bodyOverload.Some? <==> |methods| == 2)
    ensures |methods| == 1 ==> r.value.simple == methods[0]
    ensures r.Ok? && |methods| == 2 ==>
      var k := if TakesBody(methods[0], methods[0].moduleName) then 0 else 1;
      r.value.bodyOverload == Some(methods[k]) && r.value.simple == methods[1 - k]
      && TakesBody(methods[k], methods[0].moduleName)
  {
    if |methods| == 0 then Err(ArgumentOutOfRange)
    else if |methods| > 2 then Err(Exception(TooManyOverloads(methods[0].name)))
    else if |methods| == 1 then Ok(Plan(methods[0].name, methods[0], None))
    else if TakesBody(methods[0], methods[0].moduleName) then
      Ok(Plan(methods[0].name, methods[1], Some(methods[0])))
    else if TakesBody(methods[1], methods[0].moduleName) then
      Ok(Plan(methods[0].name, methods[0], Some(methods[1])))
    else Err(Exception(NoBodyOverload(methods[0].name)))
  }

  // ---------------------------------------------------------------------
  // Statement text
  // ---------------------------------------------------------------------

  /** Guarded call of the body overload on the deserialized body, ending in
      the `else` that introduces the query call. */
  function BodyBranch(name: string, m2: MethodInfo): string
    requires |m2.params| >= 1
  {
    BodyGuard + CallPrefix(m2) + name
      + DeserializeOpen + m2.params[0].typeName + BodyClose
  }

  /** Call of the query overload on its converted parameters; a void method
      is followed by the success sentinel. The closer is always "));". */
  function SimpleCall(name: string, m1: MethodInfo): string
  {
    CallPrefix(m1) + name + "(" + Join(ArgTexts(m1.params), ",") + "));"
      + (if IsVoid(m1) then SuccessReturn else "")
  }

  predicate WellFormed(plan: Plan)
  {
    plan.bodyOverload.Some? ==> |plan.bodyOverload.value.params| >= 1
  }

  function Statement(plan: Plan): string
    requires WellFormed(plan)
  {
    (if plan.bodyOverload.Some? then BodyBranch(plan.name, plan.bodyOverload.value) else "")
      + SimpleCall(plan.name, plan.simple)
  }

  /** The wrapper generated for a group of same-named methods. */
  function MethodSource(methods: seq<MethodInfo>): Result<WrapperMethod>
  {
    match Classify(methods)
    case Err(e) => Err(e)
    case Ok(plan) => Ok(WrapperMethod(plan.name, [Statement(plan)]))
  }

  /** A wrapper is built exactly when the overloads can be told apart, and
      otherwise the generator fails with the same exception. A built
      wrapper is named after the group and holds one statement. */
  lemma MethodSourceOutcome(methods: seq<MethodInfo>)
    ensures var r := MethodSource(methods);
      && (r.Ok? <==> Classify(methods).Ok?)
      && (r.Err? ==> r.error == Classify(methods).error)
      && (r.Ok? ==> r.value.name == methods[0].name && |r.value.statements| == 1)
  {
  }

  /** Appends one converted argument per parameter, each followed by a
      comma, then cuts off the last comma: the result is the comma-joined
      argument list. */
  method AppendArguments(sb: string, ps: seq<ParamInfo>) returns (out: string)
    ensures out == sb + Join(ArgTexts(ps), ",")
  {
    out := sb;
    ghost var args := ArgTexts(ps);
    var i := 0;
    while i < |ps|
      invariant 0 <= i <= |ps|
      invariant out == sb + Terminated(args[..i], ",")
    {
      out := out + ArgText(ps[i], ConvertSelect(ps[i].typeName)) + ",";
      TerminatedStep(sb, args, i, ",");
      i := i + 1;
    }
    assert args[..i] == args;
    if |ps| > 0 {
      ChewLast(sb, args, ',');
      out := out[..|out| - 1]; // chew the last comma
    }
  }

  /** Appends the guarded body-overload call and the `else` after it. */
  method AppendBodyBranch(sb: string, name: string, m2: MethodInfo) returns (out: string)
    requires |m2.params| >= 1
    ensures out == sb + BodyBranch(name, m2)
  {
    out := sb + BodyGuard;
    out := out + CallPrefix(m2);
    out := out + name;
    out := out + DeserializeOpen;
    out := out + m2.params[0].typeName;
    out := out + BodyClose;
    Regroup(sb, BodyGuard, CallPrefix(m2), name, DeserializeOpen, m2.params[0].typeName, BodyClose);
  }

  /** Appends the query-overload call with its converted arguments, closed
      by "));", and for a void method the success sentinel. */
  method AppendQueryCall(sb: string, name: string, m1: MethodInfo) returns (out: string)
    ensures out == sb + SimpleCall(name, m1)
  {
    out := sb + CallPrefix(m1);
    out := out + name;
    out := out + "(";
    out := AppendArguments(out, m1.params);
    out := out + "));";
    ghost var args := Join(ArgTexts(m1.params), ",");
    if IsVoid(m1) {
      out := out + SuccessReturn;
      Regroup(sb, CallPrefix(m1), name, "(", args, "));", SuccessReturn);
    } else {
      Regroup(sb, CallPrefix(m1), name, "(", args, "));", "");
      assert out + "" == out;
    }
  }

  /** Builds the wrapper statement with a string builder: the body branch
      for an overloaded group, then the query call whose arguments are each
      appended with a trailing comma, the last comma being cut off. */
  method CreateMethodSource(methods: seq<MethodInfo>) returns (r: Result<WrapperMethod>)
    ensures r == MethodSource(methods)
    ensures r.Ok? ==> |r.value.statements| == 1
  {
    var choice := ChooseOverloads(methods);
    if choice.Err? {
      return Err(choice.error);
    }
    var plan := choice.value;
    var sb := AppendStatement(plan.name, plan.simple, plan.bodyOverload);
    r := Ok(WrapperMethod(plan.name, [sb]));
  }

  /** The checks at the head of CreateMethodSource, as the source runs
      them statement by statement: the group's size, then which of two
      overloads takes the body. Classify is the same decision as a value,
      with its case table as contract; this method is proved to agree. */
  method ChooseOverloads(methods: seq<MethodInfo>) returns (r: Result<Plan>)
    ensures r == Classify(methods)
  {
    if |methods| == 0 {
      return Err(ArgumentOutOfRange);
    }
    var name := methods[0].name;
    if |methods| > 2 {
      return Err(Exception(TooManyOverloads(name)));
    }
    if |methods| == 1 {
      r := Ok(Plan(name, methods[0], None));
    } else if TakesBody(methods[0], methods[0].moduleName) {
      r := Ok(Plan(name, methods[1], Some(methods[0])));
    } else if TakesBody(methods[1], methods[0].moduleName) {
      r := Ok(Plan(name, methods[0], Some(methods[1])));
    } else {
      r := Err(Exception(NoBodyOverload(name)));
    }
  }

  /** Wraps the group of `name`, if it has one. */
  method WrapGroup(t: TypeInfo, name: string) returns (r: Option<Result<WrapperMethod>>)
    ensures r == Wrap(t, name, MethodSource)
  {
    var group := Overloads(t, name);
    if |group| > 0 {
      var source := CreateMethodSource(group);
      r := Some(source);
    } else {
      r := None;
    }
  }

  /** The string builder's work for one group: the body branch when there
      is a body overload, then the query call. */
  method AppendStatement(name: string, m1: MethodInfo, m2: Option<MethodInfo>) returns (sb: string)
    requires WellFormed(Plan(name, m1, m2))
    ensures sb == Statement(Plan(name, m1, m2))
  {
    sb := "";
    if m2.Some? {
      sb := AppendBodyBranch(sb, name, m2.value);
      assert sb == BodyBranch(name, m2.value);
    }
    sb := AppendQueryCall(sb, name, m1);
  }

  // ---------------------------------------------------------------------
  // Grouping by name (BuildServiceCode's method loop)
  // ---------------------------------------------------------------------

  /** Each name once, in order of first appearance (LINQ Distinct). */
  function Distinct(s: seq<string>): (r: seq<string>)
    ensures forall x :: x in r <==> x in s
    ensures forall i, j :: 0 <= i < j < |r| ==> r[i] != r[j]
  {
    if s == [] then []
    else
      var d := Distinct(s[..|s| - 1]);
      assert s == s[..|s| - 1] + [s[|s| - 1]];
      if s[|s| - 1] in d then d else d + [s[|s| - 1]]
  }

  /** Position of the first occurrence of `x` in `s`; |s| when absent. */
  function FirstIndex(s: seq<string>, x: string): (i: nat)
    ensures i <= |s|
    ensures i < |s| <==> x in s
    ensures i < |s| ==> s[i] == x
    ensures forall k :: 0 <= k < i ==> s[k] != x
  {
    if s == [] then 0
    else if s[0] == x then 0
    else 1 + FirstIndex(s[1..], x)
  }

  /** Distinct keeps the order of first appearance: of two names it keeps,
      the one that appears first in the input comes first. */
  lemma {:induction false} FirstIndexAppend(p: seq<string>, y: string, x: string)
    requires x in p || x == y
    ensures FirstIndex(p + [y], x) == if x in p then FirstIndex(p, x) else |p|
  {
    if p != [] && p[0] != x {
      assert (p + [y])[1..] == p[1..] + [y];
      FirstIndexAppend(p[1..], y, x);
    }
  }

  /** The names of `r` occur in `s` in the order they have in `r`. */
  predicate InFirstAppearanceOrder(r: seq<string>, s: seq<string>)
  {
    forall i, j :: 0 <= i < j < |r| ==> FirstIndex(s, r[i]) < FirstIndex(s, r[j])
  }

  /** Distinct keeps the order of first appearance: of two names it keeps,
      the one that appears first in the input comes first. */
  lemma {:induction false} DistinctOrder(s: seq<string>)
    ensures InFirstAppearanceOrder(Distinct(s), s)
  {
    if s != [] {
      var p, y := s[..|s| - 1], s[|s| - 1];
      assert s == p + [y];
      DistinctOrder(p);
      var d, r := Distinct(p), Distinct(s);
      assert r == if y in d then d else d + [y];
      forall i, j | 0 <= i < j < |r|
        ensures FirstIndex(s, r[i]) < FirstIndex(s, r[j])
      {
        assert r[i] == d[i] && d[i] in p;
        FirstIndexAppend(p, y, r[i]);
        assert FirstIndex(s, r[i]) == FirstIndex(p, d[i]) < |p|;
        if j < |d| {
          assert r[j] == d[j] && d[j] in p;
          FirstIndexAppend(p, y, r[j]);
          assert FirstIndex(s, r[j]) == FirstIndex(p, d[j]);
          assert FirstIndex(p, d[i]) < FirstIndex(p, d[j]);
        } else {
          assert r[j] == y && y !in p;
          FirstIndexAppend(p, y, y);
          assert FirstIndex(s, r[j]) == |p|;
        }
      }
    }
  }

  /** The methods named `name` declared in module `moduleName`, in
      reflection order (the Where filter of the loop). */
  function SameModuleNamed(ms: seq<MethodInfo>, name: string, moduleName: string): (r: seq<MethodInfo>)
    ensures forall m :: m in r <==> m in ms && m.name == name && m.moduleName == moduleName
    ensures r == [] <==> forall m :: m in ms ==> m.name != name || m.moduleName != moduleName
  {
    if ms == [] then []
    else
      var m := ms[|ms| - 1];
      assert ms == ms[..|ms| - 1] + [m];
      SameModuleNamed(ms[..|ms| - 1], name, moduleName)
        + (if m.name == name && m.moduleName == moduleName then [m] else [])
  }

  /** The overload group of `name`: only methods of the wrapped type's own
      module, which leaves out inherited ToString, GetHashCode and the like. */
  function Overloads(t: TypeInfo, name: string): seq<MethodInfo>
  {
    SameModuleNamed(t.methods, name, t.moduleName)
  }

  /** The group of a name holds the type's own methods of that name and
      nothing else. */
  lemma OverloadsMembers(t: TypeInfo, name: string)
    ensures forall m :: m in Overloads(t, name) <==> m in t.methods && m.name == name && m.moduleName == t.moduleName
  {
  }

  lemma SameModuleNamedSnoc(ms: seq<MethodInfo>, m: MethodInfo, name: string, moduleName: string)
    ensures SameModuleNamed(ms + [m], name, moduleName) ==
      SameModuleNamed(ms, name, moduleName) + (if m.name == name && m.moduleName == moduleName then [m] else [])
  {
    var all := ms + [m];
    assert all[..|all| - 1] == ms;
  }

  /** Methods of other modules, such as those every class inherits from
      System.Object, never change an overload group. */
  lemma ForeignMethodsIgnored(t: TypeInfo, extra: seq<MethodInfo>, name: string)
    requires forall m :: m in extra ==> m.moduleName != t.moduleName
    ensures Overloads(t.(methods := t.methods + extra), name) == Overloads(t, name)
  {
    ForeignNamedIgnored(t.methods, extra, name, t.moduleName);
  }

  lemma {:induction false} ForeignNamedIgnored(ms: seq<MethodInfo>, extra: seq<MethodInfo>, name: string, moduleName: string)
    requires forall m :: m in extra ==> m.moduleName != moduleName
    ensures SameModuleNamed(ms + extra, name, moduleName) == SameModuleNamed(ms, name, moduleName)
  {
    if extra == [] {
      assert ms + extra == ms;
    } else {
      var init, last := extra[..|extra| - 1], extra[|extra| - 1];
      assert last.moduleName != moduleName by {
        assert last in extra;
      }
      assert ms + extra == (ms + init) + [last];
      SameModuleNamedSnoc(ms + init, last, name, moduleName);
      ForeignNamedIgnored(ms, init, name, moduleName);
    }
  }

  /** The names among `ns` that have a non-empty overload group. */
  function Exposed(t: TypeInfo, ns: seq<string>): (r: seq<string>)
    ensures forall n :: n in r <==> n in ns && Overloads(t, n) != []
  {
    if ns == [] then []
    else
      var n := ns[|ns| - 1];
      assert ns == ns[..|ns| - 1] + [n];
      Exposed(t, ns[..|ns| - 1]) + (if Overloads(t, n) != [] then [n] else [])
  }

  lemma ExposedSnoc(t: TypeInfo, ns: seq<string>, n: string)
    ensures Exposed(t, ns + [n]) == Exposed(t, ns) + (if Overloads(t, n) != [] then [n] else [])
  {
    assert (ns + [n])[..|ns|] == ns;
  }

  /** Builds the wrapper of one overload group (CreateMethodSource). */
  type Builder = seq<MethodInfo> -> Result<WrapperMethod>

  /** A builder names each wrapper after its group. */
  ghost predicate NamesAfterGroup(build: Builder)
  {
    forall g: seq<MethodInfo> :: |g| > 0 && build(g).Ok? ==> build(g).value.name == g[0].name
  }

  lemma MethodSourceNamesAfterGroup()
    ensures NamesAfterGroup(MethodSource)
  {
    forall g: seq<MethodInfo> | |g| > 0 && MethodSource(g).Ok?
      ensures MethodSource(g).value.name == g[0].name
    {
    }
  }

  /** The method loop over the distinct names `ns`, each group's wrapper
      built by `build`: a name whose group is empty is skipped; otherwise
      its wrapper is emitted and the name appended; the first exception
      ends the loop. */
  function Generate(t: TypeInfo, ns: seq<string>, build: Builder): GenState
  {
    if ns == [] then GenState([], [], None)
    else
      var prev := Generate(t, ns[..|ns| - 1], build);
      var name := ns[|ns| - 1];
      var group := Overloads(t, name);
      if prev.failure.Some? || group == [] then prev
      else match build(group)
        case Err(e) => prev.(failure := Some(e))
        case Ok(w) => GenState(prev.methods + [w], prev.names + [name], None)
  }

  /** The names the loop appends are a prefix of the exposed names, all
      of them when nothing failed. */
  lemma {:induction false} GenerateNames(t: TypeInfo, ns: seq<string>, build: Builder)
    ensures var g := Generate(t, ns, build);
      && g.names <= Exposed(t, ns)
      && (g.failure.None? ==> g.names == Exposed(t, ns))
  {
    if ns != [] {
      var p, name := ns[..|ns| - 1], ns[|ns| - 1];
      GenerateNames(t, p, build);
      var group := Overloads(t, name);
      var e, ep := Exposed(t, ns), Exposed(t, p);
      assert e == ep + (if group != [] then [name] else []);
      var g, prev := Generate(t, ns, build), Generate(t, p, build);
      if prev.failure.Some? || group == [] || build(group).Err? {
        assert g.names == prev.names;
        PrefixAppend(prev.names, ep, if group != [] then [name] else []);
      }
    }
  }

  /** The i-th wrapper the loop emits carries the i-th name appended. */
  lemma {:induction false} GenerateAligned(t: TypeInfo, ns: seq<string>, build: Builder)
    requires NamesAfterGroup(build)
    ensures var g := Generate(t, ns, build);
      && |g.methods| == |g.names|
      && (forall i :: 0 <= i < |g.names| ==> g.methods[i].name == g.names[i])
  {
    if ns != [] {
      var p, name := ns[..|ns| - 1], ns[|ns| - 1];
      GenerateAligned(t, p, build);
      var group := Overloads(t, name);
      if Generate(t, p, build).failure.None? && group != [] {
        assert group[0] in group;
      }
    }
  }

  /** The loop fails only with the exception raised for the non-empty
      overload group of one of the names. */
  lemma {:induction false} GenerateFailure(t: TypeInfo, ns: seq<string>, build: Builder)
    ensures var g := Generate(t, ns, build);
      g.failure.Some? ==>
        exists n :: n in ns && Overloads(t, n) != [] && build(Overloads(t, n)) == Err(g.failure.value)
  {
    if ns != [] {
      var p, name := ns[..|ns| - 1], ns[|ns| - 1];
      GenerateFailure(t, p, build);
      var prev := Generate(t, p, build);
      if prev.failure.Some? {
        var n :| n in p && Overloads(t, n) != [] && build(Overloads(t, n)) == Err(prev.failure.value);
        assert n in ns;
      } else {
        assert name in ns;
      }
    }
  }

  /** Conversely, a name whose non-empty group the builder rejects makes
      the loop fail. */
  lemma GenerateRejects(t: TypeInfo, ns: seq<string>, build: Builder)
    requires exists n :: n in ns && Overloads(t, n) != [] && build(Overloads(t, n)).Err?
    ensures Generate(t, ns, build).failure.Some?
  {
    var n :| n in ns && Overloads(t, n) != [] && build(Overloads(t, n)).Err?;
    var k :| 0 <= k < |ns| && ns[k] == n;
    if Generate(t, ns[..k], build).failure.Some? {
      GenerateStops(t, ns, k, build);
    } else {
      GenerateFails(t, ns, k, build);
    }
  }

  lemma OrderPrefix(ns: seq<string>, k: nat, s: seq<string>)
    requires k <= |ns| && InFirstAppearanceOrder(ns, s)
    ensures InFirstAppearanceOrder(ns[..k], s)
  {
    forall i, j | 0 <= i < j < k
      ensures FirstIndex(s, ns[..k][i]) < FirstIndex(s, ns[..k][j])
    {
      assert ns[..k][i] == ns[i] && ns[..k][j] == ns[j];
    }
  }

  /** Appending the last name of an ordered list to an ordered selection
      of its earlier names keeps the selection ordered. */
  lemma OrderAppend(e: seq<string>, p: seq<string>, n: string, s: seq<string>)
    requires InFirstAppearanceOrder(e, s) && InFirstAppearanceOrder(p + [n], s)
    requires forall x :: x in e ==> x in p
    ensures InFirstAppearanceOrder(e + [n], s)
  {
    var q := p + [n];
    forall i, j | 0 <= i < j < |e| + 1
      ensures FirstIndex(s, (e + [n])[i]) < FirstIndex(s, (e + [n])[j])
    {
      if j == |e| {
        assert e[i] in p;
        var k :| 0 <= k < |p| && p[k] == e[i];
        assert q[k] == e[i] && q[|p|] == n;
      }
    }
  }

  /** Exposed only drops names, so it keeps the order of its input. */
  lemma {:induction false} ExposedKeepsOrder(t: TypeInfo, ns: seq<string>, s: seq<string>)
    requires InFirstAppearanceOrder(ns, s)
    ensures InFirstAppearanceOrder(Exposed(t, ns), s)
  {
    if ns != [] {
      var p, n := ns[..|ns| - 1], ns[|ns| - 1];
      OrderPrefix(ns, |ns| - 1, s);
      ExposedKeepsOrder(t, p, s);
      if Overloads(t, n) != [] {
        assert ns == p + [n];
        OrderAppend(Exposed(t, p), p, n, s);
      }
    }
  }

  /** A name is exposed exactly when an own-module method carries it. */
  lemma ExposedMembership(t: TypeInfo, n: string)
    ensures n in Exposed(t, Distinct(NamesOf(t.methods)))
      <==> exists m :: m in t.methods && m.name == n && m.moduleName == t.moduleName
  {
    var all := NamesOf(t.methods);
    if n in Exposed(t, Distinct(all)) {
      var m := Overloads(t, n)[0];
      assert m in Overloads(t, n);
    }
    if m :| m in t.methods && m.name == n && m.moduleName == t.moduleName {
      var k :| 0 <= k < |t.methods| && t.methods[k] == m;
      assert all[k] == n;
      assert m in Overloads(t, n);
    }
  }

  /** The wrapped names: each own-module method name exactly once, no
      other name, in order of first appearance among the type's methods. */
  lemma ExposedMethodNames(t: TypeInfo)
    ensures var e := Exposed(t, Distinct(NamesOf(t.methods)));
      && (forall n :: n in e <==> exists m :: m in t.methods && m.name == n && m.moduleName == t.moduleName)
      && (forall i, j :: 0 <= i < j < |e| ==> e[i] != e[j])
      && InFirstAppearanceOrder(e, NamesOf(t.methods))
  {
    var all := NamesOf(t.methods);
    var e := Exposed(t, Distinct(all));
    DistinctOrder(all);
    ExposedKeepsOrder(t, Distinct(all), all);
    forall n
      ensures n in e <==> exists m :: m in t.methods && m.name == n && m.moduleName == t.moduleName
    {
      ExposedMembership(t, n);
    }
    forall i, j | 0 <= i < j < |e|
      ensures e[i] != e[j]
    {
      assert FirstIndex(all, e[i]) < FirstIndex(all, e[j]);
    }
  }

  /** The generator object; MethodNames lists, in order, the names for
      which a wrapper was generated (read back through GetMethods). */
  class CodeGen {
    var MethodNames: seq<string>

    constructor()
      ensures MethodNames == []
    {
      MethodNames := [];
    }

    /** Generates the wrapper class source for `t`: one wrapper per distinct
        own-module method name. Names are appended to MethodNames as their
        wrapper is generated; when a group is rejected the exception
        propagates and the names appended before it stay. */
    method BuildServiceCode(t: TypeInfo) returns (r: Result<ServiceSource>)
      modifies this
      ensures var g := Generate(t, Distinct(NamesOf(t.methods)), MethodSource);
        && MethodNames == old(MethodNames) + g.names
        && r == (if g.failure.Some? then Err(g.failure.value) else Ok(ServiceShell(t, g.methods)))
    {
      var names := Distinct(NamesOf(t.methods));
      var members, failure := WrapAll(t, names);
      if failure.Some? {
        return Err(failure.value);
      }
      r := Ok(ServiceShell(t, members));
    }

    /** The loop over the distinct method names: wraps each name's group,
        appending the name to MethodNames, until a group is rejected. */
    method WrapAll(t: TypeInfo, names: seq<string>) returns (members: seq<WrapperMethod>, failure: Option<Exception>)
      modifies this
      ensures var g := Generate(t, names, MethodSource);
        && MethodNames == old(MethodNames) + g.names
        && failure == g.failure
        && (failure.None? ==> members == g.methods)
    {
      ghost var start := MethodNames;
      ghost var g := GenState([], [], None);
      assert names[..0] == [];
      members := [];
      var i := 0;
      while i < |names|
        invariant 0 <= i <= |names|
        invariant g == Generate(t, names[..i], MethodSource) && g.failure.None?
        invariant members == g.methods && MethodNames == start + g.names
      {
        var name := names[i];
        var wrapped := WrapGroup(t, name);
        GenerateRound(t, names, i, MethodSource);
        match wrapped {
          case None =>
          case Some(source) =>
            if source.Err? {
              return members, Some(source.error);
            }
            members := members + [source.value];
            AppendOne(start, g.names, name);
            MethodNames := MethodNames + [name];
        }
        g := Generate(t, names[..i + 1], MethodSource);
        i := i + 1;
      }
      assert names[..i] == names;
      failure := None;
    }
  }

  /** A prefix of a sequence is a prefix of any extension of it. */
  lemma PrefixAppend(a: seq<string>, b: seq<string>, c: seq<string>)
    requires a <= b
    ensures a <= b + c
  {
    assert (b + c)[..|a|] == b[..|a|];
  }

  /** Appending a name after a run of appended names. */
  lemma AppendOne(start: seq<string>, names: seq<string>, name: string)
    ensures (start + names) + [name] == start + (names + [name])
  {
  }

  /** One more round of the loop, as long as nothing has failed yet, by
      the group's shape and the builder's outcome. The inductive lemmas
      about Generate unfold a round this way; GenerateRound restates it for
      the loop of WrapAll, which only sees WrapGroup's outcome. */
  lemma GenerateStep(t: TypeInfo, ns: seq<string>, i: nat, build: Builder)
    requires i < |ns| && Generate(t, ns[..i], build).failure.None?
    ensures var prev, group := Generate(t, ns[..i], build), Overloads(t, ns[i]);
      var next := Generate(t, ns[..i + 1], build);
      && (group == [] ==> next == prev)
      && (group != [] && build(group).Ok? ==>
            next == GenState(prev.methods + [build(group).value], prev.names + [ns[i]], None))
      && (group != [] && build(group).Err? ==>
            next == GenState(prev.methods, prev.names, Some(build(group).error)))
  {
    var prefix := ns[..i + 1];
    assert prefix[..|prefix| - 1] == ns[..i];
    assert prefix[|prefix| - 1] == ns[i];
  }

  /** The group of `name` run through `build`; None when it is empty. */
  function Wrap(t: TypeInfo, name: string, build: Builder): Option<Result<WrapperMethod>>
  {
    var group := Overloads(t, name);
    if group == [] then None else Some(build(group))
  }

  /** One round of the loop by its outcome: an empty group is skipped, a
      built wrapper is appended with its name, and an exception ends the
      whole loop, keeping what was appended before. */
  lemma GenerateRound(t: TypeInfo, ns: seq<string>, i: nat, build: Builder)
    requires i < |ns| && Generate(t, ns[..i], build).failure.None?
    ensures var prev, wrapped := Generate(t, ns[..i], build), Wrap(t, ns[i], build);
      && (wrapped.None? ==> Generate(t, ns[..i + 1], build) == prev)
      && (wrapped.Some? && wrapped.value.Ok? ==>
            Generate(t, ns[..i + 1], build) == GenState(prev.methods + [wrapped.value.value], prev.names + [ns[i]], None))
      && (wrapped.Some? && wrapped.value.Err? ==>
            Generate(t, ns, build) == GenState(prev.methods, prev.names, Some(wrapped.value.error)))
  {
    GenerateStep(t, ns, i, build);
    if Wrap(t, ns[i], build).Some? && Wrap(t, ns[i], build).value.Err? {
      GenerateStops(t, ns, i + 1, build);
    }
  }

  /** A group whose wrapper cannot be built ends the loop with its
      exception, keeping the names appended before it. */
  lemma GenerateFails(t: TypeInfo, ns: seq<string>, i: nat, build: Builder)
    requires i < |ns| && Generate(t, ns[..i], build).failure.None?
    requires Overloads(t, ns[i]) != [] && build(Overloads(t, ns[i])).Err?
    ensures var g, prev := Generate(t, ns, build), Generate(t, ns[..i], build);
      g.failure == Some(build(Overloads(t, ns[i])).error) && g.names == prev.names
  {
    GenerateStep(t, ns, i, build);
    GenerateStops(t, ns, i + 1, build);
  }

  /** Once the loop has failed, later names change nothing. */
  lemma {:induction false} GenerateStops(t: TypeInfo, ns: seq<string>, k: nat, build: Builder)
    requires k <= |ns|
    requires Generate(t, ns[..k], build).failure.Some?
    ensures Generate(t, ns, build) == Generate(t, ns[..k], build)
    decreases |ns| - k
  {
    if k < |ns| {
      assert ns[..k + 1][..k] == ns[..k];
      GenerateStops(t, ns, k + 1, build);
    } else {
      assert ns[..k] == ns;
    }
  }
}
