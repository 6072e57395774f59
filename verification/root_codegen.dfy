/** The older wrapper generator, CodeGen.cs at the repository root: one
    wrapper per own-module method (overloads are not grouped), a converter
    selection that throws on any non-primitive parameter type, and void
    methods that ignore their parameters. */
module RootCodeGen {
  import opened Wrappers
  import opened Reflection
  import opened Text
  import opened WrapperText
  import RestCodeGen

  /** The converter switch: a System.Convert method for the five primitive
      types, an exception naming the type for every other one. */
  function ConvertSelect(typeName: string): (r: Result<string>)
    ensures r.Ok? <==> IsPrimitiveName(typeName)
    ensures r.Ok? ==> PrimitiveConverter(typeName) == Some(r.value)
    ensures r.Err? ==> r.error == Exception(UnsupportedType(typeName))
  {
    match PrimitiveConverter(typeName)
    case Some(conv) => Ok(conv)
    case None => Err(Exception(UnsupportedType(typeName)))
  }

  /** Position of the first parameter whose type has no converter; |ps| when
      every type has one. */
  function FirstUnsupported(ps: seq<ParamInfo>): (i: nat)
    ensures i <= |ps|
    ensures forall k :: 0 <= k < i ==> IsPrimitiveName(ps[k].typeName)
    ensures i < |ps| ==> !IsPrimitiveName(ps[i].typeName)
  {
    if ps == [] then 0
    else if !IsPrimitiveName(ps[0].typeName) then 0
    else 1 + FirstUnsupported(ps[1..])
  }

  predicate AllSupported(ps: seq<ParamInfo>)
  {
    forall k :: 0 <= k < |ps| ==> IsPrimitiveName(ps[k].typeName)
  }

  /** One argument expression per parameter, all types being supported. */
  function Converted(ps: seq<ParamInfo>): seq<string>
    requires AllSupported(ps)
  {
    seq(|ps|, k requires 0 <= k < |ps| => ArgText(ps[k], PrimitiveConverter(ps[k].typeName).value))
  }

  /** The argument expressions, or the exception of the first parameter in
      declaration order whose type is not supported. */
  function ArgTexts(ps: seq<ParamInfo>): (r: Result<seq<string>>)
    ensures r.Ok? <==> AllSupported(ps)
    ensures r.Err? ==>
      exists k :: 0 <= k < |ps| && !IsPrimitiveName(ps[k].typeName)
        && (forall j :: 0 <= j < k ==> IsPrimitiveName(ps[j].typeName))
        && r.error == Exception(UnsupportedType(ps[k].typeName))
  {
    var i := FirstUnsupported(ps);
    if i < |ps| then Err(Exception(UnsupportedType(ps[i].typeName)))
    else Ok(Converted(ps))
  }

  /** The call statement of a void method: its parameters are not passed. */
  function VoidCallStatement(name: string): string
  {
    VoidCall + name + "();"
  }

  /** The wrapper generated for one method. A non-void method gets the
      serialized call on its converted arguments; a void method gets the
      argument-less call followed by the success sentinel. */
  function MethodSource(v: MethodInfo): (r: Result<WrapperMethod>)
    ensures r.Ok? <==> IsVoid(v) || AllSupported(v.params)
    ensures r.Ok? ==> r.value.name == v.name
    ensures r.Ok? ==> |r.value.statements| == if IsVoid(v) then 2 else 1
  {
    if IsVoid(v) then Ok(WrapperMethod(v.name, [VoidCallStatement(v.name), SuccessReturn]))
    else match ArgTexts(v.params)
      case Err(e) => Err(e)
      case Ok(args) => Ok(WrapperMethod(v.name, [SerializeCall + v.name + "(" + Join(args, ",") + "));"]))
  }

  /** Both generators select the same converter for the primitive types;
      where the newer one falls back to the JSON converter, this one throws. */
  lemma ConvertSelectAgrees(typeName: string)
    ensures ConvertSelect(typeName).Ok? ==> ConvertSelect(typeName).value == RestCodeGen.ConvertSelect(typeName)
    ensures ConvertSelect(typeName).Err? <==>
      RestCodeGen.ConvertSelect(typeName) == "JsonConvert.DerializeObject<" + typeName + ">"
  {
    if PrimitiveConverter(typeName).Some? {
      PrimitiveConverterTable(typeName);
    }
  }

  /** Every statement this generator emits has balanced parentheses, as
      long as the names involved contain none. */
  lemma RootStatementBalanced(v: MethodInfo)
    requires PlainMethod(v) && MethodSource(v).Ok?
    ensures forall s :: s in MethodSource(v).value.statements ==> CloseSurplus(s) == 0
  {
    if IsVoid(v) {
      VoidStatementsBalanced(v.name);
    } else {
      CallStatementBalanced(v);
    }
  }

  lemma VoidStatementsBalanced(name: string)
    requires Plain(name)
    ensures CloseSurplus(VoidCallStatement(name)) == 0 && CloseSurplus(SuccessReturn) == 0
  {
    assert VoidCallStatement(name) == VoidCall + name + "(" + ")" + ";";
    SurplusOpen();
    SurplusClose();
    Parenless(VoidCall);
    Parenless(name);
    Parenless(";");
    Parenless("");
    SurplusSum(VoidCall, name, "(", ")", ";", "");
    assert VoidCall + name + "(" + ")" + ";" + "" == VoidCallStatement(name);
    SentinelBalanced();
  }

  lemma CallStatementBalanced(v: MethodInfo)
    requires PlainMethod(v) && !IsVoid(v) && AllSupported(v.params)
    ensures CloseSurplus(SerializeCall + v.name + "(" + Join(Converted(v.params), ",") + "));") == 0
  {
    var args := Converted(v.params);
    forall k | 0 <= k < |args|
      ensures CloseSurplus(args[k]) == 0
    {
      ConverterNamesPlain(v.params[k].typeName);
      ArgTextPlain(v.params[k], PrimitiveConverter(v.params[k].typeName).value);
    }
    JoinBalanced(args);
    CallPrefixSurplus(v);
    CloserSurplus();
    SurplusOpen();
    Parenless(v.name);
    Parenless("");
    SurplusSum(SerializeCall, v.name, "(", Join(args, ","), "));", "");
    assert SerializeCall + v.name + "(" + Join(args, ",") + "));" + "" == SerializeCall + v.name + "(" + Join(args, ",") + "));";
  }

  lemma {:induction false} FirstUnsupportedAt(ps: seq<ParamInfo>, i: nat)
    requires i < |ps| && AllSupported(ps[..i]) && !IsPrimitiveName(ps[i].typeName)
    ensures FirstUnsupported(ps) == i
  {
    if i > 0 {
      var rest, j := ps[1..], i - 1;
      assert AllSupported(rest[..j]) by {
        assert forall k :: 0 <= k < j ==> rest[..j][k] == ps[..i][k + 1];
      }
      assert IsPrimitiveName(ps[0].typeName) by {
        assert ps[..i][0] == ps[0];
      }
      FirstUnsupportedAt(rest, j);
    }
  }

  /** The exception ArgTexts reports is the one of the first unsupported
      parameter. */
  lemma ArgTextsStopAt(ps: seq<ParamInfo>, i: nat)
    requires i < |ps| && AllSupported(ps[..i]) && !IsPrimitiveName(ps[i].typeName)
    ensures ArgTexts(ps) == Err(Exception(UnsupportedType(ps[i].typeName)))
  {
    FirstUnsupportedAt(ps, i);
  }

  lemma ConvertedSnoc(ps: seq<ParamInfo>, i: nat)
    requires i < |ps| && AllSupported(ps[..i]) && IsPrimitiveName(ps[i].typeName)
    ensures AllSupported(ps[..i + 1])
    ensures Converted(ps[..i + 1]) == Converted(ps[..i]) + [ArgText(ps[i], PrimitiveConverter(ps[i].typeName).value)]
  {
    assert forall k :: 0 <= k < i ==> ps[..i + 1][k] == ps[..i][k];
  }

  /** Appends each converted argument and a comma, converting in declaration
      order and stopping at the first unsupported type, then cuts off the
      last comma. */
  method AppendArguments(sb: string, ps: seq<ParamInfo>) returns (r: Result<string>)
    ensures r.Ok? <==> AllSupported(ps)
    ensures r.Ok? ==> r.value == sb + Join(Converted(ps), ",")
    ensures r.Err? ==> r == Err(ArgTexts(ps).error)
  {
    var out := sb;
    ghost var args: seq<string> := [];
    var i := 0;
    assert ps[..0] == [];
    while i < |ps|
      invariant 0 <= i <= |ps|
      invariant AllSupported(ps[..i]) && args == Converted(ps[..i])
      invariant out == sb + Terminated(args, ",")
    {
      var conv := ConvertSelect(ps[i].typeName);
      if conv.Err? {
        ArgTextsStopAt(ps, i);
        return Err(conv.error);
      }
      ConvertedSnoc(ps, i);
      TerminatedSnoc(sb, args, ArgText(ps[i], conv.value), ",");
      out := out + ArgText(ps[i], conv.value) + ",";
      args := args + [ArgText(ps[i], conv.value)];
      i := i + 1;
    }
    assert ps[..i] == ps;
    if |ps| > 0 {
      ChewLast(sb, args, ',');
      out := out[..|out| - 1];
    }
    r := Ok(out);
  }

  /** Builds the statements of one wrapper. */
  method CreateMethodSource(v: MethodInfo) returns (r: Result<WrapperMethod>)
    ensures r == MethodSource(v)
  {
    var name := v.name;
    if !IsVoid(v) {
      var sb := SerializeCall + name + "(";
      var args := AppendArguments(sb, v.params);
      if args.Err? {
        return Err(args.error);
      }
      r := Ok(WrapperMethod(name, [args.value + "));"]));
    } else {
      var call := VoidCall + name + "();";
      r := Ok(WrapperMethod(name, [call, SuccessReturn]));
    }
  }

  // ---------------------------------------------------------------------
  // The method loop
  // ---------------------------------------------------------------------

  /** The loop over the type's methods `ms`: methods of other modules are
      skipped; every other one gets its wrapper and its name appended, so
      overloads repeat a name; the first exception ends the loop. */
  function Generate(t: TypeInfo, ms: seq<MethodInfo>): GenState
  {
    if ms == [] then GenState([], [], None)
    else
      var prev := Generate(t, ms[..|ms| - 1]);
      var v := ms[|ms| - 1];
      if prev.failure.Some? || v.moduleName != t.moduleName then prev
      else match MethodSource(v)
        case Err(e) => prev.(failure := Some(e))
        case Ok(w) => GenState(prev.methods + [w], prev.names + [v.name], None)
  }

  /** The names of the own-module methods among `ms`, in order, repeats kept. */
  function OwnNames(t: TypeInfo, ms: seq<MethodInfo>): (r: seq<string>)
    ensures forall n :: n in r <==> exists m :: m in ms && m.moduleName == t.moduleName && m.name == n
  {
    if ms == [] then []
    else
      var v := ms[|ms| - 1];
      assert ms == ms[..|ms| - 1] + [v];
      OwnNames(t, ms[..|ms| - 1]) + (if v.moduleName == t.moduleName then [v.name] else [])
  }

  /** A method the loop cannot wrap: an own-module method that returns a
      value and has a parameter of unsupported type. */
  predicate Unwrappable(t: TypeInfo, m: MethodInfo)
  {
    m.moduleName == t.moduleName && !IsVoid(m) && !AllSupported(m.params)
  }

  /** The names appended are a prefix of the own-module names, all of them
      when nothing failed; the i-th wrapper carries the i-th name. */
  lemma {:induction false} GenerateNames(t: TypeInfo, ms: seq<MethodInfo>)
    ensures var g := Generate(t, ms);
      && g.names <= OwnNames(t, ms)
      && (g.failure.None? ==> g.names == OwnNames(t, ms))
      && |g.methods| == |g.names|
      && (forall i :: 0 <= i < |g.names| ==> g.methods[i].name == g.names[i])
  {
    if ms != [] {
      var p, v := ms[..|ms| - 1], ms[|ms| - 1];
      GenerateNames(t, p);
      var own, ownP := OwnNames(t, ms), OwnNames(t, p);
      assert own == ownP + (if v.moduleName == t.moduleName then [v.name] else []);
      var g, prev := Generate(t, ms), Generate(t, p);
      if prev.failure.Some? || v.moduleName != t.moduleName || MethodSource(v).Err? {
        assert g.names == prev.names == ownP[..|prev.names|] == own[..|prev.names|];
      }
    }
  }

  /** The loop fails exactly when some own-module method is unwrappable, and
      then with the exception of its first unsupported parameter; in
      particular void methods never make it fail. */
  lemma {:induction false} GenerateFailure(t: TypeInfo, ms: seq<MethodInfo>)
    ensures var g := Generate(t, ms);
      && (g.failure.Some? <==> exists m :: m in ms && Unwrappable(t, m))
      && (g.failure.Some? ==> exists m :: m in ms && Unwrappable(t, m) && ArgTexts(m.params) == Err(g.failure.value))
  {
    if ms != [] {
      var p, v := ms[..|ms| - 1], ms[|ms| - 1];
      assert ms == p + [v];
      GenerateFailure(t, p);
      var prev := Generate(t, p);
      if prev.failure.Some? {
        var m :| m in p && Unwrappable(t, m) && ArgTexts(m.params) == Err(prev.failure.value);
        assert m in ms;
      } else if Unwrappable(t, v) {
        assert v in ms;
      }
    }
  }

  /** The older generator's object; MethodNames lists, in order and with
      repeats for overloads, the names of the methods wrapped so far. */
  class CodeGen {
    var MethodNames: seq<string>

    constructor()
      ensures MethodNames == []
    {
      MethodNames := [];
    }

    /** Generates the wrapper class source for `t`, one wrapper per
        own-module method; the names of the methods wrapped before an
        exception stay appended. */
    method BuildServiceCode(t: TypeInfo) returns (r: Result<ServiceSource>)
      modifies this
      ensures var g := Generate(t, t.methods);
        && MethodNames == old(MethodNames) + g.names
        && r == (if g.failure.Some? then Err(g.failure.value) else Ok(ServiceShell(t, g.methods)))
    {
      ghost var start := MethodNames;
      ghost var g := GenState([], [], None);
      var ms := t.methods;
      var members: seq<WrapperMethod> := [];
      var i := 0;
      assert ms[..0] == [];
      while i < |ms|
        invariant 0 <= i <= |ms|
        invariant g == Generate(t, ms[..i]) && g.failure.None?
        invariant members == g.methods && MethodNames == start + g.names
      {
        var v := ms[i];
        GenerateStep(t, ms, i);
        if v.moduleName == t.moduleName {
          var source := CreateMethodSource(v);
          if source.Err? {
            GenerateStops(t, ms, i + 1);
            return Err(source.error);
          }
          members := members + [source.value];
          MethodNames := MethodNames + [v.name];
          g := GenState(g.methods + [source.value], g.names + [v.name], None);
        }
        i := i + 1;
      }
      assert ms[..i] == ms;
      r := Ok(ServiceShell(t, members));
    }
  }

  /** One more round of the loop, as long as nothing has failed yet. */
  lemma GenerateStep(t: TypeInfo, ms: seq<MethodInfo>, i: nat)
    requires i < |ms| && Generate(t, ms[..i]).failure.None?
    ensures var prev, v := Generate(t, ms[..i]), ms[i];
      var next := Generate(t, ms[..i + 1]);
      && (v.moduleName != t.moduleName ==> next == prev)
      && (v.moduleName == t.moduleName && MethodSource(v).Ok? ==>
            next == GenState(prev.methods + [MethodSource(v).value], prev.names + [v.name], None))
      && (v.moduleName == t.moduleName && MethodSource(v).Err? ==>
            next == GenState(prev.methods, prev.names, Some(MethodSource(v).error)))
  {
    var prefix := ms[..i + 1];
    assert prefix[..|prefix| - 1] == ms[..i];
    assert prefix[|prefix| - 1] == ms[i];
  }

  /** Once the loop has failed, later methods change nothing. */
  lemma {:induction false} GenerateStops(t: TypeInfo, ms: seq<MethodInfo>, k: nat)
    requires k <= |ms|
    requires Generate(t, ms[..k]).failure.Some?
    ensures Generate(t, ms) == Generate(t, ms[..k])
    decreases |ms| - k
  {
    if k < |ms| {
      assert ms[..k + 1][..k] == ms[..k];
      GenerateStops(t, ms, k + 1);
    } else {
      assert ms[..k] == ms;
    }
  }
}
