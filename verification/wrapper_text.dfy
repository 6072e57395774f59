/** Text fragments and output shapes shared by the two wrapper generators
    (RestServiceProvider/CodeGen.cs and the older CodeGen.cs). */
module WrapperText {
  import opened Wrappers
  import opened Reflection
  import opened Text

  // Fragments that hold parentheses are written as concatenations that
  // set each parenthesis apart, so that their balance adds up piece by piece.

  /** Opening of a call whose result is serialized and returned:
      ` return JsonConvert.SerializeObject(c.`. */
  const SerializeCall: string := " return JsonConvert.SerializeObject" + "(" + "c."
  /** Opening of a call to a void method. */
  const VoidCall: string := "c."
  /** The fixed success sentinel a void wrapper returns. */
  const SuccessReturn: string := "return \"Call success, no return value\";"

  /** How the call to `m` opens, depending on whether it returns a value. */
  function CallPrefix(m: MethodInfo): string
  {
    if IsVoid(m) then VoidCall else SerializeCall
  }

  /** The argument expression for parameter `p` under converter `conv`:
      the raw string is fetched from the parameter dictionary and converted. */
  function ArgText(p: ParamInfo, conv: string): string
  {
    "Convert." + conv + ArgOpen + p.name + ArgClose
  }

  /** The text around the parameter name in an argument expression:
      `(parameters.GetValueOrDefault("` and `"))`. */
  const ArgOpen: string := "(" + "parameters.GetValueOrDefault" + "(" + "\""
  const ArgClose: string := "\"" + ")" + ")"

  /** One generated wrapper: `public string <name>(Dictionary<string,string>
      parameters, string body) { <statements> }`. */
  datatype WrapperMethod = WrapperMethod(name: string, statements: seq<string>)

  /** The generated compilation unit, minus its rendering: the usings, the
      namespace and class names, the constructor's cast statement, the type
      of the wrapped-instance field `c`, and the wrapper methods. */
  datatype ServiceSource = ServiceSource(
    usings: seq<string>,
    namespaceName: string,
    className: string,
    constructorStatement: string,
    instanceFieldType: string,
    methods: seq<WrapperMethod>)

  /** The fixed part of the generated source for type `t` around `methods`. */
  function ServiceShell(t: TypeInfo, methods: seq<WrapperMethod>): (r: ServiceSource)
    ensures r.namespaceName == t.name + "RestService"
    ensures r.className == t.name + "ServiceProvider"
    ensures r.methods == methods
  {
    ServiceSource(
      ["System", "System.Linq", "System.Threading.Tasks", "System.Collections",
       "Newtonsoft.Json", "System.Collections.Generic", t.namespace],
      t.name + "RestService",
      t.name + "ServiceProvider",
      "c=(" + t.namespace + "." + t.name + ")o;",
      t.namespace + "." + t.name,
      methods)
  }

  /** Progress of a generator's method loop: the wrappers emitted so far,
      the names appended to MethodNames so far, and the exception that
      stopped the loop, if any. */
  datatype GenState = GenState(
    methods: seq<WrapperMethod>,
    names: seq<string>,
    failure: Option<Exception>)

  // ---------------------------------------------------------------------
  // Parentheses and commas in the fragments
  // ---------------------------------------------------------------------

  /** A name as reflection reports it: no parentheses and no commas. */
  predicate Plain(s: string)
  {
    '(' !in s && ')' !in s && ',' !in s
  }

  predicate PlainParams(ps: seq<ParamInfo>)
  {
    forall k :: 0 <= k < |ps| ==> Plain(ps[k].name) && Plain(ps[k].typeName)
  }

  predicate PlainMethod(m: MethodInfo)
  {
    Plain(m.name) && PlainParams(m.params)
  }

  lemma ConverterNamesPlain(typeName: string)
    requires IsPrimitiveName(typeName)
    ensures Plain(PrimitiveConverter(typeName).value)
  {
    PrimitiveConverterTable(typeName);
    var conv := PrimitiveConverter(typeName).value;
    assert conv in ["ToInt32", "ToInt64", "ToDecimal", "ToString", "ToDateTime"];
    ConvertersPlain(conv);
  }

  lemma ConvertersPlain(conv: string)
    requires conv in ["ToInt32", "ToInt64", "ToDecimal", "ToString", "ToDateTime"]
    ensures Plain(conv)
  {
  }

  lemma OpenArgSurplus()
    ensures CloseSurplus(ArgOpen) == -2
  {
    SurplusOpen();
    Parenless("parameters.GetValueOrDefault");
    Parenless("\"");
    Surplus4("(", "parameters.GetValueOrDefault", "(", "\"");
  }

  lemma CloseArgSurplus()
    ensures CloseSurplus(ArgClose) == 2
  {
    SurplusClose();
    Parenless("\"");
    Surplus3("\"", ")", ")");
  }

  lemma ArgTextCommaFree(p: ParamInfo, conv: string)
    requires Plain(p.name) && Plain(conv)
    ensures ',' !in ArgText(p, conv)
  {
    assert ',' !in "Convert." && ',' !in ArgOpen && ',' !in ArgClose;
  }

  lemma ArgTextPlain(p: ParamInfo, conv: string)
    requires Plain(p.name) && Plain(conv)
    ensures ',' !in ArgText(p, conv)
    ensures CloseSurplus(ArgText(p, conv)) == 0
  {
    ArgTextCommaFree(p, conv);
    OpenArgSurplus();
    CloseArgSurplus();
    Parenless("Convert.");
    Parenless(conv);
    Parenless(p.name);
    Surplus5("Convert.", conv, ArgOpen, p.name, ArgClose);
  }

  lemma SerializeCallSurplus()
    ensures CloseSurplus(SerializeCall) == -1
  {
    SurplusOpen();
    Parenless(" return JsonConvert.SerializeObject");
    Parenless("c.");
    Surplus3(" return JsonConvert.SerializeObject", "(", "c.");
  }

  lemma CallPrefixSurplus(m: MethodInfo)
    ensures CloseSurplus(CallPrefix(m)) == if IsVoid(m) then 0 else -1
  {
    if IsVoid(m) {
      Parenless(VoidCall);
    } else {
      SerializeCallSurplus();
    }
  }

  lemma CloserSurplus()
    ensures CloseSurplus("));") == 2
  {
    assert "));" == ")" + ")" + ";";
    SurplusClose();
    Parenless(";");
    SurplusConcat(")", ")");
    SurplusConcat(")" + ")", ";");
  }

  lemma SentinelBalanced()
    ensures CloseSurplus(SuccessReturn) == 0
  {
    Parenless(SuccessReturn);
  }
}
