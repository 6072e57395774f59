/** The reflection data the generators inspect (System.Type, MethodInfo,
    ParameterInfo), reduced to plain values. A module is identified by its
    name; two types live in the same module exactly when the names agree. */
module Reflection {
  import opened Wrappers

  /** One declared parameter: its name, its type's short name (Type.Name)
      and the name of the module that declares that type. */
  datatype ParamInfo = ParamInfo(name: string, typeName: string, typeModule: string)

  /** One public method as Type.GetMethods() reports it. */
  datatype MethodInfo = MethodInfo(
    name: string,
    returnTypeName: string,
    moduleName: string,
    params: seq<ParamInfo>)

  /** The type being wrapped: its short name, namespace, module, and every
      public method (own and inherited) in reflection order. */
  datatype TypeInfo = TypeInfo(
    name: string,
    namespace: string,
    moduleName: string,
    methods: seq<MethodInfo>)

  /** A method returns nothing when its return type's short name is "Void". */
  predicate IsVoid(m: MethodInfo) {
    m.returnTypeName == "Void"
  }

  /** The switch both generators' ConvertSelect share: the short type names
      recognised as primitives and the System.Convert method for each. */
  const ConvertMethods: seq<(string, string)> := [
    ("Int32", "ToInt32"),
    ("Int64", "ToInt64"),
    ("decimal", "ToDecimal"),
    ("Decimal", "ToDecimal"),
    ("String", "ToString"),
    ("string", "ToString"),
    ("DateTime", "ToDateTime")
  ]

  /** The converter of the first table entry whose type name is `typeName`. */
  function Lookup(table: seq<(string, string)>, typeName: string): (r: Option<string>)
    ensures r.Some? <==> exists k :: 0 <= k < |table| && table[k].0 == typeName
  {
    if table == [] then None
    else if table[0].0 == typeName then Some(table[0].1)
    else Lookup(table[1..], typeName)
  }

  /** The System.Convert method for a primitive type name, if it is one. */
  function PrimitiveConverter(typeName: string): Option<string>
  {
    Lookup(ConvertMethods, typeName)
  }

  predicate IsPrimitiveName(typeName: string)
  {
    PrimitiveConverter(typeName).Some?
  }

  /** The switch spelled out: exactly seven type names are primitive. */
  lemma {:induction false} PrimitiveConverterTable(typeName: string)
    ensures typeName == "Int32" ==> PrimitiveConverter(typeName) == Some("ToInt32")
    ensures typeName == "Int64" ==> PrimitiveConverter(typeName) == Some("ToInt64")
    ensures typeName == "decimal" || typeName == "Decimal" ==> PrimitiveConverter(typeName) == Some("ToDecimal")
    ensures typeName == "String" || typeName == "string" ==> PrimitiveConverter(typeName) == Some("ToString")
    ensures typeName == "DateTime" ==> PrimitiveConverter(typeName) == Some("ToDateTime")
    ensures IsPrimitiveName(typeName) <==>
      typeName in {"Int32", "Int64", "decimal", "Decimal", "String", "string", "DateTime"}
  {
    var t := ConvertMethods;
    assert t[1..][1..][1..][1..][1..][1..][1..] == [];
  }

  /** Names of `ms`, in order, with repetitions (Select(x => x.Name)). */
  function NamesOf(ms: seq<MethodInfo>): (r: seq<string>)
    ensures |r| == |ms|
    ensures forall i :: 0 <= i < |ms| ==> r[i] == ms[i].name
  {
    if ms == [] then [] else NamesOf(ms[..|ms| - 1]) + [ms[|ms| - 1].name]
  }
}
