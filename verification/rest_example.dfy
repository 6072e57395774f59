/** The example service of ExampleService/TestClass.cs run through the
    wrapper generator of RestServiceProvider/CodeGen.cs: GetTrade takes a
    DateTime from the query, and the two Instrument overloads share one
    wrapper whose body branch takes an Instrument. */
module RestExample {
  import opened Wrappers
  import opened Reflection
  import opened WrapperText
  import opened RestCodeGen

  const ServiceModule: string := "ExampleService.dll"
  const CoreModule: string := "System.Private.CoreLib.dll"

  const GetTrade: MethodInfo :=
    MethodInfo("GetTrade", "Trade", ServiceModule, [ParamInfo("TradeDate", "DateTime", CoreModule)])
  const InstrumentBySymbol: MethodInfo :=
    MethodInfo("Instrument", "Instrument", ServiceModule, [ParamInfo("Symbol", "String", CoreModule)])
  const InstrumentByValue: MethodInfo :=
    MethodInfo("Instrument", "Instrument", ServiceModule, [ParamInfo("i", "Instrument", ServiceModule)])
  /** One of the four methods every class inherits from System.Object; it
      stands for all of them (OtherInheritedIgnored). */
  const Inherited: MethodInfo := MethodInfo("ToString", "String", CoreModule, [])

  /** The other three methods inherited from System.Object. */
  const OtherInherited: seq<MethodInfo> := [
    MethodInfo("Equals", "Boolean", CoreModule, [ParamInfo("obj", "Object", CoreModule)]),
    MethodInfo("GetHashCode", "Int32", CoreModule, []),
    MethodInfo("GetType", "Type", CoreModule, [])
  ]

  const TestService: TypeInfo :=
    TypeInfo("TestService", "ExampleService", ServiceModule,
      [GetTrade, InstrumentBySymbol, InstrumentByValue, Inherited])

  /** Adding the other inherited methods changes no overload group, so no
      wrapper: they belong to the core library's module, like ToString. */
  lemma OtherInheritedIgnored(name: string)
    ensures Overloads(TestService.(methods := TestService.methods + OtherInherited), name) == Overloads(TestService, name)
  {
    ForeignMethodsIgnored(TestService, OtherInherited, name);
  }

  lemma TestServiceMethodNames()
    ensures NamesOf(TestService.methods) == ["GetTrade", "Instrument", "Instrument", "ToString"]
  {
  }

  lemma TestServiceDistinct()
    ensures Distinct(NamesOf(TestService.methods)) == ["GetTrade", "Instrument", "ToString"]
  {
    var names := NamesOf(TestService.methods);
    TestServiceMethodNames();
    var d1 := Distinct(names[..1]);
    assert names[..1] == ["GetTrade"];
    assert names[..1][..0] == [];
    assert Distinct(names[..1][..0]) == [];
    assert d1 == ["GetTrade"];
    assert names[..2][..1] == names[..1];
    var d2 := Distinct(names[..2]);
    assert d2 == ["GetTrade", "Instrument"];
    assert names[..3][..2] == names[..2];
    var d3 := Distinct(names[..3]);
    assert d3 == d2;
    assert names[..3] == names[..|names| - 1];
  }

  /** GetTrade and Instrument have own-module methods; ToString is only
      inherited. */
  lemma TestServiceGroups()
    ensures Overloads(TestService, "GetTrade") != []
    ensures Overloads(TestService, "Instrument") != []
    ensures Overloads(TestService, "ToString") == []
  {
    assert GetTrade in Overloads(TestService, "GetTrade");
    assert InstrumentBySymbol in Overloads(TestService, "Instrument");
  }

  lemma TestServiceExposed()
    ensures Exposed(TestService, ["GetTrade", "Instrument", "ToString"]) == ["GetTrade", "Instrument"]
  {
    TestServiceGroups();
    ExposedFirstTwo(TestService, "GetTrade", "Instrument", "ToString");
  }

  lemma ExposedFirstTwo(t: TypeInfo, a: string, b: string, c: string)
    requires Overloads(t, a) != [] && Overloads(t, b) != [] && Overloads(t, c) == []
    ensures Exposed(t, [a, b, c]) == [a, b]
  {
    var ab := [a, b];
    ExposedPair(t, a, b);
    assert ab + [c] == [a, b, c];
    ExposedSnoc(t, ab, c);
    assert Exposed(t, ab) + [] == Exposed(t, ab);
  }

  lemma ExposedPair(t: TypeInfo, a: string, b: string)
    requires Overloads(t, a) != [] && Overloads(t, b) != []
    ensures Exposed(t, [a, b]) == [a, b]
  {
    ExposedSnoc(t, [], a);
    assert [] + [a] == [a];
    ExposedSnoc(t, [a], b);
    assert [a] + [b] == [a, b];
  }

  lemma TestServiceInstrumentGroup()
    ensures Overloads(TestService, "Instrument") == [InstrumentBySymbol, InstrumentByValue]
  {
    var ms := TestService.methods;
    assert ms[..1][..0] == [];
    assert ms[..2][..1] == ms[..1];
    assert ms[..3][..2] == ms[..2];
    assert ms[..3] == ms[..|ms| - 1];
    assert SameModuleNamed(ms[..1], "Instrument", ServiceModule) == [];
    assert SameModuleNamed(ms[..2], "Instrument", ServiceModule) == [InstrumentBySymbol];
    assert SameModuleNamed(ms[..3], "Instrument", ServiceModule) == [InstrumentBySymbol, InstrumentByValue];
  }

  lemma TestServiceGetTradeGroup()
    ensures Overloads(TestService, "GetTrade") == [GetTrade]
  {
    var ms := TestService.methods;
    assert ms[..1][..0] == [];
    assert ms[..2][..1] == ms[..1];
    assert ms[..3][..2] == ms[..2];
    assert ms[..3] == ms[..|ms| - 1];
    assert SameModuleNamed(ms[..1], "GetTrade", ServiceModule) == [GetTrade];
    assert SameModuleNamed(ms[..2], "GetTrade", ServiceModule) == [GetTrade];
    assert SameModuleNamed(ms[..3], "GetTrade", ServiceModule) == [GetTrade];
  }

  /** The Instrument overloads: the one taking an Instrument (a type of the
      service's own module) serves the body, the one taking the symbol
      string serves the query. */
  lemma TestServiceInstrumentPlan()
    ensures Classify(Overloads(TestService, "Instrument"))
      == Ok(Plan("Instrument", InstrumentBySymbol, Some(InstrumentByValue)))
  {
    TestServiceInstrumentGroup();
    InstrumentTakesBody();
    ClassifyPair(InstrumentBySymbol, InstrumentByValue);
  }

  lemma InstrumentTakesBody()
    ensures !TakesBody(InstrumentBySymbol, InstrumentBySymbol.moduleName)
    ensures TakesBody(InstrumentByValue, InstrumentBySymbol.moduleName)
  {
  }

  lemma ClassifyPair(a: MethodInfo, b: MethodInfo)
    requires !TakesBody(a, a.moduleName) && TakesBody(b, a.moduleName)
    ensures Classify([a, b]) == Ok(Plan(a.name, a, Some(b)))
  {
  }

  /** GetTrade is served from the query alone, its DateTime parameter read
      through Convert.ToDateTime. */
  lemma TestServiceGetTradePlan()
    ensures Classify(Overloads(TestService, "GetTrade")) == Ok(Plan("GetTrade", GetTrade, None))
    ensures ArgTexts(GetTrade.params) == [ArgText(GetTrade.params[0], "ToDateTime")]
  {
    TestServiceGetTradeGroup();
    DateTimeConverter();
  }

  lemma DateTimeConverter()
    ensures ConvertSelect("DateTime") == "ToDateTime"
  {
    PrimitiveConverterTable("DateTime");
  }

  /** Every non-empty group of the service gets its wrapper. */
  lemma TestServiceSourcesOk(n: string)
    requires n in ["GetTrade", "Instrument", "ToString"] && Overloads(TestService, n) != []
    ensures MethodSource(Overloads(TestService, n)).Ok?
  {
    if n == "GetTrade" {
      TestServiceGetTradePlan();
    } else if n == "Instrument" {
      TestServiceInstrumentPlan();
    } else {
      TestServiceExposed();
    }
  }

  /** Generating the service succeeds with two wrappers, named GetTrade and
      then Instrument, and records those two names. */
  lemma TestServiceGenerates()
    ensures var g := Generate(TestService, Distinct(NamesOf(TestService.methods)), MethodSource);
      && g.failure.None? && g.names == ["GetTrade", "Instrument"] && |g.methods| == 2
      && g.methods[0].name == "GetTrade" && g.methods[1].name == "Instrument"
  {
    var ns := Distinct(NamesOf(TestService.methods));
    TestServiceDistinct();
    forall n | n in ns && Overloads(TestService, n) != []
      ensures MethodSource(Overloads(TestService, n)).Ok?
    {
      TestServiceSourcesOk(n);
    }
    GenerateFailure(TestService, ns, MethodSource);
    TestServiceExposed();
    GenerateNames(TestService, ns, MethodSource);
    MethodSourceNamesAfterGroup();
    GenerateAligned(TestService, ns, MethodSource);
    var g := Generate(TestService, ns, MethodSource);
    assert g.methods[0].name == g.names[0] && g.methods[1].name == g.names[1];
  }
}
