/** The example service of ExampleService/TestClass.cs run through the
    older generator of CodeGen.cs: GetTrade and the first Instrument
    overload are wrapped, then the overload taking an Instrument stops the
    generation, since that parameter type has no converter there. */
module RootExample {
  import opened Wrappers
  import opened Reflection
  import opened WrapperText
  import opened RootCodeGen
  import opened RestExample

  lemma ExampleMethodSources()
    ensures MethodSource(GetTrade).Ok? && MethodSource(InstrumentBySymbol).Ok?
    ensures MethodSource(InstrumentByValue) == Err(Exception(UnsupportedType("Instrument")))
  {
    PrimitiveConverterTable("DateTime");
    PrimitiveConverterTable("String");
    PrimitiveConverterTable("Instrument");
    assert AllSupported(GetTrade.params) && AllSupported(InstrumentBySymbol.params);
    assert FirstUnsupported(InstrumentByValue.params) == 0;
  }

  lemma TestServiceFirst()
    ensures Generate(TestService, TestService.methods[..1]).names == ["GetTrade"]
    ensures Generate(TestService, TestService.methods[..1]).failure.None?
  {
    var ms := TestService.methods;
    ExampleMethodSources();
    assert ms[..0] == [];
    GenerateStep(TestService, ms, 0);
  }

  lemma TestServicePrefix()
    ensures Generate(TestService, TestService.methods[..2]).names == ["GetTrade", "Instrument"]
    ensures Generate(TestService, TestService.methods[..2]).failure.None?
  {
    ExampleMethodSources();
    TestServiceFirst();
    GenerateStep(TestService, TestService.methods, 1);
  }

  lemma TestServiceRootFails()
    ensures var g := Generate(TestService, TestService.methods);
      && g.names == ["GetTrade", "Instrument"]
      && g.failure == Some(Exception(UnsupportedType("Instrument")))
  {
    var ms := TestService.methods;
    ExampleMethodSources();
    TestServicePrefix();
    GenerateStep(TestService, ms, 2);
    GenerateStops(TestService, ms, 3);
  }
}
