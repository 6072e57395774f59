# RestServiceProvider in Dafny

RestServiceProvider turns any C# object into a REST service. It reflects over
the object's type. For each public method declared in the type's own module,
it generates the source of a wrapper method
`string Name(Dictionary<string,string> parameters, string body)`. The wrapper
reads its arguments from the query parameters (or, for an overloaded method,
deserializes one argument from the request body) and returns the result
serialized as JSON. The wrappers are compiled and registered in a route table
(the dispatcher). A middleware then answers HTTP requests by looking up the
request path in that table.

This project models that core and proves properties of it:

- **Reflection data** (`reflection.dfy`). Types, methods and parameters are
  plain values. A module is identified by its name. The converter switch
  shared by both generators is a table of seven type names.
- **The newer generator**, RestServiceProvider/CodeGen.cs:
  - `rest_codegen.dfy`: converter selection, overload selection, the
    wrapper statement text, the string-builder methods that produce it, and
    the name-grouping loop of `BuildServiceCode`, including the
    `MethodNames` list it appends to.
  - `rest_statement.dfy`: layout, argument-list and parenthesis lemmas about
    the generated statement.
  - `rest_example.dfy`: the example service of ExampleService/TestClass.cs
    run through this generator.
- **The older generator**, CodeGen.cs at the repository root
  (`root_codegen.dfy`, `root_example.dfy`). It has one wrapper per method with
  no grouping. A non-void method with a parameter type that has no converter makes it throw; a void method's parameters are ignored.
- **The route table**, RestServiceProvider/Dispatcher.cs (`dispatcher.dfy`).
  This is a class whose dictionary field is updated in place.
- **Request handling**, RestServiceProvider/Middleware.cs (`middleware.dfy`).
- **The front object**, RestServiceProvider/WebServer.cs (`webserver.dfy`):
  the registration loop of `RegisterApi`, and the `Start`/`Stop` guards.
- Shared pieces:
  - `wrappers.dfy`: Option, Result, and the exceptions the source throws.
  - `text.dfy`: join, split and parenthesis counting.
  - `wrapper_text.dfy`: the text fragments both generators emit.
  - `dict_helper.dfy`: `GetValueOrDefault`.

Exceptions are modelled as `Err` values of a `Result`, or as an `Option`
holding the exception that a state-changing method throws. An exception
carries a structured message, such as `MethodNotFound(url)` or
`UnsupportedType(name)`; `Wrappers.Render` spells out the source's exact
message text for each one. Where the source
passes a delegate, the model passes a Dafny function value.

Some of the source's quirks are modelled as written and proved as properties:

- The JSON fallback converter is spelt `DerializeObject`.
- The newer generator closes every call with `"));"`. A statement calling a
  void method therefore has one `)` more than `(` (see `StatementParens`).
- `RegisterMethod` checks the url it was given but stores the handler under
  `"/"` followed by that url. As a result:
  - the duplicate check never fires for a url registered a moment before;
  - `UnregisterMethod` with the same url removes nothing;
  - only requests whose path starts with `/` can reach a handler.

## Model

| member | source | states |
|---|---|---|
| Wrappers.Render | RestServiceProvider/CodeGen.cs:217-227 | Definition of the exception texts: the two overload messages here, "Method u not found" and "Method u already registered" (RestServiceProvider/Dispatcher.cs:30, 45), and "Usupported type: T" (CodeGen.cs:87), typos kept. |
| DictHelper.GetValueOrDefault | RestServiceProvider/CodeGen.cs:36-40 | Returns the stored value exactly when the key is present. Otherwise it returns nothing (the `default` of a reference type). |
| Reflection.PrimitiveConverterTable | RestServiceProvider/CodeGen.cs:71-84 | Int32, Int64, decimal/Decimal, String/string and DateTime map to ToInt32, ToInt64, ToDecimal, ToString and ToDateTime. Exactly these seven names are primitive. |
| Reflection.NamesOf | RestServiceProvider/CodeGen.cs:157 | The method names in reflection order, repeats kept, one per method. |
| RestCodeGen.ConvertSelect | RestServiceProvider/CodeGen.cs:69-88 | Definition: the System.Convert method of a primitive type name, otherwise the misspelt JSON converter text for the type. Its table is stated by ConvertSelectMapping. |
| RestCodeGen.ConvertSelectMapping | RestServiceProvider/CodeGen.cs:69-88 | The seven primitive names get their System.Convert method. Every other type name gets `JsonConvert.DerializeObject<T>`, typo included. |
| RestCodeGen.TakesBody | RestServiceProvider/CodeGen.cs:226 | Definition: the method has exactly one parameter and that parameter's type belongs to the given module. |
| RestCodeGen.ArgTexts | RestServiceProvider/CodeGen.cs:251-252 | Definition: one argument expression per parameter, in declaration order, each under ConvertSelect of its type. Stated by ArgumentList and ArgTextsPlain. |
| RestCodeGen.Classify | RestServiceProvider/CodeGen.cs:204-229 | The group is accepted iff it has one method, or two methods of which one takes a single parameter of a type from the group's module. More than two methods throws "max 2 overloads"; two with no body taker throws the "Unable to find method that fits POST request" message; an empty group fails indexing. For two methods, the first body taker serves the body and the other method serves the query. |
| RestCodeGen.BodyBranch | RestServiceProvider/CodeGen.cs:232-242 | Definition: the body guard, the call prefix of the body overload, the name, the deserialization of the body to its parameter type, and "))); else". Its layout and parentheses are stated by BodyBranchLayout and BodyBranchSurplus. |
| RestCodeGen.SimpleCall | RestServiceProvider/CodeGen.cs:245-256 | Definition: the call prefix, the name, "(", the comma-joined argument list and "));", then the success sentinel for a void method. Stated by SimpleCallLayout, SimpleCallSurplus and ArgumentList. |
| RestCodeGen.Statement | RestServiceProvider/CodeGen.cs:232-256 | Definition: the body branch when there is a body overload, then the query call. Stated by StatementOpening, StatementEnding and StatementParens. |
| RestCodeGen.MethodSource | RestServiceProvider/CodeGen.cs:202-288 | Definition: the selected overloads' statement wrapped in a method named after the group, or the selection's exception. Stated by MethodSourceOutcome, CreateMethodSource and the statement-text lemmas. |
| RestCodeGen.MethodSourceOutcome | RestServiceProvider/CodeGen.cs:202-288 | A wrapper is built iff overload selection succeeds, and otherwise the generator fails with the same exception. A built wrapper is named after the group's first method and holds one statement. |
| RestCodeGen.ChooseOverloads | RestServiceProvider/CodeGen.cs:204-229 | The size and overload checks give exactly Classify's outcome: the plan, or the exception the source throws. |
| RestCodeGen.AppendStatement | RestServiceProvider/CodeGen.cs:232-256 | For a well-formed plan, the builder ends up holding exactly the wrapper statement: the body branch when there is a body overload, then the query call. |
| RestCodeGen.AppendArguments | RestServiceProvider/CodeGen.cs:251-253 | Appending each converted argument with a trailing comma, then cutting the last character when there are parameters, gives the comma-joined argument list. |
| RestCodeGen.AppendBodyBranch | RestServiceProvider/CodeGen.cs:232-242 | The appended text is the body guard, the call prefix of the body overload, its name, the deserialization of the body to the overload's parameter type, and "))); else". |
| RestCodeGen.AppendQueryCall | RestServiceProvider/CodeGen.cs:245-256 | The appended text is the call prefix, the name, the argument list and "));". For a void method the success sentinel follows. |
| RestCodeGen.CreateMethodSource | RestServiceProvider/CodeGen.cs:202-258 | The builder method yields exactly the wrapper of the specification: one statement, or the overload-selection exception. |
| RestCodeGen.Distinct | RestServiceProvider/CodeGen.cs:157 | Same names as the input, each exactly once. |
| RestCodeGen.FirstIndex | RestServiceProvider/CodeGen.cs:157 | The first position of a name, or the length when the name is absent. |
| RestCodeGen.DistinctOrder | RestServiceProvider/CodeGen.cs:157 | Distinct keeps the order of first appearance. |
| RestCodeGen.SameModuleNamed | RestServiceProvider/CodeGen.cs:161 | Exactly the methods with the given name from the given module. The result is empty iff there is no such method. |
| RestCodeGen.Overloads | RestServiceProvider/CodeGen.cs:161 | Definition: the same-named methods of the type's own module, in declaration order. Stated by OverloadsMembers. |
| RestCodeGen.OverloadsMembers | RestServiceProvider/CodeGen.cs:161 | A method is in the group iff it is a method of the type with that name and from the type's own module. |
| RestCodeGen.Exposed | RestServiceProvider/CodeGen.cs:161-162 | A name is kept iff its own-module overload group is non-empty. |
| RestCodeGen.MethodSourceNamesAfterGroup | RestServiceProvider/CodeGen.cs:204 | Each wrapper is named after the first method of its group: the name taken here is the one the method declaration at line 285 carries. |
| RestCodeGen.Generate | RestServiceProvider/CodeGen.cs:157-166 | Definition of the name loop: each name in order, skipping empty groups, appending each built wrapper and its name, and keeping the first exception. Stated by GenerateNames, GenerateAligned, GenerateFailure, GenerateRejects and GenerateStops. |
| RestCodeGen.GenerateNames | RestServiceProvider/CodeGen.cs:157-166 | The names appended are a prefix of the exposed names. When nothing throws, they are all of the exposed names. |
| RestCodeGen.GenerateAligned | RestServiceProvider/CodeGen.cs:163-165 | One wrapper per appended name; the i-th wrapper carries the i-th name. |
| RestCodeGen.GenerateFailure | RestServiceProvider/CodeGen.cs:163 | The loop fails only with the exception that CreateMethodSource raised for some name's non-empty group. |
| RestCodeGen.GenerateRejects | RestServiceProvider/CodeGen.cs:163 | Conversely, if the builder rejects the non-empty group of some name, the loop fails. With GenerateFailure this is an if-and-only-if. |
| RestCodeGen.ForeignMethodsIgnored | RestServiceProvider/CodeGen.cs:160-161 | Methods of any other module, appended to the type, change no overload group. |
| RestCodeGen.ExposedKeepsOrder | RestServiceProvider/CodeGen.cs:161-162 | Filtering out names keeps first-appearance order. |
| RestCodeGen.ExposedMembership | RestServiceProvider/CodeGen.cs:157-162 | A distinct name is exposed iff some own-module method has that name. |
| RestCodeGen.ExposedMethodNames | RestServiceProvider/CodeGen.cs:157-166 | The wrapped names are exactly the own-module method names: each once, in order of first appearance. |
| RestCodeGen.CodeGen.constructor | RestServiceProvider/CodeGen.cs:47 | MethodNames starts empty. |
| RestCodeGen.CodeGen.BuildServiceCode | RestServiceProvider/CodeGen.cs:103-166 | MethodNames gains the names of the groups wrapped, in order, and keeps them when a later group throws. The result is that exception, or the source shell holding the wrappers. |
| RestCodeGen.CodeGen.WrapAll | RestServiceProvider/CodeGen.cs:157-166 | The loop over the distinct names appends to MethodNames exactly the names Generate records, and reports Generate's failure; without one, the wrappers are Generate's. |
| RestCodeGen.WrapGroup | RestServiceProvider/CodeGen.cs:161-163 | Nothing for a name without own-module methods; otherwise CreateMethodSource's outcome on the group. |
| RestCodeGen.GenerateRound | RestServiceProvider/CodeGen.cs:157-166 | One loop round by its outcome: an empty group is skipped, a built wrapper is appended with its name, and an exception is the outcome of the whole loop, keeping what was appended before. |
| RestCodeGen.GenerateStep | RestServiceProvider/CodeGen.cs:157-166 | One loop round: an empty group is skipped, a built wrapper is appended with its name, and a failure is recorded. |
| RestCodeGen.GenerateStops | RestServiceProvider/CodeGen.cs:163 | After an exception, the remaining names change nothing. |
| WrapperText.ServiceShell | RestServiceProvider/CodeGen.cs:105-145 | The namespace is the type name plus "RestService" and the class is the type name plus "ServiceProvider". The wrappers are exactly the methods given. |
| WrapperText.CallPrefix | RestServiceProvider/CodeGen.cs:245-248 | Definition: "c." for a void method, else the serializer call opening. Stated by CallPrefixSurplus. |
| WrapperText.ArgText | RestServiceProvider/CodeGen.cs:252 | Definition: "Convert.", the converter, and the dictionary lookup of the parameter by name. Stated by ArgTextPlain. |
| WrapperText.ArgTextPlain | RestServiceProvider/CodeGen.cs:252 | An argument expression has no comma and balanced parentheses. |
| WrapperText.CallPrefixSurplus | RestServiceProvider/CodeGen.cs:245-248 | A void call opens no parenthesis. The serialized call leaves one open. |
| RestStatementText.ConvertSelectPlain | RestServiceProvider/CodeGen.cs:69-88 | The converter text has no parentheses or commas when the type name has none. |
| RestStatementText.ArgumentList | RestServiceProvider/CodeGen.cs:251-253 | For one or more parameters, splitting the argument list at commas gives back one expression per parameter, in order, with no trailing comma. For none, the list is empty. |
| RestStatementText.ArgumentListBalanced | RestServiceProvider/CodeGen.cs:251-253 | The argument list has balanced parentheses. |
| RestStatementText.SimpleCallSurplus | RestServiceProvider/CodeGen.cs:245-256 | The query call has one extra `)` exactly when its method is void. |
| RestStatementText.BodyBranchSurplus | RestServiceProvider/CodeGen.cs:232-242 | The body branch has one extra `)` exactly when the body overload is void. |
| RestStatementText.StatementParens | RestServiceProvider/CodeGen.cs:232-256 | The statement has one extra `)` per void method it calls. It is balanced only when every called method returns a value. |
| RestStatementText.SimpleCallLayout | RestServiceProvider/CodeGen.cs:245-256 | The query call starts with the call prefix, the name and "(". It ends with "));", followed by the sentinel when void. |
| RestStatementText.BodyBranchLayout | RestServiceProvider/CodeGen.cs:234 | The body branch starts with the null-or-empty body guard. |
| RestStatementText.StatementOpening | RestServiceProvider/CodeGen.cs:232-249 | The statement starts with the body guard iff the group is overloaded. The body branch then comes right before the query call. |
| RestStatementText.StatementEnding | RestServiceProvider/CodeGen.cs:254-256 | The statement ends with the success sentinel iff the query overload is void. Otherwise it ends with "));". |
| RestExample.TestServiceDistinct | ExampleService/TestClass.cs:38-92 | The distinct method names of the example type are GetTrade, Instrument and ToString. The type stands for TestService with one of the four methods inherited from object, ToString; RestExample.OtherInheritedIgnored shows the other three change no overload group. |
| RestExample.OtherInheritedIgnored | RestServiceProvider/CodeGen.cs:160-162 | Adding Equals, GetHashCode and GetType, the other methods TestService inherits from object, leaves every overload group of the example type as it was, because they come from the core library module. |
| RestExample.TestServiceExposed | ExampleService/TestClass.cs:38-92 | Only GetTrade and Instrument are own-module names. |
| RestExample.TestServiceInstrumentGroup | ExampleService/TestClass.cs:84-92 | The Instrument group is the two overloads, in declaration order. |
| RestExample.TestServiceInstrumentPlan | ExampleService/TestClass.cs:84-92 | Instrument(Instrument) serves the body and Instrument(string) serves the query. |
| RestExample.TestServiceGetTradePlan | ExampleService/TestClass.cs:38 | GetTrade is served from the query, and its DateTime is read through ToDateTime. |
| RestExample.TestServiceGenerates | ExampleService/TestClass.cs:38-92 | Generating the example succeeds with two wrappers, named GetTrade and then Instrument. |
| RootCodeGen.ConvertSelect | CodeGen.cs:69-89 | The primitive types get their converter. Any other type throws "Usupported type: " plus the type name (typo kept). |
| RootCodeGen.ConvertSelectAgrees | CodeGen.cs:69-89 | Agrees with the newer generator on the primitives. It throws exactly where the newer one falls back to JSON. |
| RootCodeGen.FirstUnsupported | CodeGen.cs:211-212 | The position of the first parameter without a converter. |
| RootCodeGen.ArgTexts | CodeGen.cs:211-212 | Succeeds iff every parameter type is primitive. Otherwise it fails with the exception for the first unsupported parameter in declaration order. |
| RootCodeGen.VoidCallStatement | CodeGen.cs:219-221 | Definition: "c.", the name and "();", with no arguments whatever the parameters. Stated by MethodSource and RootStatementBalanced. |
| RootCodeGen.MethodSource | CodeGen.cs:198-227 | A void method always succeeds with two statements, the call and the sentinel. A non-void method succeeds iff all its parameter types are supported, with one statement. The wrapper is named after the method. |
| RootCodeGen.RootStatementBalanced | CodeGen.cs:206-226 | Every statement of this generator has balanced parentheses. |
| RootCodeGen.AppendArguments | CodeGen.cs:208-213 | Converts in declaration order and stops at the first unsupported type with that exception. Otherwise it yields the comma-joined argument list. |
| RootCodeGen.CreateMethodSource | CodeGen.cs:198-227 | The builder method yields exactly the specified wrapper or exception. |
| RootCodeGen.OwnNames | CodeGen.cs:156-161 | The own-module method names, repeats included. |
| RootCodeGen.Generate | CodeGen.cs:156-162 | Definition of the method loop: each method in order, skipping other modules, appending each built wrapper and the method's name, and keeping the first exception. Stated by GenerateNames, GenerateFailure and GenerateStops. |
| RootCodeGen.GenerateNames | CodeGen.cs:156-161 | The names appended are a prefix of the own-module names, overloads repeated. When nothing throws, they are all of them. The i-th wrapper carries the i-th name. |
| RootCodeGen.GenerateFailure | CodeGen.cs:156-161 | The loop fails iff some own-module method returns a value and has an unsupported parameter. Void methods never make it fail. |
| RootCodeGen.CodeGen.constructor | CodeGen.cs:47 | MethodNames starts empty. |
| RootCodeGen.CodeGen.BuildServiceCode | CodeGen.cs:103-161 | MethodNames gains one name per own-module method wrapped, and keeps them on an exception. The result is that exception, or the shell with the wrappers. |
| RootCodeGen.GenerateStep | CodeGen.cs:156-161 | One loop round: other modules are skipped, a wrapper is appended, or a failure is recorded. |
| RootCodeGen.GenerateStops | CodeGen.cs:159 | After an exception, the remaining methods change nothing. |
| RootExample.ExampleMethodSources | ExampleService/TestClass.cs:84-92 | GetTrade and Instrument(string) are wrapped. Instrument(Instrument) throws "Usupported type: Instrument". |
| RootExample.TestServiceRootFails | ExampleService/TestClass.cs:38-92 | The older generator records GetTrade and Instrument, then fails on the overload that takes an Instrument. |
| Dispatcher.NotFound | RestServiceProvider/Dispatcher.cs:30 | Definition: ArgumentException "Method u not found". Stated by Invoke and InvokeMethod. |
| Dispatcher.AlreadyRegistered | RestServiceProvider/Dispatcher.cs:45 | Definition: Exception "Method u already registered". Stated by Register and RegisterMethod. |
| Dispatcher.StoredKey | RestServiceProvider/Dispatcher.cs:47 | The stored key is "/" followed by the url. |
| Dispatcher.Register | RestServiceProvider/Dispatcher.cs:38-50 | Refused with "already registered" iff the url is a key. Otherwise the key "/"+url is bound to the handler, overwriting any earlier binding, and every other entry stays. |
| Dispatcher.Unregister | RestServiceProvider/Dispatcher.cs:52-59 | Exactly the given key is removed; the other entries are unchanged. |
| Dispatcher.Invoke | RestServiceProvider/Dispatcher.cs:29-31 | Definition: the outcome of the handler stored under the url, or ArgumentException "Method u not found". InvokeMethod is proved equal to it. |
| Dispatcher.RegisterHidesUrl | RestServiceProvider/Dispatcher.cs:42-47 | After registering a url, that url is still not a key; "/"+url is. |
| Dispatcher.RegisterTwiceReplaces | RestServiceProvider/Dispatcher.cs:42-47 | Registering the same url twice succeeds, and the second handler replaces the first. |
| Dispatcher.UnregisterAfterRegister | RestServiceProvider/Dispatcher.cs:47-56 | Unregistering the registered url removes nothing. Unregistering "/"+url undoes the registration. |
| Dispatcher.UnregisterIdempotent | RestServiceProvider/Dispatcher.cs:52-59 | Unregistering is idempotent, and a no-op for an unknown url. |
| Dispatcher.RequestDispatcher.constructor | RestServiceProvider/Dispatcher.cs:23 | The table starts empty. |
| Dispatcher.RequestDispatcher.UnregisterAllMethods | RestServiceProvider/Dispatcher.cs:25 | The table is left empty. |
| Dispatcher.RequestDispatcher.IsMethodRegistered | RestServiceProvider/Dispatcher.cs:27 | True iff the url is a key. |
| Dispatcher.RequestDispatcher.InvokeMethod | RestServiceProvider/Dispatcher.cs:29-31 | A missing url gives ArgumentException "Method u not found". Otherwise the result is the stored handler's outcome on the parameters and body. |
| Dispatcher.RequestDispatcher.RegisterMethod | RestServiceProvider/Dispatcher.cs:38-50 | If the url is a key, it throws and leaves the table unchanged. Otherwise the table becomes Register's. |
| Dispatcher.RequestDispatcher.UnregisterMethod | RestServiceProvider/Dispatcher.cs:52-59 | The table becomes Unregister's. |
| Middleware.Parameters | RestServiceProvider/Middleware.cs:53-55 | One parameter per query key, and no others. |
| Middleware.ParametersLookup | RestServiceProvider/Middleware.cs:53-55 | Each parameter holds its key's values joined by commas. |
| Middleware.FillParameters | RestServiceProvider/Middleware.cs:53-55 | The loop builds exactly that parameter map. |
| Middleware.FailureText | RestServiceProvider/Middleware.cs:80 | Definition: "RID:" followed by the request id. Stated by RespondOutcomes. |
| Middleware.QueryValue | RestServiceProvider/Middleware.cs:55 | Definition: a query value's strings joined with commas, as `StringValues.ToString()` gives them. |
| Middleware.Respond | RestServiceProvider/Middleware.cs:45-84 | Definition of the reply: 404 for an unknown path, else the handler's text under the current status, or 500 and "RID:" plus the request id when it throws. Stated by RespondOutcomes. |
| Middleware.RespondOutcomes | RestServiceProvider/Middleware.cs:45-84 | An unknown path gives 404 and nothing is written. A handler exception gives 500 and "RID:" plus the request id. Any other result is written unchanged, with the status left as it was. |
| Middleware.ServedAtStoredKey | RestServiceProvider/Middleware.cs:45-84 | A handler registered under a name answers requests to "/"+name with the query's parameters and the body. |
| Middleware.BareNameNotServed | RestServiceProvider/Middleware.cs:45-50 | A request to the bare name, without the leading "/", is still answered 404. |
| Middleware.HttpResponse.constructor | RestServiceProvider/Middleware.cs:39 | A fresh response has status 200, no content type and an empty body. |
| Middleware.RestServiceMiddleware.constructor | RestServiceProvider/Middleware.cs:33-37 | The middleware keeps the dispatcher it was given. |
| Middleware.RestServiceMiddleware.InvokeAsync | RestServiceProvider/Middleware.cs:39-85 | The content type is always set to "application/json". The status and the written text are as Respond says. |
| WebServer.RoutePath | RestServiceProvider/WebServer.cs:62 | Definition: the method name alone when the prefix is null or empty, else prefix + "/" + name. Stated by RoutePathInjective and RouteNotStored. |
| WebServer.RegisterName | RestServiceProvider/WebServer.cs:53-62 | Definition of one round: the binder's exception, or RegisterMethod's refusal on the relative url, or the table with the new entry. |
| WebServer.RegisterAll | RestServiceProvider/WebServer.cs:51-63 | Definition of the loop: one round per name in order, until the first exception, keeping the table built before it. Stated by RegisterAllSucceeds, RegisterAllStops, RegisterAllUnbound and RegisterAllGrows. |
| WebServer.ApiRegistration | RestServiceProvider/WebServer.cs:46-64 | Definition of RegisterApi: the generator's exception, else the compiler's exception, else the registration loop over the generated names. |
| WebServer.RoutePathInjective | RestServiceProvider/WebServer.cs:62 | Different names give different relative urls. |
| WebServer.RouteNotStored | RestServiceProvider/WebServer.cs:62 | The url of a name without "/" is never the stored key of another such name. |
| WebServer.RegisterAllGrows | RestServiceProvider/WebServer.cs:51-63 | Registration never removes a route. |
| WebServer.RegisterAllSucceeds | RestServiceProvider/WebServer.cs:51-63 | Distinct names without "/", whose urls are free and which can all be bound to a delegate, are all registered. Each sits at "/" plus its url: the name alone, or prefix+"/"+name when a non-empty prefix is given. Each is bound to its own delegate, and every other entry is kept. |
| WebServer.RegisterAllStops | RestServiceProvider/WebServer.cs:51-63 | The loop ends at the first name that cannot be bound (the lookup or binding exception) or is refused (the duplicate exception). Registrations made before it stay, with no rollback. |
| WebServer.RegisterAllUnbound | RestServiceProvider/WebServer.cs:53-58 | A name whose method lookup or delegate binding throws ends the loop with that exception. The names before it stay registered. |
| WebServer.RegisteredNameServed | RestServiceProvider/WebServer.cs:62 | After a registration with no prefix, "/"+name runs that name's delegate. |
| WebServer.RegisterAllStep | RestServiceProvider/WebServer.cs:51-63 | One loop round is one RegisterMethod call on the current table. |
| WebServer.RegisterAllStopped | RestServiceProvider/WebServer.cs:51-63 | After a refusal, later names change nothing. |
| WebServer.RestProvider.constructor | RestServiceProvider/WebServer.cs:40-43 | A new provider has a fresh, empty route table, no host and no stop token, so Valid (a host runs iff a token is held) holds. |
| WebServer.RestProvider.RegisterApi | RestServiceProvider/WebServer.cs:46-64 | Generates the wrapper source, compiles it, then registers every generated name in order. Any exception on the way is passed on. |
| WebServer.RestProvider.RegisterNames | RestServiceProvider/WebServer.cs:51-63 | The loop binds and registers each name in list order. It stops at the first name that cannot be bound or is refused, and the table is then exactly what RegisterAll gives. |
| WebServer.RestProvider.RegisterOne | RestServiceProvider/WebServer.cs:53-62 | One round: the binder's exception when the name cannot be bound, with the table unchanged; otherwise RegisterMethod on the relative url, giving its exception or its new table. |
| WebServer.RestProvider.Start | RestServiceProvider/WebServer.cs:67-80 | Does nothing when a stop token is already held. Otherwise it takes a token and starts a host on the port, serving this provider's dispatcher. Keeps Valid, and under Valid a host is always running afterwards. |
| WebServer.RestProvider.Stop | RestServiceProvider/WebServer.cs:84-103 | Does nothing without a host. Otherwise it leaves neither host nor token, and it never throws. Keeps Valid, and under Valid the token is always released, so the next Start is not blocked. |

## Left out

- Roslyn rendering is not modelled: syntax-node building, `NormalizeWhitespace` and the method signature text. The generated source is modelled as a value holding the usings, the names, the constructor statement, the field type and each wrapper's statements.
- Compiling the generated source, assembly loading and `Activator.CreateInstance` are not modelled. They are the `compile` parameter of `RegisterApi`, which either throws or yields a binder. The binder stands for `GetMethod(MethodName)` and `Delegate.CreateDelegate`: for each name it yields a delegate or the exception the lookup throws.
- JSON serialization and deserialization (Newtonsoft.Json) are not modelled. They appear only as text in the generated statements.
- The dispatcher's `lock` is not modelled, and neither are concurrent requests: every operation runs to completion before the next one starts. The source locks only `RegisterMethod` and `UnregisterMethod`; lookups, invocations and `UnregisterAllMethods` take no lock. So the middleware's check-then-invoke (RestServiceProvider/Middleware.cs:45-73) can turn a 404 into a 500 when an unregistration runs between the check and the call. The model does not capture that interleaving.
- Logging (NLog) and the `DEBUG`-only source dump to disk are not modelled.
- The Kestrel host building, `StartAsync`, the cancellation token and the `Startup` class are not modelled. The host is a value holding the port and the dispatcher it serves. The stop token is a flag.
- WebServer.RestProvider.Stop: exceptions from `Cancel` or `Dispose` are swallowed by the source's empty catch (RestServiceProvider/WebServer.cs:98-101). The model has no exceptions there, so it does not capture the state each throw point leaves. If `StopTokenSouce.Cancel()` (line 91) or `host.Dispose()` (line 92) throws, host and token both stay set, so a later `Start` does nothing and a later `Stop` tries again. If `StopTokenSouce.Dispose()` (line 94) throws, the host is null but the token stays set, so `Start` is blocked for good and `Stop` does nothing.
- The request id is a parameter of `InvokeAsync`. Guid generation and formatting are not modelled.
- Reading the request body stream is not modelled: the body is a field of the request. Writing the response is modelled as appending to a body string.
- The middleware's `next` delegate is never called by the source and is not modelled.
- Middleware.Parameters: the query is a list of key/values pairs. `ParametersLookup` requires distinct keys, as ASP.NET's query collection guarantees; key case-insensitivity is not modelled.
- Reflection identity is not modelled: method identity (`x != m2`) is position in the group, and module identity is the module's name.
- RestCodeGen.Classify: an empty group fails as the `Methods[0]` index would (ArgumentOutOfRange), but the loop never passes one.
- WebServer.RegisterAllSucceeds: requires method names without "/" and urls that are free beforehand. Method names from reflection satisfy the first; the second is what the source's duplicate check tests.
- Which names the binder fails on is not computed: it is a parameter. One case where it fails is an own-module method named like a method of object (ToString, Equals, GetHashCode, GetType). Its wrapper then sits beside the inherited method, `GetMethod` finds two public methods of that name and throws, and the names before it stay registered (`RegisterAllUnbound`).
- RestServiceProviderTests/GenericTest.cs, Startup.cs and ExampleService/Program.cs are not part of this model.
