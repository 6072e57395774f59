/** The front object of RestServiceProvider/WebServer.cs: RegisterApi wraps
    an object's type, compiles the wrapper and registers one processor per
    generated method name in the route table; Start and Stop bring the web
    host up and down at most once each. */
module WebServer {
  import opened Wrappers
  import opened Reflection
  import opened WrapperText
  import opened Dispatcher
  import opened Middleware
  import RestCodeGen

  /** Looking a method name up on the compiled wrapper and binding a
      delegate to it; the exception when the lookup or the binding throws
      (an ambiguous name, for one). */
  type Binder = string -> Result<Handler>

  /** Compiling the generated source and creating the wrapper instance
      around the api object; the compiler's exception when the source does
      not compile. */
  type Compiler = ServiceSource -> Result<Binder>

  /** The relative url a method is registered under: its name, behind the
      api prefix and a "/" when a non-empty prefix is given. */
  function RoutePath(apiPrefix: Option<string>, name: string): string
  {
    if apiPrefix.None? || apiPrefix.value == "" then name else apiPrefix.value + "/" + name
  }

  /** The route table after a registration loop, and the exception that
      ended it early, if any. */
  datatype Registration = Registration(table: Table, failure: Option<Exception>)

  /** The registration loop: each name in order, until one cannot be bound
      or is refused; whatever was registered before stays registered. */
  function RegisterAll(m: Table, names: seq<string>, apiPrefix: Option<string>, delegates: Binder): Registration
  {
    if names == [] then Registration(m, None)
    else
      var prev := RegisterAll(m, names[..|names| - 1], apiPrefix, delegates);
      var name := names[|names| - 1];
      if prev.failure.Some? then prev else RegisterName(prev.table, name, apiPrefix, delegates)
  }

  /** One round of the loop on table `t`: bind the name's delegate, then
      register it under the name's relative url. */
  function RegisterName(t: Table, name: string, apiPrefix: Option<string>, delegates: Binder): Registration
  {
    match delegates(name)
    case Err(e) => Registration(t, Some(e))
    case Ok(h) =>
      match Register(t, RoutePath(apiPrefix, name), h)
      case Err(e) => Registration(t, Some(e))
      case Ok(next) => Registration(next, None)
  }

  /** What RegisterApi does to the table `m`: generate the wrapper source,
      compile it, then register every generated method name. */
  function ApiRegistration(m: Table, api: TypeInfo, compile: Compiler, apiPrefix: Option<string>): Registration
  {
    var g := RestCodeGen.Generate(api, RestCodeGen.Distinct(NamesOf(api.methods)), RestCodeGen.MethodSource);
    if g.failure.Some? then Registration(m, g.failure)
    else match compile(ServiceShell(api, g.methods))
      case Err(e) => Registration(m, Some(e))
      case Ok(delegates) => RegisterAll(m, g.names, apiPrefix, delegates)
  }

  /** The stored keys of `names` under `apiPrefix`. */
  function Routes(apiPrefix: Option<string>, names: seq<string>): set<string>
  {
    set i | 0 <= i < |names| :: StoredKey(RoutePath(apiPrefix, names[i]))
  }

  predicate Slashless(names: seq<string>)
  {
    forall i :: 0 <= i < |names| ==> '/' !in names[i]
  }

  /** Every name of `names` can be bound to a delegate. */
  predicate Bound(names: seq<string>, delegates: Binder)
  {
    forall i :: 0 <= i < |names| ==> delegates(names[i]).Ok?
  }

  predicate DistinctNames(names: seq<string>)
  {
    forall i, j :: 0 <= i < j < |names| ==> names[i] != names[j]
  }

  /** Different names give different relative urls. */
  lemma RoutePathInjective(apiPrefix: Option<string>, a: string, b: string)
    requires a != b
    ensures RoutePath(apiPrefix, a) != RoutePath(apiPrefix, b)
  {
    if apiPrefix.Some? && apiPrefix.value != "" {
      var p := apiPrefix.value + "/";
      assert RoutePath(apiPrefix, a) == p + a && RoutePath(apiPrefix, b) == p + b;
      assert (p + a)[|p|..] == a && (p + b)[|p|..] == b;
    }
  }

  /** The relative url of a name without "/" is never the stored key of
      another such name, so the duplicate check cannot trip over a key the
      same loop stored. */
  lemma RouteNotStored(apiPrefix: Option<string>, a: string, b: string)
    requires '/' !in a && '/' !in b
    ensures RoutePath(apiPrefix, b) != StoredKey(RoutePath(apiPrefix, a))
  {
    var stored, path := StoredKey(RoutePath(apiPrefix, a)), RoutePath(apiPrefix, b);
    if apiPrefix.Some? && apiPrefix.value != "" {
      assert stored[|stored| - |a| - 1] == '/';
    } else {
      assert stored[0] == '/';
    }
  }

  /** The loop never removes a route. */
  lemma {:induction false} RegisterAllGrows(m: Table, names: seq<string>, apiPrefix: Option<string>, delegates: Binder)
    ensures m.Keys <= RegisterAll(m, names, apiPrefix, delegates).table.Keys
  {
    if names != [] {
      RegisterAllGrows(m, names[..|names| - 1], apiPrefix, delegates);
    }
  }

  /** Table `t` is `m` with every name of `names` bound at its stored key
      to its own delegate: one key per name, every other entry of `m` kept. */
  ghost predicate Binds(m: Table, t: Table, names: seq<string>, apiPrefix: Option<string>, delegates: Binder)
  {
    && t.Keys == m.Keys + Routes(apiPrefix, names)
    && BindsEach(t, names, apiPrefix, delegates)
    && KeepsOthers(m, t, Routes(apiPrefix, names))
  }

  ghost predicate BindsEach(t: Table, names: seq<string>, apiPrefix: Option<string>, delegates: Binder)
  {
    forall i :: 0 <= i < |names| ==>
      && delegates(names[i]).Ok?
      && StoredKey(RoutePath(apiPrefix, names[i])) in t
      && t[StoredKey(RoutePath(apiPrefix, names[i]))] == delegates(names[i]).value
  }

  ghost predicate KeepsOthers(m: Table, t: Table, routes: set<string>)
  {
    forall k :: k in m && k !in routes ==> k in t && t[k] == m[k]
  }

  /** All of `names` registered: no refusal, and the table binds them all. */
  ghost predicate RegisteredAll(m: Table, names: seq<string>, apiPrefix: Option<string>, delegates: Binder)
  {
    var r := RegisterAll(m, names, apiPrefix, delegates);
    r.failure.None? && Binds(m, r.table, names, apiPrefix, delegates)
  }

  /** Preconditions under which every registration goes through: distinct
      names without "/" whose urls are not keys of the starting table. */
  predicate Registrable(m: Table, names: seq<string>, apiPrefix: Option<string>)
  {
    && Slashless(names)
    && DistinctNames(names)
    && (forall i :: 0 <= i < |names| ==> RoutePath(apiPrefix, names[i]) !in m)
  }

  lemma RegistrablePrefix(m: Table, names: seq<string>, apiPrefix: Option<string>, n: nat)
    requires Registrable(m, names, apiPrefix) && n <= |names|
    ensures Registrable(m, names[..n], apiPrefix)
  {
    assert forall i :: 0 <= i < n ==> names[..n][i] == names[i];
  }

  lemma RoutesSnoc(apiPrefix: Option<string>, names: seq<string>)
    requires names != []
    ensures Routes(apiPrefix, names) ==
      Routes(apiPrefix, names[..|names| - 1]) + {StoredKey(RoutePath(apiPrefix, names[|names| - 1]))}
  {
    var p := names[..|names| - 1];
    assert forall i :: 0 <= i < |p| ==> p[i] == names[i];
  }

  /** The next url is free in the table the loop has built so far. */
  lemma NextRouteFree(m: Table, names: seq<string>, apiPrefix: Option<string>, delegates: Binder)
    requires names != [] && Registrable(m, names, apiPrefix)
    requires RegisteredAll(m, names[..|names| - 1], apiPrefix, delegates)
    ensures RoutePath(apiPrefix, names[|names| - 1]) !in RegisterAll(m, names[..|names| - 1], apiPrefix, delegates).table
  {
    var p, name := names[..|names| - 1], names[|names| - 1];
    forall i | 0 <= i < |p|
      ensures RoutePath(apiPrefix, name) != StoredKey(RoutePath(apiPrefix, p[i]))
    {
      assert p[i] == names[i];
      RouteNotStored(apiPrefix, p[i], name);
    }
  }

  /** With the next url free, one more round just binds its stored key. */
  lemma RegisterAllExtends(m: Table, names: seq<string>, apiPrefix: Option<string>, delegates: Binder)
    requires names != [] && Registrable(m, names, apiPrefix) && delegates(names[|names| - 1]).Ok?
    requires RegisteredAll(m, names[..|names| - 1], apiPrefix, delegates)
    ensures var name := names[|names| - 1];
      RegisterAll(m, names, apiPrefix, delegates) ==
        Registration(RegisterAll(m, names[..|names| - 1], apiPrefix, delegates).table[StoredKey(RoutePath(apiPrefix, name)) := delegates(name).value], None)
  {
    NextRouteFree(m, names, apiPrefix, delegates);
  }

  /** Binding one more distinct name keeps the table binding all of them. */
  lemma BindsStep(m: Table, t: Table, names: seq<string>, apiPrefix: Option<string>, delegates: Binder)
    requires names != [] && DistinctNames(names) && delegates(names[|names| - 1]).Ok?
    requires Binds(m, t, names[..|names| - 1], apiPrefix, delegates)
    ensures var name := names[|names| - 1];
      Binds(m, t[StoredKey(RoutePath(apiPrefix, name)) := delegates(name).value], names, apiPrefix, delegates)
  {
    var name := names[|names| - 1];
    var key := StoredKey(RoutePath(apiPrefix, name));
    RoutesSnoc(apiPrefix, names);
    BindsEachStep(t, names, apiPrefix, delegates);
    KeepsOthersStep(m, t, Routes(apiPrefix, names[..|names| - 1]), key, delegates(name).value);
  }

  lemma BindsEachStep(t: Table, names: seq<string>, apiPrefix: Option<string>, delegates: Binder)
    requires names != [] && DistinctNames(names) && delegates(names[|names| - 1]).Ok?
    requires BindsEach(t, names[..|names| - 1], apiPrefix, delegates)
    ensures var name := names[|names| - 1];
      BindsEach(t[StoredKey(RoutePath(apiPrefix, name)) := delegates(name).value], names, apiPrefix, delegates)
  {
    var n := |names| - 1;
    var p, name := names[..n], names[n];
    var next := t[StoredKey(RoutePath(apiPrefix, name)) := delegates(name).value];
    forall i | 0 <= i < |names|
      ensures delegates(names[i]).Ok? && StoredKey(RoutePath(apiPrefix, names[i])) in next
      ensures next[StoredKey(RoutePath(apiPrefix, names[i]))] == delegates(names[i]).value
    {
      if i < n {
        assert names[i] == p[i] && names[i] != name;
        StoredKeyInjective(apiPrefix, names[i], name);
      }
    }
  }

  lemma StoredKeyInjective(apiPrefix: Option<string>, a: string, b: string)
    requires a != b
    ensures StoredKey(RoutePath(apiPrefix, a)) != StoredKey(RoutePath(apiPrefix, b))
  {
    RoutePathInjective(apiPrefix, a, b);
    assert StoredKey(RoutePath(apiPrefix, a))[1..] == RoutePath(apiPrefix, a);
  }

  lemma KeepsOthersStep(m: Table, t: Table, routes: set<string>, key: string, h: Handler)
    requires KeepsOthers(m, t, routes)
    ensures KeepsOthers(m, t[key := h], routes + {key})
  {
  }

  lemma RegisteredAllStep(m: Table, names: seq<string>, apiPrefix: Option<string>, delegates: Binder)
    requires names != [] && Registrable(m, names, apiPrefix) && delegates(names[|names| - 1]).Ok?
    requires RegisteredAll(m, names[..|names| - 1], apiPrefix, delegates)
    ensures RegisteredAll(m, names, apiPrefix, delegates)
  {
    RegisterAllExtends(m, names, apiPrefix, delegates);
    BindsStep(m, RegisterAll(m, names[..|names| - 1], apiPrefix, delegates).table, names, apiPrefix, delegates);
  }

  /** Distinct method names without "/" whose urls are free in `m` and
      which can all be bound are all registered: each under its stored key,
      bound to its own delegate, and every other entry of `m` is kept. */
  lemma {:induction false} RegisterAllSucceeds(m: Table, names: seq<string>, apiPrefix: Option<string>, delegates: Binder)
    requires Registrable(m, names, apiPrefix) && Bound(names, delegates)
    ensures RegisteredAll(m, names, apiPrefix, delegates)
  {
    if names != [] {
      RegistrablePrefix(m, names, apiPrefix, |names| - 1);
      assert Bound(names[..|names| - 1], delegates) by {
        assert forall i :: 0 <= i < |names| - 1 ==> names[..|names| - 1][i] == names[i];
      }
      RegisterAllSucceeds(m, names[..|names| - 1], apiPrefix, delegates);
      RegisteredAllStep(m, names, apiPrefix, delegates);
    }
  }

  /** The loop stopped at name `i`: everything before it went through, and
      either the name could not be bound, ending the loop with the binding's
      exception, or its url was already a key of the table at that point,
      ending it with the duplicate's exception. */
  ghost predicate StoppedAt(m: Table, names: seq<string>, apiPrefix: Option<string>, delegates: Binder, i: nat)
    requires i < |names|
  {
    var before := RegisterAll(m, names[..i], apiPrefix, delegates);
    var path := RoutePath(apiPrefix, names[i]);
    var bound := delegates(names[i]);
    && before.failure.None?
    && (bound.Err? || path in before.table)
    && RegisterAll(m, names, apiPrefix, delegates) ==
         Registration(before.table, Some(if bound.Err? then bound.error else AlreadyRegistered(path)))
  }

  /** A failed binding or a refused registration ends the loop without
      undoing the ones before it: the final table is the one built up to
      that name. */
  lemma {:induction false} RegisterAllStops(m: Table, names: seq<string>, apiPrefix: Option<string>, delegates: Binder)
    ensures RegisterAll(m, names, apiPrefix, delegates).failure.Some? ==>
      exists i :: 0 <= i < |names| && StoppedAt(m, names, apiPrefix, delegates, i)
  {
    if names != [] {
      var n := |names| - 1;
      var p := names[..n];
      RegisterAllStops(m, p, apiPrefix, delegates);
      var prev := RegisterAll(m, p, apiPrefix, delegates);
      if prev.failure.Some? {
        var i :| 0 <= i < |p| && StoppedAt(m, p, apiPrefix, delegates, i);
        assert names[..i] == p[..i] && names[i] == p[i];
        assert StoppedAt(m, names, apiPrefix, delegates, i);
      } else if RegisterAll(m, names, apiPrefix, delegates).failure.Some? {
        assert names[..n] == p;
        assert StoppedAt(m, names, apiPrefix, delegates, n);
      }
    }
  }

  /** After a successful registration with no prefix, a request to "/"
      followed by a registered name runs that name's delegate. */
  lemma RegisteredNameServed(m: Table, names: seq<string>, delegates: Binder, i: nat,
                             request: HttpRequest, rid: string, status: int)
    requires Registrable(m, names, None) && Bound(names, delegates)
    requires i < |names| && request.path == "/" + names[i]
    ensures var outcome := delegates(names[i]).value(Parameters(request.query), request.body);
      Respond(RegisterAll(m, names, None, delegates).table, request, rid, status) ==
        if outcome.Ok? then Reply(status, Some(outcome.value)) else Reply(500, Some(FailureText(rid)))
  {
    RegisterAllSucceeds(m, names, None, delegates);
    assert request.path == StoredKey(RoutePath(None, names[i]));
  }

  /** One more round of the registration loop, on the table built so far.
      The lemmas that unfold RegisterAll use this form; RegisterAllRound
      restates it in the terms the loop of RegisterNames has at hand: the
      table and exception RegisterOne left. */
  lemma RegisterAllStep(m: Table, names: seq<string>, apiPrefix: Option<string>, delegates: Binder, i: nat)
    requires i < |names| && RegisterAll(m, names[..i], apiPrefix, delegates).failure.None?
    ensures var prev := RegisterAll(m, names[..i], apiPrefix, delegates);
      RegisterAll(m, names[..i + 1], apiPrefix, delegates) == RegisterName(prev.table, names[i], apiPrefix, delegates)
  {
    var p := names[..i + 1];
    assert p[..|p| - 1] == names[..i];
    assert p[|p| - 1] == names[i];
  }



  /** The outcome of round `i`: a failure is the outcome of the whole
      loop, and otherwise the loop goes on from the new table. */
  lemma RegisterAllRound(m: Table, names: seq<string>, apiPrefix: Option<string>, delegates: Binder, i: nat,
                         table: Table, thrown: Option<Exception>)
    requires i < |names| && RegisterAll(m, names[..i], apiPrefix, delegates).failure.None?
    requires Registration(table, thrown) ==
      RegisterName(RegisterAll(m, names[..i], apiPrefix, delegates).table, names[i], apiPrefix, delegates)
    ensures thrown.Some? ==> RegisterAll(m, names, apiPrefix, delegates) == Registration(table, thrown)
    ensures thrown.None? ==> RegisterAll(m, names[..i + 1], apiPrefix, delegates) == Registration(table, None)
  {
    RegisterAllStep(m, names, apiPrefix, delegates, i);
    if thrown.Some? {
      RegisterAllStopped(m, names, apiPrefix, delegates, i + 1);
    }
  }

  /** A name that cannot be bound ends the loop with the binding's
      exception and the table as it was before that name: the names before
      it stay registered. */
  lemma RegisterAllUnbound(m: Table, names: seq<string>, apiPrefix: Option<string>, delegates: Binder, i: nat)
    requires i < |names|
    requires RegisterAll(m, names[..i], apiPrefix, delegates).failure.None? && delegates(names[i]).Err?
    ensures var prev := RegisterAll(m, names[..i], apiPrefix, delegates);
      var last := RegisterAll(m, names, apiPrefix, delegates);
      last.failure == Some(delegates(names[i]).error) && last.table == prev.table
  {
    RegisterAllStep(m, names, apiPrefix, delegates, i);
    RegisterAllStopped(m, names, apiPrefix, delegates, i + 1);
  }

  /** Once a registration failed, later names change nothing. */
  lemma {:induction false} RegisterAllStopped(m: Table, names: seq<string>, apiPrefix: Option<string>, delegates: Binder, k: nat)
    requires k <= |names| && RegisterAll(m, names[..k], apiPrefix, delegates).failure.Some?
    ensures RegisterAll(m, names, apiPrefix, delegates) == RegisterAll(m, names[..k], apiPrefix, delegates)
    decreases |names| - k
  {
    if k < |names| {
      assert names[..k + 1][..k] == names[..k];
      RegisterAllStopped(m, names, apiPrefix, delegates, k + 1);
    } else {
      assert names[..k] == names;
    }
  }

  newtype uint32 = x: int | 0 <= x < 0x1_0000_0000

  /** A running web host: the port it listens on and the route table its
      middleware dispatches to. */
  datatype WebHost = WebHost(port: uint32, dispatcher: RequestDispatcher)

  class RestProvider {
    var host: Option<WebHost>
    /** Whether StopTokenSouce is set. */
    var hasStopToken: bool
    const requestDispatcher: RequestDispatcher

    constructor()
      ensures fresh(requestDispatcher) && requestDispatcher.MethodMap == map[]
      ensures host == None && !hasStopToken
      ensures Valid()
    {
      requestDispatcher := new RequestDispatcher();
      host := None;
      hasStopToken := false;
    }

    /** A host runs exactly while a stop token is held. The constructor
        establishes it and Start and Stop keep it; while it holds, Start
        always leaves a host running and Stop always releases the token, so
        the next Start is never blocked. */
    predicate Valid()
      reads this
    {
      host.Some? <==> hasStopToken
    }

    /** Wraps `api` and registers its methods; `compile` stands for the
        compilation of the wrapper source, and the binder it yields for the
        lookup of each method by name and the binding of its delegate. */
    method RegisterApi(api: TypeInfo, compile: Compiler, apiPrefix: Option<string>) returns (thrown: Option<Exception>)
      modifies requestDispatcher
      ensures var r := ApiRegistration(old(requestDispatcher.MethodMap), api, compile, apiPrefix);
        requestDispatcher.MethodMap == r.table && thrown == r.failure
    {
      ghost var start := requestDispatcher.MethodMap;
      ghost var g := RestCodeGen.Generate(api, RestCodeGen.Distinct(NamesOf(api.methods)), RestCodeGen.MethodSource);
      ghost var r := ApiRegistration(start, api, compile, apiPrefix);
      var gen := new RestCodeGen.CodeGen();
      var code := gen.BuildServiceCode(api);
      assert requestDispatcher.MethodMap == start;
      if code.Err? {
        assert r == Registration(start, Some(code.error));
        return Some(code.error);
      }
      assert g.failure.None? && code.value == ServiceShell(api, g.methods) && gen.MethodNames == g.names;
      var instance := compile(code.value);
      if instance.Err? {
        assert r == Registration(start, Some(instance.error));
        return Some(instance.error);
      }
      assert r == RegisterAll(start, gen.MethodNames, apiPrefix, instance.value);
      thrown := RegisterNames(gen.MethodNames, apiPrefix, instance.value);
    }

    /** The registration loop of RegisterApi: binds each name's delegate and
        registers it under its relative url, in order, stopping at the first
        name that cannot be bound or is refused. */
    method RegisterNames(names: seq<string>, apiPrefix: Option<string>, delegates: Binder)
      returns (thrown: Option<Exception>)
      modifies requestDispatcher
      ensures var r := RegisterAll(old(requestDispatcher.MethodMap), names, apiPrefix, delegates);
        requestDispatcher.MethodMap == r.table && thrown == r.failure
    {
      ghost var start := requestDispatcher.MethodMap;
      ghost var reg := Registration(start, None);
      var i := 0;
      assert names[..0] == [];
      while i < |names|
        invariant 0 <= i <= |names|
        invariant reg == RegisterAll(start, names[..i], apiPrefix, delegates)
        invariant reg.failure.None? && reg.table == requestDispatcher.MethodMap
      {
        thrown := RegisterOne(names[i], apiPrefix, delegates);
        RegisterAllRound(start, names, apiPrefix, delegates, i, requestDispatcher.MethodMap, thrown);
        if thrown.Some? {
          return;
        }
        reg := RegisterAll(start, names[..i + 1], apiPrefix, delegates);
        i := i + 1;
      }
      assert names[..i] == names;
      thrown := None;
    }

    /** One round of the registration loop: binds the name's delegate and
        registers it under the name's relative url. */
    method RegisterOne(name: string, apiPrefix: Option<string>, delegates: Binder) returns (thrown: Option<Exception>)
      modifies requestDispatcher
      ensures Registration(requestDispatcher.MethodMap, thrown) ==
        RegisterName(old(requestDispatcher.MethodMap), name, apiPrefix, delegates)
    {
      var bound := delegates(name);
      if bound.Err? {
        return Some(bound.error);
      }
      thrown := requestDispatcher.RegisterMethod(RoutePath(apiPrefix, name), bound.value);
    }

    /** Starts the host on `port`, unless a stop token is already held. */
    method Start(port: uint32)
      modifies this
      ensures old(hasStopToken) ==> host == old(host) && hasStopToken
      ensures !old(hasStopToken) ==> host == Some(WebHost(port, requestDispatcher)) && hasStopToken
      ensures old(Valid()) ==> Valid() && host.Some?
    {
      if hasStopToken {
        return;
      }
      hasStopToken := true;
      host := Some(WebHost(port, requestDispatcher));
    }

    /** Stops and drops the host, if there is one; never throws. */
    method Stop()
      modifies this
      ensures old(host).None? ==> host == old(host) && hasStopToken == old(hasStopToken)
      ensures old(host).Some? ==> host == None && !hasStopToken
      ensures old(Valid()) ==> Valid() && host.None? && !hasStopToken
    {
      if host.Some? {
        host := None;
        hasStopToken := false;
      }
    }
  }
}
