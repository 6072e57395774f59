/** The route table of RestServiceProvider/Dispatcher.cs: a dictionary from
    relative url to request processor, with register, lookup, invoke,
    unregister and clear. The registration stores the processor under "/"
    followed by the url it was given, while the duplicate check, the lookup
    and the removal use the url exactly as given. */
module Dispatcher {
  import opened Wrappers

  /** A request processor: the parameter dictionary and the request body
      in, the response text (or the exception it throws) out. */
  type Handler = (map<string, string>, string) -> Result<string>

  type Table = map<string, Handler>

  function NotFound(url: string): Exception
  {
    ArgumentException(MethodNotFound(url))
  }

  function AlreadyRegistered(url: string): Exception
  {
    Exception(MethodAlreadyRegistered(url))
  }

  /** The key a processor registered under `url` is stored at. */
  function StoredKey(url: string): (k: string)
    ensures |k| == |url| + 1 && k[0] == '/' && k[1..] == url
  {
    "/" + url
  }

  /** The table after registering `h` under `url`: refused when `url` itself
      is a key; otherwise the stored key is bound to `h`, replacing any
      earlier processor there, and every other entry stays. */
  function Register(m: Table, url: string, h: Handler): (r: Result<Table>)
    ensures r.Err? <==> url in m
    ensures r.Err? ==> r.error == AlreadyRegistered(url)
    ensures r.Ok? ==> r.value.Keys == m.Keys + {StoredKey(url)} && r.value[StoredKey(url)] == h
    ensures r.Ok? ==> forall k :: k in m && k != StoredKey(url) ==> r.value[k] == m[k]
  {
    if url in m then Err(AlreadyRegistered(url)) else Ok(m[StoredKey(url) := h])
  }

  /** The table after removing `url`: exactly that key goes, if present. */
  function Unregister(m: Table, url: string): (r: Table)
    ensures r.Keys == m.Keys - {url}
    ensures forall k :: k in r ==> r[k] == m[k]
  {
    m - {url}
  }

  /** What invoking `url` yields: the processor's outcome, or the not-found
      exception when nothing is registered there. */
  function Invoke(m: Table, url: string, parameters: map<string, string>, body: string): Result<string>
  {
    if url in m then m[url](parameters, body) else Err(NotFound(url))
  }

  /** Registering a url never makes that same url registered: the processor
      is reachable only under the stored key. */
  lemma RegisterHidesUrl(m: Table, url: string, h: Handler)
    requires url !in m
    ensures url !in Register(m, url, h).value
    ensures StoredKey(url) in Register(m, url, h).value
  {
    assert |StoredKey(url)| != |url|;
  }

  /** Hence the duplicate check never fires for a url registered a moment
      ago: registering it again succeeds and replaces the processor. */
  lemma RegisterTwiceReplaces(m: Table, url: string, h1: Handler, h2: Handler)
    requires url !in m
    ensures Register(m, url, h1).Ok?
    ensures Register(Register(m, url, h1).value, url, h2) == Ok(m[StoredKey(url) := h2])
  {
    RegisterHidesUrl(m, url, h1);
    var k := StoredKey(url);
    assert m[k := h1][k := h2] == m[k := h2];
  }

  /** Unregistering the url a processor was registered under removes
      nothing; unregistering its stored key undoes the registration. */
  lemma UnregisterAfterRegister(m: Table, url: string, h: Handler)
    requires url !in m
    ensures Unregister(Register(m, url, h).value, url) == Register(m, url, h).value
    ensures StoredKey(url) !in m ==> Unregister(Register(m, url, h).value, StoredKey(url)) == m
  {
    RegisterHidesUrl(m, url, h);
    var table := Register(m, url, h).value;
    assert Unregister(table, url).Keys == table.Keys;
    if StoredKey(url) !in m {
      assert Unregister(table, StoredKey(url)).Keys == m.Keys;
    }
  }

  /** Unregistering twice is the same as unregistering once, and
      unregistering an unknown url changes nothing. */
  lemma UnregisterIdempotent(m: Table, url: string)
    ensures Unregister(Unregister(m, url), url) == Unregister(m, url)
    ensures url !in m ==> Unregister(m, url) == m
  {
  }

  /** The route table. The lock around registration is not modelled: every
      operation here runs to completion before the next one starts. */
  class RequestDispatcher {
    var MethodMap: Table

    constructor()
      ensures MethodMap == map[]
    {
      MethodMap := map[];
    }

    method UnregisterAllMethods()
      modifies this
      ensures MethodMap == map[]
    {
      MethodMap := map[];
    }

    function IsMethodRegistered(url: string): (r: bool)
      reads this
      ensures r <==> url in MethodMap
    {
      url in MethodMap
    }

    /** Runs the processor registered under `url`: its result or its
        exception, or an ArgumentException when there is none. */
    method InvokeMethod(url: string, parameters: map<string, string>, body: string) returns (r: Result<string>)
      ensures url !in MethodMap ==> r == Err(NotFound(url))
      ensures url in MethodMap ==> r == MethodMap[url](parameters, body)
      ensures r == Invoke(MethodMap, url, parameters, body)
    {
      if url !in MethodMap {
        return Err(NotFound(url));
      }
      r := MethodMap[url](parameters, body);
    }

    /** Registers `h`: throws, leaving the table as it was, when `url` is a
        key; otherwise stores `h` under "/" + url. */
    method RegisterMethod(url: string, h: Handler) returns (thrown: Option<Exception>)
      modifies this
      ensures thrown.Some? <==> url in old(MethodMap)
      ensures thrown.Some? ==> thrown.value == AlreadyRegistered(url) && MethodMap == old(MethodMap)
      ensures thrown.None? ==> MethodMap == Register(old(MethodMap), url, h).value
    {
      if url in MethodMap {
        return Some(AlreadyRegistered(url));
      }
      MethodMap := MethodMap[StoredKey(url) := h];
      thrown := None;
    }

    method UnregisterMethod(url: string)
      modifies this
      ensures MethodMap == Unregister(old(MethodMap), url)
    {
      if url in MethodMap {
        MethodMap := MethodMap - {url};
      }
    }
  }
}
