/** The `GetValueOrDefault` extension the generated wrappers call on their
    parameter dictionary. */
module DictHelper {
  import opened Wrappers

  /** The value stored under `key`, or default(T) when the key is missing;
      default(T) is null for the string values it is used with, written
      here as `None`. A missing key is never an error. */
  function GetValueOrDefault<T>(dict: map<string, T>, key: string): (r: Option<T>)
    ensures r.Some? <==> key in dict
    ensures r.Some? ==> r.value == dict[key]
  {
    if key in dict then Some(dict[key]) else None
  }
}
