/** Failure-carrying values shared by every module: the exceptions the
    source throws become `Err` values instead of control flow. */
module Wrappers {

  datatype Option<+T> = None | Some(value: T)

  /** The .NET exception kinds the modelled code raises. */
  datatype Exception =
    | Exception(message: Message)          // System.Exception
    | ArgumentException(message: Message)  // System.ArgumentException
    | ArgumentOutOfRange                   // indexing an empty List<T>

  /** An exception's message, kept as the values it is built from; Render
      gives its text. `Other` carries a text built outside the model (a
      compiler diagnostic, a request processor's own exception). */
  datatype Message =
    | Other(text: string)
    | MethodNotFound(url: string)
    | MethodAlreadyRegistered(url: string)
    | TooManyOverloads(name: string)
    | NoBodyOverload(name: string)
    | UnsupportedType(typeName: string)

  /** The message texts, the source's spelling kept ("Ambigious",
      "Usupported"). */
  function Render(m: Message): string
  {
    match m
    case Other(text) => text
    case MethodNotFound(url) => "Method " + url + " not found"
    case MethodAlreadyRegistered(url) => "Method " + url + " already registered"
    case TooManyOverloads(name) =>
      "Ambigious method definition, max 2 overloads currently supported - " + name
    case NoBodyOverload(name) =>
      "Ambigious method definition '" + name
        + "': Unable to find method that fits POST request. Method must have single parameter. Parameter must be a class from same module"
    case UnsupportedType(typeName) => "Usupported type: " + typeName
  }

  datatype Result<+T> = Ok(value: T) | Err(error: Exception)
}
