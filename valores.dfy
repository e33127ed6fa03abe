/** Values shared by every module: an optional value and the JSON-like values
    that `json.loads` returns and that the page templates walk. */
module Valores {

  datatype Option<+T> = None | Some(value: T)

  datatype Result<+T, +E> = Ok(value: T) | Err(error: E)

  /** A Python value built from dicts, lists, strings, numbers, booleans and None. */
  datatype Valor =
    | Nulo
    | Bool(b: bool)
    | Num(n: real)
    | Str(s: string)
    | Lista(items: seq<Valor>)
    | Dict(campos: map<string, Valor>)
}
