/** JSON values as the parser delivers them. Access to a missing key or to a
    value of the wrong kind throws, which the C boundary reports as fatal. */
module JsonModel {
  import opened Common

  datatype Json =
    | Null
    | Bool(b: bool)
    | Int(n: int)
    | Float(r: real)
    | Str(s: string)
    | Arr(items: seq<Json>)
    | Obj(fields: map<string, Json>)

  /** contains(key) */
  predicate Has(j: Json, key: string) {
    j.Obj? && key in j.fields
  }

  /** at(key) */
  function At(j: Json, key: string): Result<Json> {
    if Has(j, key) then Ok(j.fields[key]) else Err(Fatal)
  }

  /** get<std::string>() */
  function Text(j: Json): Result<string> {
    if j.Str? then Ok(j.s) else Err(Fatal)
  }

  function TextAt(j: Json, key: string): Result<string> {
    var field :- At(j, key);
    Text(field)
  }

  /** The elements of an array, an error for anything else. */
  function Items(j: Json): Result<seq<Json>> {
    if j.Arr? then Ok(j.items) else Err(Fatal)
  }

  /** A positive integer that fits in 64 bits. */
  function PositiveInteger(j: Json): Result<nat> {
    if j.Int? && 0 < j.n <= SIZE_MAX then Ok(j.n) else Err(Fatal)
  }
}
