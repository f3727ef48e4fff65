/** Shared vocabulary of the designer package: command names, the 64-bit integers the
    option records carry, check failures, and the embedded launch settings. */
module Types {

  /** The external command names of types.go. */
  const CommandDesigner: string := "DESIGNER"
  const CommandCreateInfobase: string := "CREATEINFOBASE"
  const CommandEnterprise: string := "ENTERPRISE"

  /** Go's `int64`. No operation of the model does arithmetic on these values, so no
      wrap-around is involved; the range only records what the records can hold. */
  type Int64 = x: int | -0x8000_0000_0000_0000 <= x < 0x8000_0000_0000_0000

  datatype Option<T> = None | Some(value: T)

  /** The `(string, error)` pair of a `MarshalV8` encoder. */
  datatype Result<T> = Ok(value: T) | Err(error: string)

  /** One failure reported by a `Check`: the message of `errors.Check.New` and the
      single context entry attached with `WithContext`. A `Check` returns the sequence
      of its failures; the empty sequence is Go's `nil` error. */
  datatype CheckError = CheckError(message: string, contextKey: string, contextValue: string)

  /** The launch settings (`Designer`) every repository command embeds. Their fields are
      not part of this model: records carry the value along and no operation here reads
      or changes it. Constructors receive the value `NewDesigner()` returns as a parameter. */
  datatype Designer = Designer(settings: seq<string>)
}
