/** Shared result types and the Python value shapes the other modules pass around. */
module Wrappers {
  datatype Option<T> = None | Some(value: T)

  /** The Python exceptions the modelled code raises, with the offending value. */
  datatype Error =
    | KeyError(key: string)
    | ValueError(detail: string)
    | SqlError(detail: string)
    | AttributeError(detail: string)
    | TypeError(detail: string)
    | RuntimeError(detail: string)

  datatype Result<T> = Ok(value: T) | Err(error: Error)

  /** A Python `str | None`. */
  datatype PyStr = PyNone | Str(text: string)
  {
    /** Python truthiness: `None` and `""` are falsy. */
    predicate Truthy() { Str? && |text| > 0 }

    /** What an f-string interpolation `{x}` produces. */
    function Render(): string { if Str? then text else "None" }
  }

  /** A geoprocessing tool parameter, as far as the helpers read it: its name and its text value. */
  datatype Parameter = Parameter(name: string, valueAsText: PyStr)
}
