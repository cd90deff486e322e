/** Optional values, the exceptions the modelled code can raise, and results
    that carry either a value or one of those exceptions. */
module Outcomes {

  datatype Option<+T> = None | Some(value: T)

  /** The exceptions of the modelled code that escape to its callers. */
  datatype Error =
    | ValueError(message: string)
    | KeyError(key: string)
    | IndexError
    | AttributeError(name: string)
    | TypeError(message: string)
    | NameError(name: string)
    | InvalidId(id: string)
    | MissingRequired(names: seq<string>)

  datatype Result<+T> = Ok(value: T) | Err(error: Error)
}
