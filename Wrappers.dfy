/** Optional values and the configuration errors the plugin raises. */
module Wrappers {

  datatype Option<+T> = None | Some(value: T)

  /** The two exceptions configuration can throw: `require` in the URL
      normaliser and the `AssertionError` of an ambiguous disable. */
  datatype ConfigError = InvalidPath | AmbiguousDisable

  /** A value, or the configuration error raised instead of producing it. */
  datatype Result<+T> = Ok(value: T) | Err(error: ConfigError)

  /** Outcome of a configuration call: it returned, or it threw. */
  datatype Outcome = Pass | Fail(error: ConfigError)
}
