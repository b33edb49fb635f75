/** Optional values, results and the error kinds shared by the stores and the application layer. */
module Wrappers {

  datatype Option<T> = None | Some(value: T)

  /** The errors the stores and the application can return. */
  datatype Error =
    | PlanetNotFound            // the sentinel ErrorPlanetNotFound
    | StoreError                // a failed SQL statement (query, exec, scan or argument expansion)
    | RemoteError(reason: string) // a failed request, transport, read or decode against the remote dataset
    | ScriptExhausted           // the scripted remote replies ran out before the crawl finished

  datatype Result<T> = Ok(value: T) | Err(error: Error)
}
