/**
 * Replies of the remote dataset, as the stores see them after an HTTP round trip.
 * The HTTP client itself is not modelled: a reply is either a failure before a
 * status code is known (building the request, sending it, reading the body), or
 * a status code with a body that may or may not decode.
 */
module Remote {

  const StatusOK: int := 200

  datatype Body<T> = Parsed(value: T) | Garbled(reason: string)

  datatype Response<T> = Failed(reason: string) | Reply(status: int, body: Body<T>)
}
