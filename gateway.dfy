/** The remote database as the controllers see it. The network calls
    themselves are not modelled: a controller method reports the request it
    issues and receives the gateway's answer as a parameter. */
module Gateway {
  import opened Wrappers

  /** The `error` field of a mutation's answer: absent (`Ok`) or present. */
  datatype Outcome = Ok | Err

  /** The answer to a `select`: `data` holds the returned rows, `failed`
      says whether the `error` field was set. */
  datatype Response<T> = Response(data: Option<seq<T>>, failed: bool)

  /** The single mutation a handler sends to the table it mirrors. */
  datatype Request<D> =
    | Insert(row: D)
    | Update(id: string, patch: D)
    | Delete(id: string)
}
