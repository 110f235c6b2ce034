/**
 * What a request handler sends back: `res.status(code).json({ success: true, ... })` or
 * `res.status(code).json({ success: false, error })`, and the collection it leaves behind.
 */
module Http {

  datatype Response<+T> =
    | Success(status: nat, body: T)
    | Failure(status: nat, error: string)

  /** The documents of a collection after a handler ran, and the handler's response. */
  datatype Step<+D, +T> = Step(docs: seq<D>, reply: Response<T>)
}
