/** Identifiers, the exceptions the command side can raise, and the result types
    that carry them (each C# `throw` becomes a `Failure`/`Fail` value). */
module Core {

  /** A `System.Guid`, kept abstract as a natural number. */
  type Guid = nat

  /** `Guid.Empty`, the id of an aggregate no event has touched yet. */
  const EmptyGuid: Guid := 0

  /** The exceptions raised by the aggregate, the event store and the handler. */
  datatype Error =
    | InvalidOperation(message: string)   // a business guard of the post aggregate
    | KeyNotFound                         // `_comments[commentId]` with an unknown id
    | DuplicateKey                        // `_comments.Add` with an id already present
    | Concurrency                         // expected version differs from the stored one
    | IndexOutOfRange                     // `eventStream[^1]` on an empty stream
    | AggregateNotFound(message: string)  // no stored event for the requested aggregate
    | ArgumentNull(message: string)       // the event store holds no event at all

  datatype Option<T> = None | Some(value: T)

  datatype Result<T> = Success(value: T) | Failure(error: Error)

  /** The outcome of an operation that returns nothing (`void`/`Task`). */
  datatype Outcome = Pass | Fail(error: Error)

  /** Appending in two rounds appends what each round added. */
  lemma AppendAssociates<T>(start: seq<T>, earlier: seq<T>, later: seq<T>)
    ensures (start + earlier) + later == start + (earlier + later)
  {
  }
}
