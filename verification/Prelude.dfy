/** Shapes shared by every component of the durable store. */
module Prelude {

  datatype Option<+T> = None | Some(value: T) {
    function GetOr(default: T): T {
      match this
      case Some(v) => v
      case None => default
    }
  }

  const I64_MAX: int := 0x7fff_ffff_ffff_ffff
  const U64_MAX: int := 0xffff_ffff_ffff_ffff

  /** The error returns of a transaction; every one of them rolls the transaction back. */
  datatype Error =
    | InvalidInput
    | Incompatible
    | Constraint
    | CapacityExhausted
    | IdempotencyConflict
    | OwnershipLost
    | NotFound
    | AlreadyExists
    | Conflict

  /** One immediate transaction: it commits new tables with a reply, or it leaves no trace. */
  datatype Transaction<+S, +R> = Commit(state: S, reply: R) | Rollback(error: Error)

  function After<S, R>(before: S, tx: Transaction<S, R>): S {
    if tx.Commit? then tx.state else before
  }

  /** What the caller of a transaction gets to see. */
  datatype Result<+R> = Ok(value: R) | Err(error: Error)

  function Answer<S, R>(tx: Transaction<S, R>): Result<R> {
    match tx
    case Commit(_, reply) => Ok(reply)
    case Rollback(error) => Err(error)
  }
}
