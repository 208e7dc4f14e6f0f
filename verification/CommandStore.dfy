/** The receipt table as the database holds it, beside the store whose tables the commands change. */
module CommandStore {
  import opened Prelude
  import opened CommandReceipts

  /** The receipt table beside the store. */
  class ReceiptStore<S(!new)> {
    var store: S
    var receipts: map<Key, Receipt>
    var nextToken: Token

    constructor (initial: S)
      ensures Snapshot() == Start<S, int>(initial).db
    {
      store, receipts, nextToken := initial, map[], 0;
    }

    ghost function Snapshot(): Db<S>
      reads this
    {
      Db(store, receipts, nextToken)
    }

    method ReserveCommand(key: Key, identity: Identity, now: int) returns (answer: Result<Claim>)
      modifies this`receipts, this`nextToken
      ensures Snapshot() == After(old(Snapshot()), Reserve(old(Snapshot()), key, identity, now))
      ensures answer == Answer(Reserve(old(Snapshot()), key, identity, now))
    {
      var reservedAt := now;
      if key in receipts {
        var row := receipts[key];
        if row.identity != identity { return Err(IdempotencyConflict); }
        if row.Completed? { return Ok(Replayed(row.response)); }
        if identity.kind.Notification? { return Ok(Uncertain); }
        if row.expires > now { return Err(OwnershipLost); }
        reservedAt := row.reservedAt;
      }
      if now + CLAIM_LIFETIME > I64_MAX { return Err(InvalidInput); }
      var token := nextToken;
      var row := Reserved(identity, token, now + CLAIM_LIFETIME, reservedAt);
      if !RowAllowed(row) { return Err(Constraint); }
      nextToken := nextToken + 1;
      receipts := receipts[key := row];
      return Ok(Owned(Lease(key, identity.request, token)));
    }

    /** UPDATE … WHERE the lease still holds; one row or none changes. */
    method FinishReceipt(lease: Lease, response: Response, now: int) returns (answer: Result<()>)
      modifies this`receipts
      ensures answer.Ok? <==>
        Holds(old(Snapshot()), lease, now) && old(receipts)[lease.key].reservedAt <= now
      ensures answer.Err? ==> receipts == old(receipts)
      ensures answer.Err? ==>
        answer.error == if Holds(old(Snapshot()), lease, now) then Constraint else OwnershipLost
      ensures answer.Ok? ==>
        receipts == old(receipts)[lease.key := Completed(old(receipts)[lease.key].identity, response)]
    {
      if lease.key !in receipts { return Err(OwnershipLost); }
      var row := receipts[lease.key];
      if !row.Reserved? || row.identity.request != lease.request || row.token != lease.token || row.expires <= now {
        return Err(OwnershipLost);
      }
      if now < row.reservedAt { return Err(Constraint); }
      receipts := receipts[lease.key := Completed(row.identity, response)];
      return Ok(());
    }

    /** The effect changes the tables first; a receipt that cannot be completed takes it back. */
    method FinishCommand<E>(apply: (S, E) -> Transaction<S, Response>, lease: Lease, effect: E, now: int)
      returns (answer: Result<Response>)
      modifies this
      ensures Snapshot() == After(old(Snapshot()), Finish(apply, old(Snapshot()), lease, effect, now))
      ensures answer == Answer(Finish(apply, old(Snapshot()), lease, effect, now))
    {
      var saved := store;
      var tx := apply(store, effect);
      if tx.Rollback? { return Err(tx.error); }
      store := tx.state;
      var finished := FinishReceipt(lease, tx.reply, now);
      if finished.Err? {
        store := saved;
        return Err(finished.error);
      }
      return Ok(tx.reply);
    }
  }
}
