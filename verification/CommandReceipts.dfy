/** Expiring leases that make a command happen once: the receipt rows of one protocol, beside any
    store `S` whose tables the commands change through effects `E`. Clock readings are inputs of each
    step and may run backwards; claim tokens come from a supply that never repeats. */
module CommandReceipts {
  import opened Prelude

  type Key = int
  type Token = nat
  type Response = int

  const CLAIM_LIFETIME: int := 300_000_000

  datatype CommandKind = Notification(code: int) | Ordinary(code: int)

  /** What a caller must repeat exactly to be recognised. */
  datatype Identity = Identity(request: int, kind: CommandKind, entity: int, revision: Option<int>)

  datatype Receipt =
    | Reserved(identity: Identity, token: Token, expires: int, reservedAt: int)
    | Completed(identity: Identity, response: Response)

  datatype Lease = Lease(key: Key, request: int, token: Token)

  datatype Claim = Owned(lease: Lease) | Replayed(response: Response) | Uncertain

  datatype Db<S> = Db(store: S, receipts: map<Key, Receipt>, nextToken: Token)

  function Reserve<S>(db: Db<S>, key: Key, identity: Identity, now: int): Transaction<Db<S>, Claim> {
    if key in db.receipts && db.receipts[key].identity != identity then
      Rollback(IdempotencyConflict)
    else if key in db.receipts && db.receipts[key].Completed? then
      Commit(db, Replayed(db.receipts[key].response))
    else if key in db.receipts && identity.kind.Notification? then
      Commit(db, Uncertain)
    else if key in db.receipts && db.receipts[key].expires > now then
      Rollback(OwnershipLost)
    else if now + CLAIM_LIFETIME > I64_MAX then
      Rollback(InvalidInput)
    else
      var reservedAt := if key in db.receipts then db.receipts[key].reservedAt else now;
      var row := Reserved(identity, db.nextToken, now + CLAIM_LIFETIME, reservedAt);
      if !RowAllowed(row) then Rollback(Constraint)
      else
        Commit(Db(db.store, db.receipts[key := row], db.nextToken + 1),
               Owned(Lease(key, identity.request, db.nextToken)))
  }

  /** The table's own checks on the times of a reserved row. */
  predicate RowAllowed(row: Receipt)
    requires row.Reserved?
  {
    row.reservedAt > 0 && row.expires > row.reservedAt
  }

  /** The row that a lease still owns at this clock reading. */
  predicate Holds<S>(db: Db<S>, lease: Lease, now: int) {
    && lease.key in db.receipts
    && var row := db.receipts[lease.key];
       row.Reserved? && row.identity.request == lease.request && row.token == lease.token && row.expires > now
  }

  /** Run the effect and complete the receipt in one transaction. */
  function Finish<S, E>(apply: (S, E) -> Transaction<S, Response>, db: Db<S>, lease: Lease, effect: E, now: int)
    : Transaction<Db<S>, Response>
  {
    match apply(db.store, effect)
    case Rollback(error) => Rollback(error)
    case Commit(store, response) =>
      if !Holds(db, lease, now) then Rollback(OwnershipLost)
      else
        var row := db.receipts[lease.key];
        if now < row.reservedAt then Rollback(Constraint)
        else
          Commit(db.(store := store, receipts := db.receipts[lease.key := Completed(row.identity, response)]),
                 response)
  }

  /** Change the store without a receipt. */
  function Direct<S, E>(apply: (S, E) -> Transaction<S, Response>, db: Db<S>, effect: E): Transaction<Db<S>, Response> {
    match apply(db.store, effect)
    case Rollback(error) => Rollback(error)
    case Commit(store, response) => Commit(db.(store := store), response)
  }

  // --------------------------------------------------------------------- runs

  datatype Event<E> =
    | DoReserve(key: Key, identity: Identity, now: int)
    | DoFinish(lease: Lease, effect: E, now: int)
    | DoDirect(effect: E)

  /** One effect that took place, under the key whose receipt completed with it. */
  datatype Happened<E> = Happened(key: Option<Key>, effect: E, response: Response)

  /** The database with what happened so far: the leases granted and the effects committed. */
  datatype World<S, E> = World(db: Db<S>, grants: seq<Lease>, done: seq<Happened<E>>)

  function Next<S, E>(apply: (S, E) -> Transaction<S, Response>, w: World<S, E>, event: Event<E>): World<S, E> {
    match event
    case DoReserve(key, identity, now) =>
      (match Reserve(w.db, key, identity, now)
       case Commit(db, Owned(lease)) => World(db, w.grants + [lease], w.done)
       case Commit(db, _) => w.(db := db)
       case Rollback(_) => w)
    case DoFinish(lease, effect, now) =>
      (match Finish(apply, w.db, lease, effect, now)
       case Commit(db, response) => World(db, w.grants, w.done + [Happened(Some(lease.key), effect, response)])
       case Rollback(_) => w)
    case DoDirect(effect) =>
      (match Direct(apply, w.db, effect)
       case Commit(db, response) => World(db, w.grants, w.done + [Happened(None, effect, response)])
       case Rollback(_) => w)
  }

  function Play<S, E>(apply: (S, E) -> Transaction<S, Response>, w: World<S, E>, events: seq<Event<E>>): World<S, E> {
    if events == [] then w
    else Next(apply, Play(apply, w, events[..|events| - 1]), events[|events| - 1])
  }

  function Start<S, E>(initial: S): World<S, E> {
    World(Db(initial, map[], 0), [], [])
  }

  /** The effects alone, one after another. */
  function Fold<S, E>(apply: (S, E) -> Transaction<S, Response>, s: S, done: seq<Happened<E>>): S {
    if done == [] then s
    else After(Fold(apply, s, done[..|done| - 1]), apply(Fold(apply, s, done[..|done| - 1]), done[|done| - 1].effect))
  }

  function Completions<E>(done: seq<Happened<E>>, key: Key): nat {
    if done == [] then 0
    else Completions(done[..|done| - 1], key) + if done[|done| - 1].key == Some(key) then 1 else 0
  }

  function Grants(grants: seq<Lease>, key: Key): nat {
    if grants == [] then 0
    else Grants(grants[..|grants| - 1], key) + if grants[|grants| - 1].key == key then 1 else 0
  }

  function LastGrant(grants: seq<Lease>, key: Key): Option<Lease> {
    if grants == [] then None
    else if grants[|grants| - 1].key == key then Some(grants[|grants| - 1])
    else LastGrant(grants[..|grants| - 1], key)
  }

  predicate CompletedWith<E>(done: seq<Happened<E>>, key: Key, response: Response) {
    exists i :: 0 <= i < |done| && done[i].key == Some(key) && done[i].response == response
  }
}
