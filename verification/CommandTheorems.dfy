/** What every run of leased commands keeps: each command happens once. */
module CommandTheorems {
  import opened Prelude
  import opened CommandReceipts

  // ---------------------------------------------------------------- invariant

  /** The receipt row tells how often the key was granted and finished. */
  ghost predicate KeyOk<S, E>(w: World<S, E>, key: Key) {
    if key !in w.db.receipts then
      Grants(w.grants, key) == 0 && Completions(w.done, key) == 0
    else
      var row := w.db.receipts[key];
      && (if row.Reserved? then
            && Completions(w.done, key) == 0
            && LastGrant(w.grants, key) == Some(Lease(key, row.identity.request, row.token))
          else
            Completions(w.done, key) == 1 && CompletedWith(w.done, key, row.response))
      && Grants(w.grants, key) >= 1
      && (row.identity.kind.Notification? ==> Grants(w.grants, key) == 1)
  }

  ghost predicate Once<S, E>(apply: (S, E) -> Transaction<S, Response>, initial: S, w: World<S, E>) {
    && (forall key :: KeyOk(w, key))
    && w.db.store == Fold(apply, initial, w.done)
    && (forall i :: 0 <= i < |w.grants| ==> w.grants[i].token < w.db.nextToken)
  }

  lemma Snoc<T>(s: seq<T>, x: T)
    ensures (s + [x])[..|s + [x]| - 1] == s && (s + [x])[|s + [x]| - 1] == x
  {
  }

  lemma StillCompleted<E>(done: seq<Happened<E>>, h: Happened<E>)
    ensures forall key, response :: CompletedWith(done, key, response) ==> CompletedWith(done + [h], key, response)
  {
    forall key, response | CompletedWith(done, key, response) ensures CompletedWith(done + [h], key, response) {
      var i :| 0 <= i < |done| && done[i].key == Some(key) && done[i].response == response;
      assert (done + [h])[i] == done[i];
    }
  }

  lemma ReserveKeepsOnce<S, E>(apply: (S, E) -> Transaction<S, Response>, initial: S, w: World<S, E>, event: Event<E>)
    requires Once(apply, initial, w) && event.DoReserve?
    ensures Once(apply, initial, Next(apply, w, event))
  {
    var n := Next(apply, w, event);
    match Reserve(w.db, event.key, event.identity, event.now)
    case Commit(_, Owned(lease)) =>
      Snoc(w.grants, lease);
      forall key ensures KeyOk(n, key) { assert KeyOk(w, key); }
    case _ =>
      forall key ensures KeyOk(n, key) { assert KeyOk(w, key); }
  }

  lemma FinishKeepsOnce<S, E>(apply: (S, E) -> Transaction<S, Response>, initial: S, w: World<S, E>, event: Event<E>)
    requires Once(apply, initial, w) && event.DoFinish?
    ensures Once(apply, initial, Next(apply, w, event))
  {
    var n := Next(apply, w, event);
    match Finish(apply, w.db, event.lease, event.effect, event.now)
    case Rollback(_) =>
    case Commit(_, response) =>
      var h := Happened(Some(event.lease.key), event.effect, response);
      Snoc(w.done, h);
      StillCompleted(w.done, h);
      assert CompletedWith(w.done + [h], event.lease.key, response) by { assert (w.done + [h])[|w.done|] == h; }
      forall key ensures KeyOk(n, key) { assert KeyOk(w, key); }
  }

  lemma DirectKeepsOnce<S, E>(apply: (S, E) -> Transaction<S, Response>, initial: S, w: World<S, E>, event: Event<E>)
    requires Once(apply, initial, w) && event.DoDirect?
    ensures Once(apply, initial, Next(apply, w, event))
  {
    var n := Next(apply, w, event);
    match Direct(apply, w.db, event.effect)
    case Rollback(_) =>
    case Commit(_, response) =>
      var h := Happened(None, event.effect, response);
      Snoc(w.done, h);
      StillCompleted(w.done, h);
      forall key ensures KeyOk(n, key) { assert KeyOk(w, key); }
  }

  /** On every run and under any clock, each key's effect happened as often as its receipt completed,
      which is at most once, and the store is exactly what those effects made of it. */
  lemma {:induction false} CommandsHappenOnce<S, E>(apply: (S, E) -> Transaction<S, Response>, initial: S,
                                                   events: seq<Event<E>>)
    ensures Once(apply, initial, Play(apply, Start(initial), events))
  {
    if events == [] {
      assert forall key :: KeyOk(Start<S, E>(initial), key);
    } else {
      var before := events[..|events| - 1];
      CommandsHappenOnce(apply, initial, before);
      var w := Play(apply, Start(initial), before);
      match events[|events| - 1]
      case DoReserve(_, _, _) => ReserveKeepsOnce(apply, initial, w, events[|events| - 1]);
      case DoFinish(_, _, _) => FinishKeepsOnce(apply, initial, w, events[|events| - 1]);
      case DoDirect(_) => DirectKeepsOnce(apply, initial, w, events[|events| - 1]);
    }
  }

  // ----------------------------------------------------------------- theorems

  /** A lease finishes its command exactly when it is the newest granted for its key, the key has not
      completed, the clock stands inside the lease, and the effect itself goes through. */
  lemma OnlyTheNewestLeaseFinishes<S, E>(apply: (S, E) -> Transaction<S, Response>, initial: S,
                                         events: seq<Event<E>>, lease: Lease, effect: E, now: int)
    ensures
      var w := Play(apply, Start(initial), events);
      Finish(apply, w.db, lease, effect, now).Commit? <==>
        && LastGrant(w.grants, lease.key) == Some(lease)
        && Completions(w.done, lease.key) == 0
        && lease.key in w.db.receipts && w.db.receipts[lease.key].Reserved?
        && w.db.receipts[lease.key].reservedAt <= now < w.db.receipts[lease.key].expires
        && apply(w.db.store, effect).Commit?
  {
    CommandsHappenOnce(apply, initial, events);
    assert KeyOk(Play(apply, Start(initial), events), lease.key);
  }

  /** The effect and the completion are one: a finish that commits leaves the effect's store and the
      response, and one that does not leaves everything as it was. */
  lemma EffectAndCompletionTogether<S, E>(apply: (S, E) -> Transaction<S, Response>, initial: S,
                                          events: seq<Event<E>>, key: Key, response: Response)
    ensures
      var w := Play(apply, Start(initial), events);
      && Completions(w.done, key) <= 1
      && (key in w.db.receipts && w.db.receipts[key].Completed? <==> Completions(w.done, key) == 1)
      && (key in w.db.receipts && w.db.receipts[key].Completed? ==>
            CompletedWith(w.done, key, w.db.receipts[key].response))
      && w.db.store == Fold(apply, initial, w.done)
  {
    CommandsHappenOnce(apply, initial, events);
    assert KeyOk(Play(apply, Start(initial), events), key);
  }

  /** The two notification commands are owned at most once per key, ever. */
  lemma NotificationsOwnedOnce<S, E>(apply: (S, E) -> Transaction<S, Response>, initial: S,
                                     events: seq<Event<E>>, key: Key)
    ensures
      var w := Play(apply, Start(initial), events);
      key in w.db.receipts && w.db.receipts[key].identity.kind.Notification? ==> Grants(w.grants, key) == 1
  {
    CommandsHappenOnce(apply, initial, events);
    assert KeyOk(Play(apply, Start(initial), events), key);
  }

  /** What a key was first reserved for never changes, and a completed receipt is final. */
  lemma {:induction false} ReceiptsAreFinal<S, E>(apply: (S, E) -> Transaction<S, Response>, w: World<S, E>,
                                                 later: seq<Event<E>>, key: Key)
    requires key in w.db.receipts
    ensures
      var n := Play(apply, w, later);
      && key in n.db.receipts && n.db.receipts[key].identity == w.db.receipts[key].identity
      && (w.db.receipts[key].Completed? ==> n.db.receipts[key] == w.db.receipts[key])
  {
    if later != [] {
      ReceiptsAreFinal(apply, w, later[..|later| - 1], key);
    }
  }

  /** However late and under whatever clock, a matching reserve of a completed key returns the stored
      response, any other reserve of it is a conflict, and no lease can finish it again. */
  lemma CompletedKeysReplay<S, E>(apply: (S, E) -> Transaction<S, Response>, w: World<S, E>,
                                  later: seq<Event<E>>, key: Key, identity: Identity, now: int,
                                  lease: Lease, effect: E)
    requires key in w.db.receipts && w.db.receipts[key].Completed? && lease.key == key
    ensures
      var n := Play(apply, w, later);
      && Reserve(n.db, key, identity, now) ==
           (if identity == w.db.receipts[key].identity then Commit(n.db, Replayed(w.db.receipts[key].response))
            else Rollback(IdempotencyConflict))
      && Finish(apply, n.db, lease, effect, now).Rollback?
  {
    ReceiptsAreFinal(apply, w, later, key);
  }
}
