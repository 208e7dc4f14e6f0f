/** When a key may be leased: the clock readings of the granting requests decide, and nothing else. */
module CommandLeaseTimes {
  import opened Prelude
  import opened CommandReceipts
  import opened CommandTheorems

  /** The i-th request of a run was given a lease of the key. */
  ghost predicate GrantedAt<S, E>(apply: (S, E) -> Transaction<S, Response>, initial: S, events: seq<Event<E>>,
                                  key: Key, i: nat)
  {
    && i < |events| && events[i].DoReserve? && events[i].key == key
    && Play(apply, Start(initial), events[..i + 1]).grants != Play(apply, Start(initial), events[..i]).grants
  }

  /** The request that was given the newest lease of the key. */
  ghost function LastGranting<S, E>(apply: (S, E) -> Transaction<S, Response>, initial: S, events: seq<Event<E>>,
                                    key: Key): (last: Option<nat>)
    ensures last.Some? ==> last.value < |events| && events[last.value].DoReserve? && events[last.value].key == key
  {
    if events == [] then None
    else if GrantedAt(apply, initial, events, key, |events| - 1) then Some(|events| - 1)
    else LastGranting(apply, initial, events[..|events| - 1], key)
  }

  /** The request that was given the first lease of the key. */
  ghost function FirstGranting<S, E>(apply: (S, E) -> Transaction<S, Response>, initial: S, events: seq<Event<E>>,
                                     key: Key): (first: Option<nat>)
    ensures first.Some? ==> first.value < |events| && events[first.value].DoReserve? && events[first.value].key == key
  {
    if events == [] then None
    else
      var before := FirstGranting(apply, initial, events[..|events| - 1], key);
      if before.Some? then before
      else if GrantedAt(apply, initial, events, key, |events| - 1) then Some(|events| - 1)
      else None
  }

  /** A receipt row is what its first and its newest granting request made it. */
  ghost predicate TimesOk<S, E>(apply: (S, E) -> Transaction<S, Response>, initial: S, events: seq<Event<E>>, key: Key) {
    var receipts := Play(apply, Start(initial), events).db.receipts;
    var first, last := FirstGranting(apply, initial, events, key), LastGranting(apply, initial, events, key);
    if key !in receipts then first.None? && last.None?
    else
      && first.Some? && last.Some?
      && receipts[key].identity == events[first.value].identity == events[last.value].identity
      && 0 < events[first.value].now <= events[last.value].now
      && (receipts[key].Reserved? ==>
            && receipts[key].reservedAt == events[first.value].now
            && receipts[key].expires == events[last.value].now + CLAIM_LIFETIME)
  }

  /** Reading a run by its last event. */
  lemma LastStep<S, E>(apply: (S, E) -> Transaction<S, Response>, initial: S, events: seq<Event<E>>, key: Key)
    requires events != []
    ensures
      var w := Play(apply, Start(initial), events[..|events| - 1]);
      var last := events[|events| - 1];
      GrantedAt(apply, initial, events, key, |events| - 1) <==>
        && last.DoReserve? && last.key == key
        && Reserve(w.db, key, last.identity, last.now).Commit? && Reserve(w.db, key, last.identity, last.now).reply.Owned?
  {
    assert events[..|events| - 1 + 1] == events;
  }

  lemma {:induction false} TimesAreKept<S, E>(apply: (S, E) -> Transaction<S, Response>, initial: S,
                                             events: seq<Event<E>>, key: Key)
    ensures TimesOk(apply, initial, events, key)
  {
    if events != [] {
      var before := events[..|events| - 1];
      TimesAreKept(apply, initial, before, key);
      LastStep(apply, initial, events, key);
    }
  }

  /** Every earlier grant of the key is at most as late as the newest one. */
  lemma {:induction false} GrantsClimb<S, E>(apply: (S, E) -> Transaction<S, Response>, initial: S,
                                            events: seq<Event<E>>, key: Key, i: nat)
    requires GrantedAt(apply, initial, events, key, i)
    ensures
      var last := LastGranting(apply, initial, events, key);
      && last.Some? && i <= last.value
      && (i < last.value ==> events[i].now + CLAIM_LIFETIME <= events[last.value].now)
  {
    var n := |events| - 1;
    if i < n {
      var before := events[..n];
      assert before[..i + 1] == events[..i + 1] && before[..i] == events[..i];
      GrantsClimb(apply, initial, before, key, i);
      TimesAreKept(apply, initial, before, key);
      LastStep(apply, initial, events, key);
    }
  }

  // ----------------------------------------------------------------- theorems

  /** Two leases of one key are never both inside their granted time: whatever was finished, requested or
      changed between them, the later one was given a whole lifetime after the earlier one. */
  lemma LeasesNeverOverlap<S, E>(apply: (S, E) -> Transaction<S, Response>, initial: S, events: seq<Event<E>>,
                                 key: Key, i: nat, j: nat)
    requires i < j && GrantedAt(apply, initial, events, key, i) && GrantedAt(apply, initial, events, key, j)
    ensures events[i].now + CLAIM_LIFETIME <= events[j].now
  {
    var upto := events[..j + 1];
    assert upto[..i + 1] == events[..i + 1] && upto[..i] == events[..i];
    assert upto[..j + 1] == events[..j + 1] && upto[..j] == events[..j];
    assert GrantedAt(apply, initial, upto, key, i) && GrantedAt(apply, initial, upto, key, j);
    GrantsClimb(apply, initial, upto, key, i);
  }

  /** A request is given a lease exactly when its key has not completed, the new expiry can be represented,
      and either the key was never leased, or its one command is an ordinary one, asked for again a whole
      lifetime after the newest lease. The new lease carries a token that no lease had before. */
  lemma LeasedExactly<S, E>(apply: (S, E) -> Transaction<S, Response>, initial: S, events: seq<Event<E>>,
                            key: Key, identity: Identity, now: int)
    ensures
      var w := Play(apply, Start(initial), events);
      var last := LastGranting(apply, initial, events, key);
      var tx := Reserve(w.db, key, identity, now);
      && (tx.Commit? && tx.reply.Owned? <==>
            && Completions(w.done, key) == 0
            && now + CLAIM_LIFETIME <= I64_MAX
            && (if last.None? then now > 0
                else
                  && identity == events[last.value].identity && identity.kind.Ordinary?
                  && events[last.value].now + CLAIM_LIFETIME <= now))
      && (tx.Commit? && tx.reply.Owned? ==>
            && tx.reply.lease.key == key && tx.reply.lease.request == identity.request
            && forall g :: 0 <= g < |w.grants| ==> w.grants[g].token != tx.reply.lease.token)
  {
    CommandsHappenOnce(apply, initial, events);
    TimesAreKept(apply, initial, events, key);
    assert KeyOk(Play(apply, Start(initial), events), key);
  }

  /** What a leased key that has not completed answers its own ordinary command: the holder's time is
      respected to its end, and afterwards the command can be taken over. */
  lemma LiveLeasesAreRespected<S, E>(apply: (S, E) -> Transaction<S, Response>, initial: S, events: seq<Event<E>>,
                                     key: Key, now: int)
    requires
      var last := LastGranting(apply, initial, events, key);
      && last.Some? && events[last.value].identity.kind.Ordinary?
      && Completions(Play(apply, Start<S, E>(initial), events).done, key) == 0
    ensures
      var w := Play(apply, Start(initial), events);
      var held := events[LastGranting(apply, initial, events, key).value];
      var tx := Reserve(w.db, key, held.identity, now);
      && (now < held.now + CLAIM_LIFETIME ==> tx == Rollback(OwnershipLost))
      && (held.now + CLAIM_LIFETIME <= now <= I64_MAX - CLAIM_LIFETIME ==>
            && tx.Commit? && tx.reply.Owned? && LastGrant(w.grants, key) != Some(tx.reply.lease))
      && (held.now + CLAIM_LIFETIME <= now && I64_MAX - CLAIM_LIFETIME < now ==> tx == Rollback(InvalidInput))
  {
    CommandsHappenOnce(apply, initial, events);
    TimesAreKept(apply, initial, events, key);
    assert KeyOk(Play(apply, Start(initial), events), key);
    LastGrantIsAGrant(Play(apply, Start(initial), events).grants, key);
  }

  lemma {:induction false} LastGrantIsAGrant(grants: seq<Lease>, key: Key)
    ensures LastGrant(grants, key).Some? ==> exists g :: 0 <= g < |grants| && grants[g] == LastGrant(grants, key).value
  {
    if grants != [] && grants[|grants| - 1].key != key { LastGrantIsAGrant(grants[..|grants| - 1], key); }
  }

  /** A lease finishes its command exactly when it is the newest of a key that has not completed, the effect
      goes through, and the clock stands between the first request for the key and the end of the
      lease's own lifetime. */
  lemma LeasesFinishInTheirTime<S, E>(apply: (S, E) -> Transaction<S, Response>, initial: S, events: seq<Event<E>>,
                                      lease: Lease, effect: E, now: int)
    ensures
      var w := Play(apply, Start(initial), events);
      var first := FirstGranting(apply, initial, events, lease.key);
      var last := LastGranting(apply, initial, events, lease.key);
      Finish(apply, w.db, lease, effect, now).Commit? <==>
        && LastGrant(w.grants, lease.key) == Some(lease) && Completions(w.done, lease.key) == 0
        && first.Some? && last.Some?
        && events[first.value].now <= now < events[last.value].now + CLAIM_LIFETIME
        && apply(w.db.store, effect).Commit?
  {
    OnlyTheNewestLeaseFinishes(apply, initial, events, lease, effect, now);
    EffectAndCompletionTogether(apply, initial, events, lease.key, 0);
    TimesAreKept(apply, initial, events, lease.key);
  }
}
