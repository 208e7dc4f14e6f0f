/** Committed credential versions climb along every run, and a tombstone remembers the credential
    that its restore must succeed. */
module AccountCredentials {
  import opened Prelude
  import opened Collections
  import opened AccountModel
  import opened AccountRuns
  import opened AccountSafety
  import opened AccountHistory
  import opened AccountDating

  function VersionOf(b: Option<Binding>): nat {
    if b.Some? then b.value.version else 0
  }

  /** Host credentials are created only while the account is absent or tombstoned, as an enrollment
      or restore does. Rotations and deletions are unrestricted. */
  ghost predicate Careful(t: Tables, c: Command) {
    c.DoCreate? ==> !Live(t, c.account)
  }

  ghost predicate CarefulRun(commands: seq<Command>) {
    forall i :: 0 <= i < |commands| ==> Careful(Run(Empty, commands[..i]), commands[i])
  }

  // ------------------------------------------------- what each account keeps

  /** It started from a credential of its account that is no older than the last committed one. */
  ghost predicate PendingOk(t: Tables, last: Option<Binding>, a: AccountId, o: Operation) {
    && a in t.accounts && o.expected.Some?
    && o.expected.value.provider == t.accounts[a].provider
    && o.expected.value.version >= VersionOf(last)
  }

  /** The newest logout remembers the credential that the tombstone left behind. */
  ghost predicate Remembers(t: Tables, last: Option<Binding>, a: AccountId, id: OperationId) {
    && IsNewestLogout(t, a, id) && a in t.accounts
    && var o := t.operations[id];
       && o.expected.Some? && o.expectedRevision.Some?
       && o.expected.value.provider == t.accounts[a].provider
       && o.expected.value.version >= VersionOf(last)
  }

  ghost predicate StoredOk(t: Tables, last: Option<Binding>, a: AccountId) {
    Live(t, a) && a in t.credentials ==>
      && t.credentials[a].provider == t.accounts[a].provider
      && (Some(t.credentials[a]) == last || t.credentials[a].version > VersionOf(last))
  }

  ghost predicate AccountOk(t: Tables, last: Option<Binding>, a: AccountId) {
    && StoredOk(t, last, a)
    && (last.Some? ==> CommittedWriter(t, last.value.writer))
    && (forall id :: id in t.operations && t.operations[id].account == a && Pending(t.operations[id]) ==>
          PendingOk(t, last, a, t.operations[id]))
    && (a in t.accounts && t.accounts[a].tombstoned ==> exists id :: Remembers(t, last, a, id))
  }

  ghost predicate CredentialsOk(w: World) {
    forall a :: AccountOk(w.tables, LastWritten(w.log, a), a)
  }

  // -------------------------------------------------------- the change history

  lemma {:induction false} NothingWritten(log: seq<Change>, a: AccountId)
    requires Changes(log, a) == 0
    ensures LastWritten(log, a).None?
  {
    if log != [] { NothingWritten(log[..|log| - 1], a); }
  }

  /** Every committed credential is newer than all earlier ones of its account. */
  ghost predicate Climbs(log: seq<Change>) {
    log != [] ==>
      var before, last := log[..|log| - 1], log[|log| - 1];
      && Climbs(before)
      && (last.written.Some? ==>
            last.written.value.version > VersionOf(LastWritten(before, last.account)))
  }

  lemma {:induction false} NewestIsLatest(log: seq<Change>, i: nat)
    requires Climbs(log) && i < |log| && log[i].written.Some?
    ensures log[i].written.value.version <= VersionOf(LastWritten(log, log[i].account))
  {
    var n := |log| - 1;
    if i < n { NewestIsLatest(log[..n], i); }
  }

  lemma {:induction false} ClimbingVersions(log: seq<Change>, i: nat, j: nat)
    requires Climbs(log) && i < j < |log|
    requires log[i].account == log[j].account && log[i].written.Some? && log[j].written.Some?
    ensures log[i].written.value.version < log[j].written.value.version
  {
    var n := |log| - 1;
    if j < n { ClimbingVersions(log[..n], i, j); } else { NewestIsLatest(log[..n], i); }
  }

  // --------------------------------------------------------------------- frames

  /** The committed operations of `a` are the same. */
  ghost predicate SameHistory(t: Tables, u: Tables, a: AccountId) {
    SameLogouts(t, u, a) && forall x :: CommittedWriter(t, x) ==> CommittedWriter(u, x)
  }

  /** Operations come, go and move without committing; the account keeps its provider and its
      tombstone. */
  lemma AccountKept(t: Tables, u: Tables, last: Option<Binding>, a: AccountId)
    requires AccountOk(t, last, a) && SameHistory(t, u, a) && StoredOk(u, last, a)
    requires a in t.accounts <==> a in u.accounts
    requires a in t.accounts ==>
      t.accounts[a].provider == u.accounts[a].provider && t.accounts[a].tombstoned == u.accounts[a].tombstoned
    requires forall id :: id in u.operations && u.operations[id].account == a && Pending(u.operations[id]) ==>
      PendingOk(t, last, a, u.operations[id])
    ensures AccountOk(u, last, a)
  {
    if a in t.accounts && t.accounts[a].tombstoned {
      var id :| Remembers(t, last, a, id);
      NewestStays(t, u, a, id);
      assert Remembers(u, last, a, id);
    }
    forall id | id in u.operations && u.operations[id].account == a && Pending(u.operations[id])
      ensures PendingOk(u, last, a, u.operations[id])
    {
      assert PendingOk(t, last, a, u.operations[id]);
    }
  }
}
