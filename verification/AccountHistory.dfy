/** The change history of a run: account revisions count it, and it lists the credentials that
    commits installed. */
module AccountHistory {
  import opened Prelude
  import opened Collections
  import opened AccountModel
  import opened AccountRuns
  import opened AccountSafety

  /** `written` is the credential that a committed enrollment or refresh installed. */
  datatype Change = Change(account: AccountId, written: Option<Binding>)

  datatype World = World(tables: Tables, log: seq<Change>)

  /** The one entry a command adds to the history, if it changed an account row. */
  ghost function Recorded(t: Tables, c: Command): seq<Change> {
    if c.DoAdvance? && c.to.Committed? then
      var tx := Advance(t, c.id, c.from, c.to, c.code, c.visit);
      if tx.Commit? && tx.reply.Applied? then
        var o := t.operations[c.id];
        [Change(o.account, if o.kind.Logout? then None else o.target)]
      else []
    else if c.DoSetEnabled? then
      var tx := SetEnabled(t, c.account, c.revision, c.enabled);
      if tx.Commit? && tx.reply.Updated? then [Change(c.account, None)] else []
    else []
  }

  ghost function Next(w: World, c: Command): World {
    World(Step(w.tables, c), w.log + Recorded(w.tables, c))
  }

  ghost function Play(w: World, commands: seq<Command>): World {
    if commands == [] then w
    else Next(Play(w, commands[..|commands| - 1]), commands[|commands| - 1])
  }

  const Start: World := World(Empty, [])

  function Changes(log: seq<Change>, a: AccountId): nat {
    if log == [] then 0
    else Changes(log[..|log| - 1], a) + if log[|log| - 1].account == a then 1 else 0
  }

  /** The credential most recently committed for an account. */
  function LastWritten(log: seq<Change>, a: AccountId): Option<Binding> {
    if log == [] then None
    else
      var last := log[|log| - 1];
      if last.account == a && last.written.Some? then last.written
      else LastWritten(log[..|log| - 1], a)
  }

  lemma Appended(log: seq<Change>, c: Change)
    ensures (log + [c])[..|log + [c]| - 1] == log
  {
  }

  lemma {:induction false} PlayRuns(w: World, commands: seq<Command>)
    ensures Play(w, commands).tables == Run(w.tables, commands)
  {
    if commands != [] { PlayRuns(w, commands[..|commands| - 1]); }
  }

  // ------------------------------------------------------------------ revisions

  ghost predicate RevisionsCount(w: World) {
    forall a :: Revision(w.tables, a) == Changes(w.log, a)
  }

  /** How an advance shows in the account rows and in the history. */
  lemma AdvanceRecords(t: Tables, c: Command)
    requires c.DoAdvance?
    ensures
      if Recorded(t, c) == [] then Step(t, c).accounts == t.accounts
      else
        && c.to.Committed? && c.id in t.operations
        && Settle(t, c.id, c.visit).Done? && Step(t, c).accounts == Settle(t, c.id, c.visit).tables.accounts
        && var o := t.operations[c.id];
           Recorded(t, c) == [Change(o.account, if o.kind.Logout? then None else o.target)]
  {
    AdvanceCases(t, c.id, c.from, c.to, c.code, c.visit);
  }

  lemma StepRecords(t: Tables, c: Command, a: AccountId)
    ensures Revision(Step(t, c), a) == Revision(t, a) + Changes(Recorded(t, c), a)
  {
    if c.DoAdvance? {
      AdvanceRecords(t, c);
      if Recorded(t, c) != [] { SettleCommits(t, c.id, c.visit); }
    }
  }

  lemma ChangesAdd(log: seq<Change>, more: seq<Change>, a: AccountId)
    requires |more| <= 1
    ensures Changes(log + more, a) == Changes(log, a) + Changes(more, a)
  {
    if more == [] { assert log + more == log; } else { assert more == [more[0]]; Appended(log, more[0]); }
  }

  lemma StepKeepsRevisions(w: World, c: Command)
    requires RevisionsCount(w)
    ensures RevisionsCount(Next(w, c))
  {
    forall a ensures Revision(Next(w, c).tables, a) == Changes(Next(w, c).log, a) {
      StepRecords(w.tables, c, a);
      ChangesAdd(w.log, Recorded(w.tables, c), a);
    }
  }

  /** Over every run an account's revision is the number of its committed operations and effective
      enable switches: one for the enrollment, one for each refresh, logout, restore and switch. */
  lemma {:induction false} RevisionCountsChanges(commands: seq<Command>, a: AccountId)
    ensures
      var w := Play(Start, commands);
      RevisionsCount(w) && (a in w.tables.accounts ==> w.tables.accounts[a].revision == Changes(w.log, a))
  {
    if commands != [] {
      var before := commands[..|commands| - 1];
      RevisionCountsChanges(before, a);
      StepKeepsRevisions(Play(Start, before), commands[|commands| - 1]);
    }
  }
}
