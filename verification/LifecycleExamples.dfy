/** Runs in which a tombstone cannot be restored or does not resolve, or in which a committed version
    falls back. */
module LifecycleExamples {
  import opened Prelude
  import opened AccountModel
  import opened AccountRuns
  import opened AccountCredentials
  import opened AccountHistory
  import opened AccountDating
  import opened AccountTombstones
  import opened AccountTheorems

  const Bundle: Binding := Binding(1, 1, 7, 30, 1)

  const Enrolling: Preparation := Preparation(10, Enroll, Some(0), Some(true), None, None, Some(Bundle), 30)

  const Leaving: Preparation := Preparation(10, Logout, None, None, Some(1), Some(Bundle), None, 30)

  /** Enroll account 10, start its logout, switch it off, finish the logout. */
  const Stranding: seq<Command> := [
    DoPrepare(1, Enrolling, None),
    DoCreate(10, Bundle),
    DoAdvance(1, Prepared, StoreApplied, None, []),
    DoAdvance(1, StoreApplied, Phase.Committed, None, []),
    DoPrepare(2, Leaving, None),
    DoSetEnabled(10, 1, false),
    DoDelete(10, Bundle),
    DoAdvance(2, Prepared, StoreApplied, None, []),
    DoAdvance(2, StoreApplied, Phase.Committed, None, [])
  ]

  function Row(p: Preparation, phase: Phase): Operation {
    Opened(p, None).(phase := phase)
  }

  /** The state after each of the nine commands. */
  function State(n: nat): Tables {
    var enrolling := map[1 := Row(Enrolling, if n < 3 then Prepared else if n == 3 then StoreApplied else Phase.Committed)];
    Tables(
      if n < 4 then map[]
      else map[10 := Account(n < 6, if n < 6 then 1 else if n < 9 then 2 else 3, 30, n >= 9)],
      if n == 0 then map[]
      else if n < 5 then enrolling
      else enrolling[2 := Row(Leaving, if n < 8 then Prepared else if n == 8 then StoreApplied else Phase.Committed)],
      if 2 <= n < 7 then map[10 := Bundle] else map[],
      if 4 <= n < 9 then map[10 := 0] else map[],
      Balanced,
      if n < 4 then 1 else if n < 9 then 2 else 3,
      {})
  }

  lemma StartsOperation(n: nat)
    requires n == 0 || n == 4
    ensures Step(State(n), Stranding[n]) == State(n + 1)
  {
  }

  lemma MovesCredentialOrPhase(n: nat)
    requires n == 1 || n == 2 || n == 5 || n == 6 || n == 7
    ensures Step(State(n), Stranding[n]) == State(n + 1)
  {
  }

  lemma CommitsEnrollment()
    ensures Step(State(3), Stranding[3]) == State(4)
  {
  }

  lemma CommitsLogout()
    ensures Step(State(8), Stranding[8]) == State(9)
  {
    var remaining := State(8).positions - {10};
    assert remaining == map[] && Compacted(remaining) == map[];
  }

  /** A run of commands whose states are known one by one. */
  lemma {:induction false} Follow(commands: seq<Command>, states: nat -> Tables, n: nat)
    requires n <= |commands| && states(0) == Empty
    requires forall k: nat :: k < n ==> Step(states(k), commands[k]) == states(k + 1)
    ensures Run(Empty, commands[..n]) == states(n)
  {
    if n > 0 {
      Follow(commands, states, n - 1);
      assert commands[..n][..n - 1] == commands[..n - 1];
    }
  }

  lemma Strands(n: nat)
    requires n <= 9
    ensures Run(Empty, Stranding[..n]) == State(n)
  {
    forall k: nat | k < n ensures Step(State(k), Stranding[k]) == State(k + 1) {
      if k == 0 || k == 4 { StartsOperation(k); }
      else if k == 3 { CommitsEnrollment(); }
      else if k == 8 { CommitsLogout(); }
      else { MovesCredentialOrPhase(k); }
    }
    Follow(Stranding, State, n);
  }

  /** The tombstone can never be restored: resolving its provider identity is an error. */
  lemma SwitchDuringLogoutStrands()
    ensures CarefulRun(Stranding) && Tombstone(Run(Empty, Stranding), 10) && !Restorable(Run(Empty, Stranding), 10)
    ensures Resolve(Run(Empty, Stranding), 10, 30) == None
  {
    forall i | 0 <= i < |Stranding| ensures Careful(Run(Empty, Stranding[..i]), Stranding[i]) { Strands(i); }
    Strands(9);
    assert Stranding[..9] == Stranding;
    assert IsNewestLogout(State(9), 10, 2);
    Remembered(State(9));
    TombstoneResolvesExactly(State(9), 10, 10);
  }

  // ------------------------------------- a credential of another provider identity

  const Alien: Binding := Binding(1, 1, 8, 31, 1)

  const LeavingAlien: Preparation := Preparation(10, Logout, None, None, Some(1), Some(Alien), None, 31)

  /** Enroll account 10, replace its credential by one of another provider identity, log out. */
  const Straying: seq<Command> := Stranding[..4] + [
    DoDelete(10, Bundle),
    DoCreate(10, Alien),
    DoPrepare(2, LeavingAlien, None),
    DoDelete(10, Alien),
    DoAdvance(2, Prepared, StoreApplied, None, []),
    DoAdvance(2, StoreApplied, Phase.Committed, None, [])
  ]

  function StrayingState(n: nat): Tables {
    if n <= 4 then State(n)
    else
      var t := State(4).(credentials := if n == 6 || n == 7 then map[10 := Alien] else map[]);
      var phase := if n < 9 then Prepared else if n == 9 then StoreApplied else Phase.Committed;
      var u := if n < 7 then t else t.(operations := t.operations[2 := Row(LeavingAlien, phase)]);
      if n < 10 then u
      else u.(accounts := map[10 := Account(false, 2, 30, true)], positions := map[], routingRevision := 3)
  }

  lemma StraysOn(n: nat)
    requires n == 4 || n == 5 || n == 7
    ensures Step(StrayingState(n), Straying[n]) == StrayingState(n + 1)
  {
  }

  lemma StraysAway(n: nat)
    requires n == 6 || n == 8
    ensures Step(StrayingState(n), Straying[n]) == StrayingState(n + 1)
  {
  }

  lemma StraysOut()
    ensures Step(StrayingState(9), Straying[9]) == StrayingState(10)
  {
    var remaining := StrayingState(9).positions - {10};
    assert remaining == map[] && Compacted(remaining) == map[];
  }

  lemma Strays(n: nat)
    requires n <= 10
    ensures Run(Empty, Straying[..n]) == StrayingState(n)
  {
    forall k: nat | k < n ensures Step(StrayingState(k), Straying[k]) == StrayingState(k + 1) {
      if k < 4 { Strands(k); Strands(k + 1); assert Stranding[..k + 1][..k] == Stranding[..k]; }
      else if k == 9 { StraysOut(); }
      else if k == 6 || k == 8 { StraysAway(k); }
      else { StraysOn(k); }
    }
    Follow(Straying, StrayingState, n);
  }

  /** The newest logout of account 10 says whether its tombstone is restorable. */
  lemma Remembered(t: Tables)
    requires Tombstone(t, 10) && IsNewestLogout(t, 10, 2)
    ensures Restorable(t, 10) <==> PredecessorOf(t.operations[2], t.accounts[10].revision, t.accounts[10].provider).Some?
  {
    PredecessorIs(t, 10, 2, t.accounts[10].revision, t.accounts[10].provider);
  }

  /** No switch, and the logout expected the account's revision; its credential was another provider's,
      and the tombstone cannot be restored. */
  lemma ForeignLogoutStrands()
    ensures QuietRun(Straying) && Tombstone(Run(Empty, Straying), 10)
    ensures !Restorable(Run(Empty, Straying), 10) && Resolve(Run(Empty, Straying), 10, 30) == None
    ensures
      var t := Run(Empty, Straying[..9]);
      2 in t.operations && t.operations[2].expectedRevision == Some(Revision(t, 10)) && !LeavesPredecessor(t, t.operations[2])
  {
    Strays(9);
    Strays(10);
    assert Straying[..10] == Straying;
    var t := StrayingState(10);
    assert IsNewestLogout(t, 10, 2);
    Remembered(t);
    TombstoneResolvesExactly(t, 10, 10);
  }

  // ----------------------------------------------------- an abandoned restore

  const Returned: Binding := Binding(1, 2, 9, 30, 3)

  const Returning: Preparation := Preparation(10, Enroll, Some(0), Some(true), Some(2), None, Some(Returned), 30)

  /** Enroll account 10, log out, start its restore, store the credential, cancel. */
  const Abandoning: seq<Command> := Stranding[..5] + [
    DoDelete(10, Bundle),
    DoAdvance(2, Prepared, StoreApplied, None, []),
    DoAdvance(2, StoreApplied, Phase.Committed, None, []),
    DoPrepare(3, Returning, None),
    DoCreate(10, Returned),
    DoAdvance(3, Prepared, Cancelled, None, [])
  ]

  function AbandoningState(n: nat): Tables {
    if n <= 5 then State(n)
    else
      var leaving := Row(Leaving, if n < 7 then Prepared else if n == 7 then StoreApplied else Phase.Committed);
      var t := State(5).(operations := State(5).operations[2 := leaving], credentials := map[]);
      if n < 8 then t
      else
        var u := t.(accounts := map[10 := Account(false, 2, 30, true)], positions := map[], routingRevision := 3);
        if n == 8 then u
        else
          var returning := Row(Returning, if n < 11 then Prepared else Cancelled);
          u.(operations := u.operations[3 := returning], credentials := if n < 10 then map[] else map[10 := Returned])
  }

  lemma AbandonsOn(n: nat)
    requires n == 5 || n == 6 || n == 9 || n == 10
    ensures Step(AbandoningState(n), Abandoning[n]) == AbandoningState(n + 1)
  {
  }

  lemma AbandonsLogout()
    ensures Step(AbandoningState(7), Abandoning[7]) == AbandoningState(8)
  {
    var remaining := AbandoningState(7).positions - {10};
    assert remaining == map[] && Compacted(remaining) == map[];
  }

  lemma AbandonsRestore()
    ensures Step(AbandoningState(8), Abandoning[8]) == AbandoningState(9)
  {
    assert IsNewestLogout(AbandoningState(8), 10, 2);
    PredecessorIs(AbandoningState(8), 10, 2, 2, 30);
  }

  lemma Abandons(n: nat)
    requires n <= 11
    ensures Run(Empty, Abandoning[..n]) == AbandoningState(n)
  {
    forall k: nat | k < n ensures Step(AbandoningState(k), Abandoning[k]) == AbandoningState(k + 1) {
      if k < 5 { Strands(k); Strands(k + 1); assert Stranding[..k + 1][..k] == Stranding[..k]; }
      else if k == 7 { AbandonsLogout(); }
      else if k == 8 { AbandonsRestore(); }
      else { AbandonsOn(k); }
    }
    Follow(Abandoning, AbandoningState, n);
  }

  lemma AbandonsCarefully()
    ensures CarefulRun(Abandoning) && QuietRun(Abandoning)
  {
    forall i | 0 <= i < |Abandoning| ensures Careful(Run(Empty, Abandoning[..i]), Abandoning[i]) { Abandons(i); }
  }

  /** A careful and quiet run whose tombstone is restorable and yet does not resolve: the credential of the
      cancelled restore is still stored. */
  lemma AbandonedRestoreBlocks()
    ensures CarefulRun(Abandoning) && QuietRun(Abandoning)
    ensures Restorable(Run(Empty, Abandoning), 10) && !NoStrayCredential(Run(Empty, Abandoning), 10)
    ensures Resolve(Run(Empty, Abandoning), 10, 30) == None
  {
    AbandonsCarefully();
    Abandons(11);
    assert Abandoning[..11] == Abandoning;
    AbandonedTombstone();
  }

  lemma AbandonedTombstone()
    ensures
      var t := AbandoningState(11);
      Restorable(t, 10) && !NoStrayCredential(t, 10) && Resolve(t, 10, 30) == None
  {
    var t := AbandoningState(11);
    assert IsNewestLogout(t, 10, 2);
    Remembered(t);
    TombstoneResolvesExactly(t, 10, 10);
  }

  // ------------------------------------------------ an answer that does not fit

  const Huge: Binding := Binding(1, I64_MAX + 1, 8, 30, 2)

  const Asking: Preparation := Preparation(10, Refresh, None, None, Some(1), Some(Bundle), None, 30)

  /** Enroll account 10, start a refresh, record an answer whose version is above an i64. */
  const Overflowing: seq<Command> := Stranding[..4] + [
    DoPrepare(2, Asking, None),
    DoAdvance(2, Prepared, ProviderEffectPending, None, []),
    DoSetTarget(2, Huge)
  ]

  function OverflowingState(n: nat): Tables {
    if n <= 4 then State(n)
    else
      var o := Row(Asking, if n == 5 then Prepared else ProviderEffectPending);
      State(4).(operations := State(4).operations[2 := if n < 7 then o else o.(target := Some(Huge))])
  }

  lemma Overflows(n: nat)
    requires 4 <= n < 7
    ensures Step(OverflowingState(n), Overflowing[n]) == OverflowingState(n + 1)
  {
  }

  /** The refresh can never be settled, and its account starts no other operation. */
  lemma HugeAnswerBlocks()
    ensures
      var t := Run(Empty, Overflowing);
      2 in t.operations && Unsettled(t.operations[2]) && !Readable(t.operations[2]) && !CanSettle(t, 2) && HasUnsettled(t, 10)
  {
    forall k: nat | k < 7 ensures Step(OverflowingState(k), Overflowing[k]) == OverflowingState(k + 1) {
      if k < 4 { Strands(k); Strands(k + 1); assert Stranding[..k + 1][..k] == Stranding[..k]; } else { Overflows(k); }
    }
    Follow(Overflowing, OverflowingState, 7);
    assert Overflowing[..7] == Overflowing;
    SettlesExactlyIfReadable(OverflowingState(7), 2);
  }

  // ------------------------------------------------ a careless host write

  const Renewed: Binding := Binding(1, 1, 8, 30, 2)

  const Renewing: Preparation := Preparation(10, Refresh, None, None, Some(1), Some(Bundle), Some(Renewed), 30)

  /** Enroll account 10, start a refresh, replace its credential by deleting and creating it instead of
      rotating it, and commit the refresh. */
  const Careless: seq<Command> := Stranding[..4] + [
    DoPrepare(2, Renewing, None),
    DoDelete(10, Bundle),
    DoCreate(10, Renewed),
    DoAdvance(2, Prepared, StoreApplied, None, []),
    DoAdvance(2, StoreApplied, Phase.Committed, None, [])
  ]

  function CarelessState(n: nat): Tables {
    if n <= 4 then State(n)
    else
      State(4).(
        operations := State(4).operations[2 := Row(Renewing, if n < 8 then Prepared else if n == 8 then StoreApplied else Phase.Committed)],
        credentials := if n == 5 then map[10 := Bundle] else if n == 6 then map[] else map[10 := Renewed],
        accounts := map[10 := Account(true, if n < 9 then 1 else 2, 30, false)])
  }

  lemma CarelessOperation(n: nat)
    requires n == 4 || n == 7
    ensures Step(CarelessState(n), Careless[n]) == CarelessState(n + 1)
  {
  }

  lemma CarelessCredential(n: nat)
    requires n == 5 || n == 6
    ensures Step(CarelessState(n), Careless[n]) == CarelessState(n + 1)
  {
  }

  lemma CarelessRecords(n: nat)
    requires n == 3 || n == 8
    ensures Recorded(CarelessState(n), Careless[n]) == [Change(10, Some(if n == 3 then Bundle else Renewed))]
  {
  }

  /** Creating a credential for a live account lets a refresh commit a version that is not newer than
      the one committed before. */
  lemma CarelessRefreshFallsBack()
    ensures
      && Recorded(Run(Empty, Careless[..3]), Careless[3]) == [Change(10, Some(Bundle))]
      && Recorded(Run(Empty, Careless[..8]), Careless[8]) == [Change(10, Some(Renewed))]
      && Renewed.version <= Bundle.version
  {
    forall k: nat | k < 8 ensures Step(CarelessState(k), Careless[k]) == CarelessState(k + 1) {
      if k < 4 { Strands(k); Strands(k + 1); assert Stranding[..k + 1][..k] == Stranding[..k]; }
      else if k == 4 || k == 7 { CarelessOperation(k); }
      else { CarelessCredential(k); }
    }
    Follow(Careless, CarelessState, 3);
    Follow(Careless, CarelessState, 8);
    CarelessRecords(3);
    CarelessRecords(8);
  }
}
