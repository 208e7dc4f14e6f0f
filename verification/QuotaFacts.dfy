/** Quota facts of accounts: whatever the order in which observations arrive, the newest one of each
    window stands. */
module QuotaFacts {
  import opened Prelude

  type AccountId = int

  datatype Window = FiveHours | SevenDays

  datatype Reading = Used(percent: nat, resets: int) | Failed(code: int) | NotApplicable

  datatype Observation = Observation(account: AccountId, window: Window, reading: Reading, at: int)

  datatype Fact = Fact(reading: Reading, at: int)

  type Facts = map<(AccountId, Window), Fact>

  datatype AccountState = Available | Depleted | Other

  datatype Quota = Quota(facts: Facts, live: set<AccountId>, state: map<AccountId, AccountState>)

  predicate Valid(o: Observation) {
    match o.reading
    case Used(percent, resets) => o.at >= 0 && resets > o.at && percent <= 100
    case Failed(_) => o.at >= 0
    case NotApplicable => o.at > 0 && o.window.FiveHours?
  }

  function Cell(o: Observation): (AccountId, Window) {
    (o.account, o.window)
  }

  predicate Exhausted(facts: Facts, a: AccountId) {
    exists w :: (a, w) in facts && facts[(a, w)].reading.Used? && facts[(a, w)].reading.percent >= 100
  }

  /** Insert or overwrite the fact unless a newer one stands; readings other than errors also restate
      whether the account is depleted. */
  function Observe(q: Quota, o: Observation): Transaction<Quota, ()> {
    if !Valid(o) then Rollback(InvalidInput)
    else if Cell(o) in q.facts && q.facts[Cell(o)].at > o.at then Rollback(InvalidInput)
    else
      var facts := q.facts[Cell(o) := Fact(o.reading, o.at)];
      if o.reading.Failed? then Commit(q.(facts := facts), ())
      else if o.account !in q.live then Rollback(InvalidInput)
      else
        Commit(q.(facts := facts,
                  state := q.state[o.account := if Exhausted(facts, o.account) then Depleted else Available]), ())
  }

  function ObserveAll(q: Quota, observations: seq<Observation>): Quota {
    if observations == [] then q
    else
      var before := ObserveAll(q, observations[..|observations| - 1]);
      After(before, Observe(before, observations[|observations| - 1]))
  }

  predicate UsedUp(facts: Facts, cell: (AccountId, Window)) {
    cell in facts && facts[cell].reading.Used? && facts[cell].reading.percent >= 100
  }

  /** A report is taken exactly when it is well formed and not older than the fact that stands, and unless it is a
      failure, its account is live. Its fact then stands in its window alone; a failure leaves the account's state
      as it was, any other report makes the account depleted exactly if some window is used up. */
  lemma ReportsAreTakenExactly(q: Quota, o: Observation)
    ensures
      var tx := Observe(q, o);
      var formed :=
        match o.reading
        case Used(percent, resets) => 0 <= o.at < resets && percent <= 100
        case Failed(_) => 0 <= o.at
        case NotApplicable => 0 < o.at && o.window == FiveHours;
      && (tx.Commit? <==>
            && formed && ((o.account, o.window) in q.facts ==> q.facts[(o.account, o.window)].at <= o.at)
            && (o.reading.Failed? || o.account in q.live))
      && (tx.Commit? ==>
            && tx.state.live == q.live
            && tx.state.facts == q.facts[(o.account, o.window) := Fact(o.reading, o.at)]
            && (forall a :: a in q.state && a != o.account ==> a in tx.state.state && tx.state.state[a] == q.state[a])
            && if o.reading.Failed? then tx.state.state == q.state
               else
                 && o.account in tx.state.state && tx.state.state.Keys == q.state.Keys + {o.account}
                 && tx.state.state[o.account] ==
                      if UsedUp(tx.state.facts, (o.account, FiveHours)) || UsedUp(tx.state.facts, (o.account, SevenDays))
                      then Depleted else Available)
  {
    var facts := q.facts[(o.account, o.window) := Fact(o.reading, o.at)];
    if w :| (o.account, w) in facts && facts[(o.account, w)].reading.Used? && facts[(o.account, w)].reading.percent >= 100 {
      assert w == FiveHours || w == SevenDays;
      assert UsedUp(facts, (o.account, w));
    }
    assert Exhausted(facts, o.account) <== UsedUp(facts, (o.account, FiveHours)) || UsedUp(facts, (o.account, SevenDays));
  }

  // ---------------------------------------------------------------- convergence

  /** Observations of live accounts that would each be accepted on their own. */
  predicate Acceptable(q: Quota, observations: seq<Observation>) {
    forall o :: o in observations ==> Valid(o) && o.account in q.live
  }

  predicate FromPrior(q: Quota, cell: (AccountId, Window), f: Fact) {
    cell in q.facts && q.facts[cell] == f
  }

  predicate Reports(observations: seq<Observation>, cell: (AccountId, Window), f: Fact) {
    exists o :: o in observations && Cell(o) == cell && Fact(o.reading, o.at) == f
  }

  /** The fact comes from the start or from an observation, and nothing newer was ever there. */
  ghost predicate Stands(q: Quota, observations: seq<Observation>, cell: (AccountId, Window), f: Fact) {
    && (FromPrior(q, cell, f) || Reports(observations, cell, f))
    && (cell in q.facts ==> q.facts[cell].at <= f.at)
    && (forall o :: o in observations && Cell(o) == cell ==> o.at <= f.at)
  }

  /** The same reports, in whatever order and however often. */
  ghost predicate SameReports(xs: seq<Observation>, ys: seq<Observation>) {
    forall o :: o in xs <==> o in ys
  }

  /** The newest fact of each window ever reported, and no other. */
  ghost predicate HoldNewest(q: Quota, observations: seq<Observation>, facts: Facts) {
    && (forall cell :: cell in facts ==> Stands(q, observations, cell, facts[cell]))
    && (forall cell :: cell in q.facts ==> cell in facts)
    && (forall o :: o in observations ==> Cell(o) in facts)
  }

  lemma {:induction false} NewestStands(q: Quota, observations: seq<Observation>)
    requires Acceptable(q, observations)
    ensures
      var n := ObserveAll(q, observations);
      n.live == q.live && HoldNewest(q, observations, n.facts)
  {
    if observations != [] {
      var before, last := observations[..|observations| - 1], observations[|observations| - 1];
      assert observations == before + [last];
      NewestStands(q, before);
      var m, n := ObserveAll(q, before), ObserveAll(q, observations);
      forall cell | cell in n.facts ensures Stands(q, observations, cell, n.facts[cell]) {
        if cell == Cell(last) && n.facts[cell] == Fact(last.reading, last.at) {
          assert Reports(observations, cell, n.facts[cell]);
          if cell in m.facts { assert Stands(q, before, cell, m.facts[cell]); }
        } else {
          StandsOn(q, before, last, cell, m.facts[cell]);
        }
      }
    }
  }

  lemma StandsOn(q: Quota, before: seq<Observation>, last: Observation, cell: (AccountId, Window), f: Fact)
    requires Stands(q, before, cell, f) && (Cell(last) == cell ==> last.at <= f.at)
    ensures Stands(q, before + [last], cell, f)
  {
    if Reports(before, cell, f) {
      var o :| o in before && Cell(o) == cell && Fact(o.reading, o.at) == f;
      assert o in before + [last];
    }
  }

  /** No two different reports of one window carry the same timestamp. */
  ghost predicate DistinctTimes(q: Quota, observations: seq<Observation>) {
    && (forall o, p :: o in observations && p in observations && Cell(o) == Cell(p) && o.at == p.at ==> o == p)
    && (forall o :: o in observations && Cell(o) in q.facts && q.facts[Cell(o)].at == o.at ==>
          q.facts[Cell(o)] == Fact(o.reading, o.at))
  }

  lemma KeptOrReported(q: Quota, xs: seq<Observation>, ys: seq<Observation>, m: Facts, n: Facts, cell: (AccountId, Window))
    requires SameReports(xs, ys) && HoldNewest(q, xs, m) && HoldNewest(q, ys, n) && cell in m
    ensures cell in n
  {
    assert Stands(q, xs, cell, m[cell]);
    if Reports(xs, cell, m[cell]) {
      var o :| o in xs && Cell(o) == cell && Fact(o.reading, o.at) == m[cell];
    }
  }

  lemma StandingIsOne(q: Quota, xs: seq<Observation>, ys: seq<Observation>, cell: (AccountId, Window), f: Fact, g: Fact)
    requires DistinctTimes(q, xs) && SameReports(xs, ys)
    requires Stands(q, xs, cell, f) && Stands(q, ys, cell, g)
    ensures f == g
  {
  }

  lemma NewestAreOne(q: Quota, xs: seq<Observation>, ys: seq<Observation>, m: Facts, n: Facts)
    requires DistinctTimes(q, xs) && SameReports(xs, ys) && HoldNewest(q, xs, m) && HoldNewest(q, ys, n)
    ensures m == n
  {
    forall cell ensures cell in m <==> cell in n {
      if cell in m { KeptOrReported(q, xs, ys, m, n, cell); }
      if cell in n { KeptOrReported(q, ys, xs, n, m, cell); }
    }
    forall cell | cell in m ensures m[cell] == n[cell] {
      StandingIsOne(q, xs, ys, cell, m[cell], n[cell]);
    }
  }

  /** Observations with distinct timestamps leave the same facts in whatever order and however often
      they arrive: of each window the one with the greatest timestamp. */
  lemma FactsConverge(q: Quota, xs: seq<Observation>, ys: seq<Observation>)
    requires Acceptable(q, xs) && DistinctTimes(q, xs) && SameReports(xs, ys)
    ensures ObserveAll(q, xs).facts == ObserveAll(q, ys).facts
    ensures HoldNewest(q, xs, ObserveAll(q, xs).facts)
  {
    NewestStands(q, xs);
    NewestStands(q, ys);
    NewestAreOne(q, xs, ys, ObserveAll(q, xs).facts, ObserveAll(q, ys).facts);
  }

  // ------------------------------------------- when the account state depends on order

  /** What a window of an account holds, if anything. */
  function Held(facts: Facts, a: AccountId, w: Window): Option<Fact> {
    if (a, w) in facts then Some(facts[(a, w)]) else None
  }

  predicate Full(f: Option<Fact>) {
    f.Some? && f.value.reading.Used? && f.value.reading.percent >= 100
  }

  /** The state that an account restates from what its two windows hold. */
  function Restated(five: Option<Fact>, seven: Option<Fact>): AccountState {
    if Full(five) || Full(seven) then Depleted else Available
  }

  function StateOf(q: Quota, a: AccountId): Option<AccountState> {
    if a in q.state then Some(q.state[a]) else None
  }

  /** The report is not older than what the window held at the start. */
  predicate Timely(q: Quota, o: Observation) {
    Cell(o) in q.facts ==> q.facts[Cell(o)].at <= o.at
  }

  predicate Restates(q: Quota, xs: seq<Observation>, a: AccountId, o: Observation) {
    o in xs && o.account == a && Timely(q, o) && !o.reading.Failed?
  }

  /** A timely report of this window says so. */
  predicate Told(q: Quota, xs: seq<Observation>, a: AccountId, w: Window, f: Option<Fact>) {
    exists o :: o in xs && Cell(o) == (a, w) && Timely(q, o) && f == Some(Fact(o.reading, o.at))
  }

  /** The newest fact of a window, whatever the order. */
  function Newest(q: Quota, xs: seq<Observation>, a: AccountId, w: Window): Option<Fact> {
    Held(ObserveAll(q, xs).facts, a, w)
  }

  predicate Failing(f: Option<Fact>) {
    f.Some? && f.value.reading.Failed?
  }

  /** What a window may hold when the account is restated for the last time: only errors follow, so
      it is the newest fact, or the newest fact is an error. */
  predicate Possible(q: Quota, xs: seq<Observation>, a: AccountId, w: Window, f: Option<Fact>) {
    && (f == Held(q.facts, a, w) || Told(q, xs, a, w, f))
    && (f == Newest(q, xs, a, w) || Failing(Newest(q, xs, a, w)))
  }

  /** A timely reading says what the window holds. */
  predicate Read(q: Quota, xs: seq<Observation>, a: AccountId, w: Window, f: Option<Fact>) {
    f.Some? && !f.value.reading.Failed? && Told(q, xs, a, w, f)
  }

  /** The newest fact of some window is one of the readings. */
  predicate Decided(q: Quota, xs: seq<Observation>, a: AccountId) {
    || Read(q, xs, a, FiveHours, Newest(q, xs, a, FiveHours))
    || Read(q, xs, a, SevenDays, Newest(q, xs, a, SevenDays))
  }

  /** The state that every order leaves if they all agree. */
  function Expected(q: Quota, xs: seq<Observation>, a: AccountId): Option<AccountState> {
    if Decided(q, xs, a) then Some(Restated(Newest(q, xs, a, FiveHours), Newest(q, xs, a, SevenDays)))
    else StateOf(q, a)
  }

  /** Whatever the windows may hold at the last restatement, it says the same. */
  ghost predicate OrderFree(q: Quota, xs: seq<Observation>, a: AccountId) {
    forall five, seven ::
      Possible(q, xs, a, FiveHours, five) && Possible(q, xs, a, SevenDays, seven)
      && (Read(q, xs, a, FiveHours, five) || Read(q, xs, a, SevenDays, seven)) ==>
        Some(Restated(five, seven)) == Expected(q, xs, a)
  }

  lemma RestatesBoth(facts: Facts, a: AccountId)
    ensures (if Exhausted(facts, a) then Depleted else Available)
      == Restated(Held(facts, a, FiveHours), Held(facts, a, SevenDays))
  {
    if Exhausted(facts, a) {
      var w :| (a, w) in facts && facts[(a, w)].reading.Used? && facts[(a, w)].reading.percent >= 100;
      assert w == FiveHours || w == SevenDays;
    }
  }

  lemma Appending(q: Quota, p: seq<Observation>, z: Observation)
    ensures ObserveAll(q, p + [z]) == After(ObserveAll(q, p), Observe(ObserveAll(q, p), z))
  {
    assert (p + [z])[..|p + [z]| - 1] == p;
  }

  /** An accepted report of an account. */
  lemma Accepted(m: Quota, z: Observation)
    requires Valid(z) && z.account in m.live && Timely(m, z)
    ensures
      var n, a := After(m, Observe(m, z)), z.account;
      && n.live == m.live && n.facts == m.facts[Cell(z) := Fact(z.reading, z.at)]
      && StateOf(n, a) == if z.reading.Failed? then StateOf(m, a)
                          else Some(Restated(Held(n.facts, a, FiveHours), Held(n.facts, a, SevenDays)))
  {
    RestatesBoth(m.facts[Cell(z) := Fact(z.reading, z.at)], z.account);
  }

  lemma NewestIs(q: Quota, xs: seq<Observation>, p: seq<Observation>, a: AccountId, w: Window)
    requires Acceptable(q, xs) && forall o :: o in p ==> o in xs
    ensures
      var f := Held(ObserveAll(q, p).facts, a, w);
      f == Held(q.facts, a, w) || Told(q, xs, a, w, f)
    ensures ObserveAll(q, p).live == q.live
    ensures forall o :: Timely(ObserveAll(q, p), o) ==> Timely(q, o)
  {
    NewestStands(q, p);
    var m := ObserveAll(q, p);
    if (a, w) in m.facts {
      assert Stands(q, p, (a, w), m.facts[(a, w)]);
    }
    forall o | Timely(m, o) ensures Timely(q, o) {
      if Cell(o) in q.facts { assert Stands(q, p, Cell(o), m.facts[Cell(o)]); }
    }
  }

  // Every order ends in one of the expected ways.

  /** Since the last restatement only errors arrived in the window. */
  predicate OnlyErrorsSince(q: Quota, xs: seq<Observation>, m: Quota, a: AccountId, w: Window, f: Option<Fact>) {
    && (f == Held(q.facts, a, w) || Told(q, xs, a, w, f))
    && (f == Held(m.facts, a, w) || Failing(Held(m.facts, a, w)))
  }

  predicate NeverRestated(q: Quota, xs: seq<Observation>, p: seq<Observation>, m: Quota, a: AccountId) {
    && StateOf(m, a) == StateOf(q, a)
    && forall o :: o in p && Restates(q, xs, a, o) ==> Held(m.facts, a, o.window) != Some(Fact(o.reading, o.at))
  }

  predicate LastRestated(q: Quota, xs: seq<Observation>, m: Quota, a: AccountId, five: Option<Fact>, seven: Option<Fact>) {
    && StateOf(m, a) == Some(Restated(five, seven))
    && OnlyErrorsSince(q, xs, m, a, FiveHours, five) && OnlyErrorsSince(q, xs, m, a, SevenDays, seven)
    && (Read(q, xs, a, FiveHours, five) || Read(q, xs, a, SevenDays, seven))
  }

  lemma {:induction false} EveryOrderRestates(q: Quota, xs: seq<Observation>, p: seq<Observation>, a: AccountId)
    requires Acceptable(q, xs) && forall o :: o in p ==> o in xs
    ensures
      var m := ObserveAll(q, p);
      NeverRestated(q, xs, p, m, a) || exists five, seven :: LastRestated(q, xs, m, a, five, seven)
  {
    if p != [] {
      var before, z := p[..|p| - 1], p[|p| - 1];
      EveryOrderRestates(q, xs, before, a);
      var m, n := ObserveAll(q, before), ObserveAll(q, p);
      NewestIs(q, xs, before, a, FiveHours);
      if Timely(m, z) {
        Accepted(m, z);
        if z.account == a && !z.reading.Failed? {
          NewestIs(q, xs, p, a, FiveHours);
          NewestIs(q, xs, p, a, SevenDays);
          assert Told(q, xs, a, z.window, Some(Fact(z.reading, z.at)));
          assert Held(n.facts, a, z.window) == Some(Fact(z.reading, z.at));
          assert z.window == FiveHours || z.window == SevenDays;
          assert LastRestated(q, xs, n, a, Held(n.facts, a, FiveHours), Held(n.facts, a, SevenDays));
        } else {
          ErrorsChangeNothing(q, xs, before, z, m, n, a);
        }
      } else {
        assert n == m;
        assert NeverRestated(q, xs, before, m, a) ==> NeverRestated(q, xs, p, m, a);
      }
    }
  }

  lemma ErrorsChangeNothing(q: Quota, xs: seq<Observation>, p: seq<Observation>, z: Observation, m: Quota, n: Quota, a: AccountId)
    requires z.account != a || z.reading.Failed?
    requires n.facts == m.facts[Cell(z) := Fact(z.reading, z.at)] && StateOf(n, a) == StateOf(m, a)
    ensures NeverRestated(q, xs, p, m, a) ==> NeverRestated(q, xs, p + [z], n, a)
    ensures forall five, seven :: LastRestated(q, xs, m, a, five, seven) ==> LastRestated(q, xs, n, a, five, seven)
  {
  }

  lemma OrdersAgree(q: Quota, xs: seq<Observation>, ys: seq<Observation>, a: AccountId)
    requires Acceptable(q, xs) && DistinctTimes(q, xs) && SameReports(xs, ys) && OrderFree(q, xs, a)
    ensures StateOf(ObserveAll(q, ys), a) == Expected(q, xs, a)
  {
    FactsConverge(q, xs, ys);
    EveryOrderRestates(q, xs, ys, a);
    var m := ObserveAll(q, ys);
    if !NeverRestated(q, xs, ys, m, a) {
      var five, seven :| LastRestated(q, xs, m, a, five, seven);
    }
  }

  // Every way in which it may end is the end of some order.

  /** Nothing that a later arrival of the report would change. */
  predicate Inert(m: Quota, z: Observation, a: AccountId) {
    z.account == a ==>
      && Cell(z) in m.facts
      && (m.facts[Cell(z)].at > z.at || (z.reading.Failed? && m.facts[Cell(z)] == Fact(z.reading, z.at)))
  }

  predicate SameAccount(m: Quota, n: Quota, a: AccountId) {
    && n.live == m.live && StateOf(n, a) == StateOf(m, a)
    && forall w :: Held(n.facts, a, w) == Held(m.facts, a, w)
  }

  /** After `p` the first `k` reports of `xs` may follow without effect. */
  lemma {:induction false} Padding(q: Quota, xs: seq<Observation>, a: AccountId, p: seq<Observation>, k: nat)
    returns (ys: seq<Observation>)
    requires Acceptable(q, xs) && k <= |xs| && ObserveAll(q, p).live == q.live
    requires forall z :: z in xs ==> z in p || Inert(ObserveAll(q, p), z, a)
    ensures forall o :: o in ys <==> o in p || o in xs[..k]
    ensures SameAccount(ObserveAll(q, p), ObserveAll(q, ys), a)
  {
    if k == 0 {
      ys := p;
    } else {
      ys := Padding(q, xs, a, p, k - 1);
      var z := xs[k - 1];
      assert xs[..k] == xs[..k - 1] + [z];
      if z !in p {
        var m := ObserveAll(q, ys);
        Appending(q, ys, z);
        assert z.account == a ==> Held(m.facts, a, z.window) == Held(ObserveAll(q, p).facts, a, z.window);
        ys := ys + [z];
      }
    }
  }

  function OtherWindow(w: Window): Window {
    if w.FiveHours? then SevenDays else FiveHours
  }

  /** A timely report that was told. */
  lemma Teller(q: Quota, xs: seq<Observation>, a: AccountId, w: Window, f: Option<Fact>) returns (o: Observation)
    requires Told(q, xs, a, w, f)
    ensures o in xs && Cell(o) == (a, w) && Timely(q, o) && f == Some(Fact(o.reading, o.at))
  {
    o :| o in xs && Cell(o) == (a, w) && Timely(q, o) && f == Some(Fact(o.reading, o.at));
  }

  /** The newest fact is at least as new as every report, and at the same time it is the same. */
  lemma NewestWins(q: Quota, xs: seq<Observation>, a: AccountId, w: Window)
    requires Acceptable(q, xs) && DistinctTimes(q, xs)
    ensures
      var f := Newest(q, xs, a, w);
      && (f == Held(q.facts, a, w) || Told(q, xs, a, w, f))
      && (Held(q.facts, a, w).Some? ==> f.Some? && Held(q.facts, a, w).value.at <= f.value.at)
      && forall o :: o in xs && Cell(o) == (a, w) ==>
           f.Some? && o.at <= f.value.at && (o.at == f.value.at ==> f.value == Fact(o.reading, o.at))
  {
    FactsConverge(q, xs, xs);
    NewestIs(q, xs, xs, a, w);
    if Newest(q, xs, a, w).Some? { assert Stands(q, xs, (a, w), Newest(q, xs, a, w).value); }
  }

  /** Bring a window to its newest fact, which is an error, without restating the account. */
  lemma BringToError(q: Quota, xs: seq<Observation>, p: seq<Observation>, a: AccountId, w: Window, f: Option<Fact>)
    returns (r: seq<Observation>)
    requires Acceptable(q, xs) && DistinctTimes(q, xs) && (forall o :: o in p ==> o in xs)
    requires Possible(q, xs, a, w, f) && Held(ObserveAll(q, p).facts, a, w) == f
    ensures (forall o :: o in r ==> o in xs) && (forall o :: o in p ==> o in r)
    ensures
      var m, n := ObserveAll(q, p), ObserveAll(q, r);
      && StateOf(n, a) == StateOf(m, a) && Held(n.facts, a, w) == Newest(q, xs, a, w)
      && Held(n.facts, a, OtherWindow(w)) == Held(m.facts, a, OtherWindow(w))
  {
    r := p;
    NewestWins(q, xs, a, w);
    if f != Newest(q, xs, a, w) {
      assert Told(q, xs, a, w, Newest(q, xs, a, w));
      var e := Teller(q, xs, a, w, Newest(q, xs, a, w));
      if Told(q, xs, a, w, f) { var o := Teller(q, xs, a, w, f); }
      NewestIs(q, xs, p, a, w);
      Appending(q, p, e);
      Accepted(ObserveAll(q, p), e);
      r := p + [e];
    }
  }

  /** With both windows at their newest facts, whatever else is left may follow, as long as the
      readings among those facts have arrived. */
  lemma Finish(q: Quota, xs: seq<Observation>, a: AccountId, p: seq<Observation>) returns (ys: seq<Observation>)
    requires Acceptable(q, xs) && DistinctTimes(q, xs) && (forall o :: o in p ==> o in xs)
    requires forall w :: Held(ObserveAll(q, p).facts, a, w) == Newest(q, xs, a, w)
    requires forall o :: Restates(q, xs, a, o) && Newest(q, xs, a, o.window) == Some(Fact(o.reading, o.at)) ==> o in p
    ensures SameReports(xs, ys) && StateOf(ObserveAll(q, ys), a) == StateOf(ObserveAll(q, p), a)
  {
    NewestIs(q, xs, p, a, FiveHours);
    forall z | z in xs ensures z in p || Inert(ObserveAll(q, p), z, a) {
      if z.account == a {
        NewestWins(q, xs, a, z.window);
        assert Held(ObserveAll(q, p).facts, a, z.window) == Newest(q, xs, a, z.window);
      }
    }
    ys := Padding(q, xs, a, p, |xs|);
    assert xs[..|xs|] == xs;
  }

  /** First let the other window hold `g`, then read `f`; after that only errors follow. */
  lemma SomeOrderLeaves(q: Quota, xs: seq<Observation>, a: AccountId, w: Window, f: Option<Fact>, g: Option<Fact>)
    returns (ys: seq<Observation>)
    requires Acceptable(q, xs) && DistinctTimes(q, xs) && Read(q, xs, a, w, f)
    requires Possible(q, xs, a, w, f) && Possible(q, xs, a, OtherWindow(w), g)
    ensures SameReports(xs, ys) && StateOf(ObserveAll(q, ys), a) == Some(Restated(f, g))
  {
    var v, p := OtherWindow(w), [];
    if Told(q, xs, a, v, g) {
      var other := Teller(q, xs, a, v, g);
      Appending(q, [], other);
      Accepted(q, other);
      p := [] + [other];
    }
    assert Held(ObserveAll(q, p).facts, a, v) == g;
    var o := Teller(q, xs, a, w, f);
    assert Held(ObserveAll(q, p).facts, a, w) == Held(q.facts, a, w);
    NewestIs(q, xs, p, a, w);
    Appending(q, p, o);
    Accepted(ObserveAll(q, p), o);
    p := p + [o];
    assert StateOf(ObserveAll(q, p), a) == Some(Restated(f, g));
    ys := OnlyErrorsFollow(q, xs, a, w, f, g, p);
  }

  lemma OnlyErrorsFollow(q: Quota, xs: seq<Observation>, a: AccountId, w: Window, f: Option<Fact>, g: Option<Fact>,
                         p: seq<Observation>) returns (ys: seq<Observation>)
    requires Acceptable(q, xs) && DistinctTimes(q, xs) && (forall o :: o in p ==> o in xs)
    requires Possible(q, xs, a, w, f) && Possible(q, xs, a, OtherWindow(w), g)
    requires Held(ObserveAll(q, p).facts, a, w) == f && Held(ObserveAll(q, p).facts, a, OtherWindow(w)) == g
    requires forall o :: Restates(q, xs, a, o) && Some(Fact(o.reading, o.at)) == (if o.window == w then f else g) ==> o in p
    ensures SameReports(xs, ys) && StateOf(ObserveAll(q, ys), a) == StateOf(ObserveAll(q, p), a)
  {
    var r := BringToError(q, xs, p, a, w, f);
    r := BringToError(q, xs, r, a, OtherWindow(w), g);
    forall o | Restates(q, xs, a, o) && Newest(q, xs, a, o.window) == Some(Fact(o.reading, o.at)) ensures o in r {
      assert !Failing(Newest(q, xs, a, o.window));
      assert o.window == w || o.window == OtherWindow(w);
    }
    forall v ensures Held(ObserveAll(q, r).facts, a, v) == Newest(q, xs, a, v) {
      assert v == w || v == OtherWindow(w);
    }
    ys := Finish(q, xs, a, r);
  }

  /** When no newest fact is a reading, errors may come first and nothing restates the account. */
  lemma SomeOrderKeeps(q: Quota, xs: seq<Observation>, a: AccountId) returns (ys: seq<Observation>)
    requires Acceptable(q, xs) && DistinctTimes(q, xs) && !Decided(q, xs, a)
    ensures SameReports(xs, ys) && StateOf(ObserveAll(q, ys), a) == StateOf(q, a)
  {
    NewestWins(q, xs, a, FiveHours);
    NewestWins(q, xs, a, SevenDays);
    var five, seven := Held(q.facts, a, FiveHours), Held(q.facts, a, SevenDays);
    forall o | Restates(q, xs, a, o) ensures Newest(q, xs, a, o.window) != Some(Fact(o.reading, o.at)) {
      if Newest(q, xs, a, o.window) == Some(Fact(o.reading, o.at)) {
        assert o.window == FiveHours || o.window == SevenDays;
        assert Told(q, xs, a, o.window, Newest(q, xs, a, o.window));
        assert Read(q, xs, a, o.window, Newest(q, xs, a, o.window));
      }
    }
    var r := BringToError(q, xs, [], a, FiveHours, five);
    r := BringToError(q, xs, r, a, SevenDays, seven);
    forall w ensures Held(ObserveAll(q, r).facts, a, w) == Newest(q, xs, a, w) {
      assert w == FiveHours || w == SevenDays;
    }
    ys := Finish(q, xs, a, r);
  }

  /** The order of arrival does not matter to an account's state exactly when every restatement that
      can be the last one says the same. */
  lemma StateIsOrderFreeExactly(q: Quota, xs: seq<Observation>, a: AccountId)
    requires Acceptable(q, xs) && DistinctTimes(q, xs)
    ensures
      (forall ys :: SameReports(xs, ys) ==> StateOf(ObserveAll(q, ys), a) == StateOf(ObserveAll(q, xs), a))
      <==> OrderFree(q, xs, a)
    ensures OrderFree(q, xs, a) ==> StateOf(ObserveAll(q, xs), a) == Expected(q, xs, a)
  {
    if OrderFree(q, xs, a) {
      forall ys | SameReports(xs, ys) ensures StateOf(ObserveAll(q, ys), a) == StateOf(ObserveAll(q, xs), a) {
        OrdersAgree(q, xs, ys, a);
        OrdersAgree(q, xs, xs, a);
      }
      OrdersAgree(q, xs, xs, a);
    } else {
      var five, seven :|
        && Possible(q, xs, a, FiveHours, five) && Possible(q, xs, a, SevenDays, seven)
        && (Read(q, xs, a, FiveHours, five) || Read(q, xs, a, SevenDays, seven))
        && Some(Restated(five, seven)) != Expected(q, xs, a);
      var ys := SomeOrderEnds(q, xs, a, five, seven);
      var zs;
      if Decided(q, xs, a) {
        NewestWins(q, xs, a, FiveHours);
        NewestWins(q, xs, a, SevenDays);
        zs := SomeOrderEnds(q, xs, a, Newest(q, xs, a, FiveHours), Newest(q, xs, a, SevenDays));
      } else {
        zs := SomeOrderKeeps(q, xs, a);
      }
      assert StateOf(ObserveAll(q, ys), a) != StateOf(ObserveAll(q, zs), a);
    }
  }

  lemma SomeOrderEnds(q: Quota, xs: seq<Observation>, a: AccountId, five: Option<Fact>, seven: Option<Fact>)
    returns (ys: seq<Observation>)
    requires Acceptable(q, xs) && DistinctTimes(q, xs)
    requires Possible(q, xs, a, FiveHours, five) && Possible(q, xs, a, SevenDays, seven)
    requires Read(q, xs, a, FiveHours, five) || Read(q, xs, a, SevenDays, seven)
    ensures SameReports(xs, ys) && StateOf(ObserveAll(q, ys), a) == Some(Restated(five, seven))
  {
    if Read(q, xs, a, FiveHours, five) { ys := SomeOrderLeaves(q, xs, a, FiveHours, five, seven); }
    else { ys := SomeOrderLeaves(q, xs, a, SevenDays, seven, five); }
  }

  /** Without errors among the reports the order never matters: an account that a timely report
      restates is depleted exactly when one of its newest facts is, and any other keeps its state. */
  lemma ErrorFreeStateIsExact(q: Quota, xs: seq<Observation>, ys: seq<Observation>, a: AccountId)
    requires Acceptable(q, xs) && DistinctTimes(q, xs) && SameReports(xs, ys)
    requires forall o :: o in xs && o.account == a ==> !o.reading.Failed?
    ensures StateOf(ObserveAll(q, ys), a) ==
      if exists o :: Restates(q, xs, a, o) then
        Some(if Exhausted(ObserveAll(q, xs).facts, a) then Depleted else Available)
      else StateOf(q, a)
  {
    RestatesBoth(ObserveAll(q, xs).facts, a);
    forall w, f | Possible(q, xs, a, w, f) ensures f == Newest(q, xs, a, w) { ErrorFreeWindow(q, xs, a, w, f); }
    if o :| Restates(q, xs, a, o) {
      ReadWindow(q, xs, a, o);
    } else if w :| Read(q, xs, a, w, Newest(q, xs, a, w)) {
      var o := Teller(q, xs, a, w, Newest(q, xs, a, w));
      assert Restates(q, xs, a, o);
    }
    OrdersAgree(q, xs, ys, a);
  }

  lemma ErrorFreeWindow(q: Quota, xs: seq<Observation>, a: AccountId, w: Window, f: Option<Fact>)
    requires Acceptable(q, xs) && DistinctTimes(q, xs) && Possible(q, xs, a, w, f)
    requires forall o :: o in xs && o.account == a ==> !o.reading.Failed?
    ensures f == Newest(q, xs, a, w)
  {
    NewestWins(q, xs, a, w);
    if f != Newest(q, xs, a, w) {
      if Told(q, xs, a, w, Newest(q, xs, a, w)) { var e := Teller(q, xs, a, w, Newest(q, xs, a, w)); }
      var o := Teller(q, xs, a, w, f);
      assert false;
    }
  }

  lemma ReadWindow(q: Quota, xs: seq<Observation>, a: AccountId, o: Observation)
    requires Acceptable(q, xs) && DistinctTimes(q, xs) && Restates(q, xs, a, o)
    requires forall o :: o in xs && o.account == a ==> !o.reading.Failed?
    ensures Read(q, xs, a, o.window, Newest(q, xs, a, o.window)) && Decided(q, xs, a)
  {
    var w := o.window;
    NewestWins(q, xs, a, w);
    if Newest(q, xs, a, w) == Held(q.facts, a, w) { assert Told(q, xs, a, w, Newest(q, xs, a, w)); }
    var e := Teller(q, xs, a, w, Newest(q, xs, a, w));
    assert w == FiveHours || w == SevenDays;
  }

  // ------------------------------------------------- the account state does depend

  const Spent: Observation := Observation(1, FiveHours, Used(100, 10), 1)
  const Broken: Observation := Observation(1, FiveHours, Failed(7), 2)
  const Fresh: Quota := Quota(map[], {1}, map[1 := Available])

  /** An error does not restate the account: arriving after a depleted reading it leaves the account
      depleted, arriving before it keeps the reading out and the account available, although the facts
      agree. */
  lemma StateDependsOnOrder()
    ensures Acceptable(Fresh, [Spent, Broken]) && DistinctTimes(Fresh, [Spent, Broken])
    ensures ObserveAll(Fresh, [Spent, Broken]).facts == ObserveAll(Fresh, [Broken, Spent]).facts
    ensures ObserveAll(Fresh, [Spent, Broken]).state == map[1 := Depleted]
    ensures ObserveAll(Fresh, [Broken, Spent]).state == map[1 := Available]
  {
    assert [Spent, Broken][..1] == [Spent] && [Spent][..0] == [];
    assert [Broken, Spent][..1] == [Broken] && [Broken][..0] == [];
    var cell := (1, FiveHours);
    var spent := Quota(map[cell := Fact(Used(100, 10), 1)], {1}, map[1 := Depleted]);
    assert Exhausted(spent.facts, 1);
    assert ObserveAll(Fresh, [Spent]) == spent;
    var broken := Quota(map[cell := Fact(Failed(7), 2)], {1}, map[1 := Available]);
    assert ObserveAll(Fresh, [Broken]) == broken;
    assert ObserveAll(Fresh, [Spent, Broken]) == broken.(state := map[1 := Depleted]);
    assert ObserveAll(Fresh, [Broken, Spent]) == broken;
  }

  class QuotaStore {
    var facts: Facts
    var live: set<AccountId>
    var state: map<AccountId, AccountState>

    constructor (accounts: set<AccountId>)
      ensures Snapshot() == Quota(map[], accounts, map[])
    {
      facts, live, state := map[], accounts, map[];
    }

    function Snapshot(): Quota
      reads this
    {
      Quota(facts, live, state)
    }

    method ObserveQuota(o: Observation) returns (answer: Result<()>)
      modifies this`facts, this`state
      ensures Snapshot() == After(old(Snapshot()), Observe(old(Snapshot()), o))
      ensures answer == Answer(Observe(old(Snapshot()), o))
    {
      if !Valid(o) { return Err(InvalidInput); }
      if Cell(o) in facts && facts[Cell(o)].at > o.at { return Err(InvalidInput); }
      var saved := facts;
      facts := facts[Cell(o) := Fact(o.reading, o.at)];
      if !o.reading.Failed? {
        if o.account !in live {
          facts := saved;
          return Err(InvalidInput);
        }
        state := state[o.account := if Exhausted(facts, o.account) then Depleted else Available];
      }
      return Ok(());
    }
  }
}
