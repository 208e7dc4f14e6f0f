/** Compacting the routing order: the bulk shift row by row, the rewriting of each row to its rank, and
    when the two can collide. */
module RoutingCompaction {
  import opened Prelude
  import opened Collections
  import opened AccountModel
  import opened AccountRuns

  // ------------------------------------------------------------ rows in order

  lemma {:induction false} IncreasingFromZero(m: map<AccountId, nat>, order: seq<AccountId>, i: nat)
    requires forall k :: 0 <= k < |order| ==> order[k] in m
    requires forall j, k :: 0 <= j < k < |order| ==> m[order[j]] < m[order[k]]
    requires i < |order|
    ensures m[order[i]] >= i
  {
    if i > 0 { IncreasingFromZero(m, order, i - 1); }
  }

  lemma {:induction false} IncreasingToEnd(m: map<AccountId, nat>, order: seq<AccountId>, i: nat)
    requires forall k :: 0 <= k < |order| ==> order[k] in m && m[order[k]] < |order|
    requires forall j, k :: 0 <= j < k < |order| ==> m[order[j]] < m[order[k]]
    requires i < |order|
    ensures m[order[i]] <= i
    decreases |order| - i
  {
    if i + 1 < |order| { IncreasingToEnd(m, order, i + 1); }
  }

  // ------------------------------------------------- the two halves of a compaction

  ghost predicate Increasing(m: map<AccountId, nat>, ids: seq<AccountId>) {
    && (forall k :: 0 <= k < |ids| ==> ids[k] in m)
    && (forall j, k :: 0 <= j < k < |ids| ==> m[ids[j]] < m[ids[k]])
  }

  /** The first `i` rows have their final positions, the others still their shifted ones. */
  ghost predicate HalfNumbered(before: map<AccountId, nat>, ids: seq<AccountId>, i: nat, now: map<AccountId, nat>) {
    && (forall a :: a in ids <==> a in before) && now.Keys == before.Keys
    && forall k :: 0 <= k < |ids| ==>
         ids[k] in before && now[ids[k]] == if k < i then k else before[ids[k]] + MAX_ACCOUNT_COUNT
  }

  /** At every step of the rewriting all positions are distinct, and the next row's rank is free. */
  lemma RewriteStaysUnique(before: map<AccountId, nat>, ids: seq<AccountId>, i: nat, now: map<AccountId, nat>)
    requires Increasing(before, ids) && HalfNumbered(before, ids, i, now) && i < |ids|
    ensures Unique(now) && Free(now, ids[i], i)
    ensures HalfNumbered(before, ids, i + 1, now[ids[i] := i])
  {
    forall a, b | a in now && b in now && a != b ensures now[a] != now[b] {
      var j :| 0 <= j < |ids| && ids[j] == a;
      var k :| 0 <= k < |ids| && ids[k] == b;
      IncreasingFromZero(before, ids, j);
      IncreasingFromZero(before, ids, k);
    }
    forall b | b in now && b != ids[i] ensures now[b] != i {
      var k :| 0 <= k < |ids| && ids[k] == b;
      IncreasingFromZero(before, ids, k);
    }
  }

  /** In the rows sorted by position the rows before each one are those with lower positions. */
  lemma LowerRows(m: map<AccountId, nat>, ids: seq<AccountId>, k: nat, b: AccountId)
    requires Increasing(m, ids) && (forall a :: a in ids <==> a in m) && k < |ids|
    ensures b in ids[..k] <==> b in m && m[b] < m[ids[k]]
  {
    if b in m && m[b] < m[ids[k]] {
      var j :| 0 <= j < |ids| && ids[j] == b;
      assert ids[..k][j] == b;
    }
  }

  lemma NumberedRowsAreCompacted(m: map<AccountId, nat>, ids: seq<AccountId>, numbered: map<AccountId, nat>)
    requires Increasing(m, ids) && HalfNumbered(m, ids, |ids|, numbered)
    ensures numbered == Compacted(m)
  {
    forall a | a in m ensures numbered[a] == Rank(m, a) {
      var k :| 0 <= k < |ids| && ids[k] == a;
      var below := set b | b in m && m[b] < m[a];
      forall b ensures b in below <==> b in Elements(ids[..k]) { LowerRows(m, ids, k, b); }
      assert below == Elements(ids[..k]) && Distinct(ids[..k]);
      DistinctSize(ids[..k]);
    }
  }

  lemma AppendIncreasing(m: map<AccountId, nat>, ids: seq<AccountId>, low: AccountId)
    requires Increasing(m, ids) && low in m && forall a :: a in ids ==> a in m && m[a] < m[low]
    ensures Increasing(m, ids + [low])
  {
    var after := ids + [low];
    forall j, k | 0 <= j < k < |after| ensures m[after[j]] < m[after[k]] {
      assert after[j] == ids[j] && ids[j] in ids;
    }
  }

  lemma ShiftGoesOn(m: map<AccountId, nat>, visit: seq<AccountId>, a: AccountId)
    requires Distinct(visit) && a !in visit && a in m
    ensures Distinct(visit + [a]) && forall b :: b in visit + [a] <==> b in visit || b == a
    ensures
      var now := Shifted(m, visit);
      && Shifted(m, visit + [a]) == now[a := now[a] + MAX_ACCOUNT_COUNT]
      && (ShiftSucceeds(m, visit + [a]) <==>
            ShiftSucceeds(m, visit) && Free(now, a, now[a] + MAX_ACCOUNT_COUNT))
  {
    DistinctAppend(visit, [a]);
    assert (visit + [a])[..|visit + [a]| - 1] == visit;
  }

  /** A walk over all rows that fails at row `a`. */
  lemma ShiftStops(m: map<AccountId, nat>, done: seq<AccountId>, a: AccountId, rest: set<AccountId>)
    returns (visit: seq<AccountId>)
    requires Distinct(done) && a !in done && a in m && a !in rest && forall b :: b in rest ==> b !in done
    requires !Free(Shifted(m, done), a, Shifted(m, done)[a] + MAX_ACCOUNT_COUNT)
    ensures !ShiftSucceeds(m, visit)
    ensures Distinct(visit) && forall b :: b in visit <==> b in done || b == a || b in rest
  {
    var others := Enumerate(rest);
    ShiftGoesOn(m, done, a);
    ShiftFailsOnward(m, done + [a], others);
    DistinctAppend(done + [a], others);
    visit := done + [a] + others;
  }

  // ------------------------------------------------ when a compaction can collide

  /** No two rows stand exactly 512 positions apart. */
  ghost predicate NoClash(m: map<AccountId, nat>) {
    forall a, b :: a in m && b in m ==> m[a] != m[b] + MAX_ACCOUNT_COUNT
  }

  lemma {:induction false} ShiftedAt(m: map<AccountId, nat>, visit: seq<AccountId>)
    requires Distinct(visit)
    ensures forall a :: a in m ==> Shifted(m, visit)[a] == if a in visit then m[a] + MAX_ACCOUNT_COUNT else m[a]
  {
    if visit != [] {
      var n := |visit| - 1;
      ShiftedAt(m, visit[..n]);
      assert visit == visit[..n] + [visit[n]];
      assert visit[n] !in visit[..n];
    }
  }

  lemma {:induction false} ShiftWithoutClash(m: map<AccountId, nat>, visit: seq<AccountId>)
    requires Unique(m) && NoClash(m) && Distinct(visit)
    ensures ShiftSucceeds(m, visit)
  {
    if visit != [] {
      var n := |visit| - 1;
      ShiftWithoutClash(m, visit[..n]);
      ShiftedAt(m, visit[..n]);
      assert visit[n] !in visit[..n];
    }
  }

  /** A walk that fails on its first rows fails. */
  lemma {:induction false} ShiftFailsOnward(m: map<AccountId, nat>, first: seq<AccountId>, rest: seq<AccountId>)
    requires !ShiftSucceeds(m, first)
    ensures !ShiftSucceeds(m, first + rest)
  {
    if rest == [] {
      assert first + rest == first;
    } else {
      ShiftFailsOnward(m, first, rest[..|rest| - 1]);
      assert (first + rest)[..|first + rest| - 1] == first + rest[..|rest| - 1];
    }
  }

  /** The bulk shift is safe whatever row order the database picks exactly when no two rows stand
      512 positions apart. */
  lemma ShiftSafeExactlyWithoutClash(m: map<AccountId, nat>)
    requires Unique(m)
    ensures NoClash(m) <==>
      forall visit :: Distinct(visit) && (forall a :: a in visit <==> a in m) ==> ShiftSucceeds(m, visit)
  {
    if NoClash(m) {
      forall visit | Distinct(visit) && (forall a :: a in visit <==> a in m)
        ensures ShiftSucceeds(m, visit)
      {
        ShiftWithoutClash(m, visit);
      }
    } else {
      var a, b :| a in m && b in m && m[a] == m[b] + MAX_ACCOUNT_COUNT;
      var rest := Enumerate(m.Keys - {b});
      assert [b][..0] == [];
      assert !Free(m, b, m[b] + MAX_ACCOUNT_COUNT);
      ShiftFailsOnward(m, [b], rest);
      assert !ShiftSucceeds(m, [b] + rest);
      DistinctAppend([b], rest);
    }
  }

  lemma {:induction false} ImageSize(m: map<AccountId, nat>, keys: set<AccountId>)
    requires Unique(m) && keys <= m.Keys
    ensures |set a | a in keys :: m[a]| == |keys|
    decreases keys
  {
    if keys != {} {
      var a := Pick(keys);
      var rest := keys - {a};
      ImageSize(m, rest);
      assert (set b | b in keys :: m[b]) == (set b | b in rest :: m[b]) + {m[a]};
    }
  }

  /** A dense order has a row at every position below its size. */
  lemma DenseCovers(m: map<AccountId, nat>, position: nat) returns (a: AccountId)
    requires Dense(m) && position < |m|
    ensures a in m && m[a] == position
  {
    var images := set c | c in m.Keys :: m[c];
    var wanted := Below(|m|);
    ImageSize(m, m.Keys);
    assert |m.Keys| == |m|;
    if position !in images {
      assert forall p :: p in images ==> p in wanted - {position};
      assert images <= wanted - {position};
      SubsetSize(images, wanted - {position});
      assert false;
    }
    a :| a in m && m[a] == position;
  }

  /** A logout compacts safely for every row order exactly when at most 512 accounts are ordered, or
      when 513 are and the one leaving stands first or last. */
  lemma LogoutCompactsSafely(m: map<AccountId, nat>, leaving: AccountId)
    requires Dense(m) && leaving in m
    ensures NoClash(m - {leaving}) <==>
      |m| <= MAX_ACCOUNT_COUNT
      || (|m| == MAX_ACCOUNT_COUNT + 1 && (m[leaving] == 0 || m[leaving] == MAX_ACCOUNT_COUNT))
  {
    var rest := m - {leaving};
    if |m| >= MAX_ACCOUNT_COUNT + 1 {
      var first := DenseCovers(m, 0);
      var last := DenseCovers(m, MAX_ACCOUNT_COUNT);
      if leaving != first && leaving != last {
        assert first in rest && last in rest;
      } else if |m| >= MAX_ACCOUNT_COUNT + 2 {
        var second := DenseCovers(m, 1);
        var next := DenseCovers(m, MAX_ACCOUNT_COUNT + 1);
        assert second in rest && next in rest;
      }
    }
  }
}
