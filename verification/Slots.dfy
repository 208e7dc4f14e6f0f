/** Reusable display numbers: reconciling memberships gives each new binding the least free number. */
module Slots {
  import opened Prelude
  import opened Collections

  type Key = int
  type WorkId = int
  type ThreadId = int

  datatype Slot = Slot(work: WorkId, thread: Option<ThreadId>, number: nat)

  datatype Member = Member(key: Key, work: WorkId, thread: Option<ThreadId>)

  type Table = map<Key, Slot>

  function Numbers(s: Table): set<nat> {
    set k | k in s :: s[k].number
  }

  function Positive(used: set<nat>): set<nat> {
    set n | n in used && n > 0
  }

  /** The first number from `n` on that is not used; the used ones from `n` on run out. */
  function FreeFrom(used: set<nat>, n: nat): (free: nat)
    ensures free >= n && free !in used
    ensures forall m :: n <= m < free ==> m in used
    decreases |used - Range(n)|
  {
    if n !in used then n
    else
      assert used - Range(n + 1) < used - Range(n) by { assert n in used - Range(n) && n !in used - Range(n + 1); }
      SmallerSet(used - Range(n + 1), used - Range(n));
      FreeFrom(used, n + 1)
  }

  function Range(n: nat): (r: set<nat>)
    ensures forall m: nat :: m in r <==> m < n
  {
    Below(n)
  }

  function LeastFree(used: set<nat>): nat {
    FreeFrom(used, 1)
  }

  /** By pigeonhole the least free number is at most one more than the positive numbers in use. */
  lemma LeastFreeIsSmall(used: set<nat>)
    ensures 1 <= LeastFree(used) <= |Positive(used)| + 1
  {
    var free := LeastFree(used);
    var smaller := Range(free) - {0};
    assert smaller <= Positive(used);
    SubsetSize(smaller, Positive(used));
    assert |Range(free)| == free && smaller + {0} == Range(free);
  }

  // ------------------------------------------------------------- reconciling

  function Retired(s: Table, retired: seq<Key>): Table {
    map k | k in s && k !in retired :: s[k]
  }

  /** The personal root owns zero, when it is active, not yet bound, and zero is free. */
  function Rooted(s: Table, root: Option<Member>, active: seq<Member>): Table {
    if && root.Some? && (exists i :: 0 <= i < |active| && active[i].work == root.value.key)
       && root.value.key !in s && 0 !in Numbers(s)
    then s[root.value.key := Slot(root.value.key, root.value.thread, 0)] else s
  }

  function Kept(s: Table, eligible: set<WorkId>): Table {
    map k | k in s && (s[k].number == 0 || s[k].work in eligible) :: s[k]
  }

  /** One active member: a known one only learns its thread; a new one gets the least free number,
      unless its key is already there or its native thread was closed. */
  function Assigned(s: Table, known: set<Key>, eligible: set<WorkId>, closed: set<ThreadId>, m: Member): Table {
    if m.work !in eligible then s
    else if m.key in known then (if m.key in s then s[m.key := s[m.key].(thread := m.thread)] else s)
    else if m.key in s || (m.thread.Some? && m.thread.value in closed) then s
    else s[m.key := Slot(m.work, m.thread, LeastFree(Numbers(s)))]
  }

  function AllAssigned(s: Table, known: set<Key>, eligible: set<WorkId>, closed: set<ThreadId>, active: seq<Member>): Table {
    if active == [] then s
    else
      Assigned(AllAssigned(s, known, eligible, closed, active[..|active| - 1]), known, eligible, closed, active[|active| - 1])
  }

  function Basis(s: Table, root: Option<Member>, eligible: set<WorkId>, active: seq<Member>, retired: seq<Key>): Table {
    Kept(Rooted(Retired(s, retired), root, active), eligible)
  }

  function Reconciled(s: Table, root: Option<Member>, eligible: set<WorkId>, closed: set<ThreadId>,
                      active: seq<Member>, retired: seq<Key>): Table
  {
    var basis := Basis(s, root, eligible, active, retired);
    AllAssigned(basis, basis.Keys, eligible, closed, active)
  }

  // ----------------------------------------------------------------- theorems

  predicate Distinguishes(s: Table) {
    forall j, k :: j in s && k in s && j != k ==> s[j].number != s[k].number
  }

  /** What one pass over the active members keeps: bindings stay with their numbers, and the new ones
      fill up from one without a hole. */
  ghost predicate Fills(before: Table, after: Table) {
    && Distinguishes(after)
    && (forall k :: k in before ==> k in after && after[k].number == before[k].number && after[k].work == before[k].work)
    && (forall k :: k in after && k !in before ==> Tight(after, k))
  }

  lemma NumbersGrow(s: Table, k: Key, slot: Slot)
    requires k !in s
    ensures Numbers(s[k := slot]) == Numbers(s) + {slot.number}
  {
    var t := s[k := slot];
    forall n ensures n in Numbers(t) <==> n in Numbers(s) + {slot.number} {
      if n in Numbers(s) {
        var j :| j in s && s[j].number == n;
        assert t[j].number == n;
      }
      if n == slot.number { assert t[k].number == n; }
    }
  }

  lemma SameNumbers(s: Table, k: Key, thread: Option<ThreadId>)
    requires k in s
    ensures Numbers(s[k := s[k].(thread := thread)]) == Numbers(s)
  {
    var t := s[k := s[k].(thread := thread)];
    forall n ensures n in Numbers(t) <==> n in Numbers(s) {
      if n in Numbers(s) { var j :| j in s && s[j].number == n; assert t[j].number == n; }
      if n in Numbers(t) { var j :| j in t && t[j].number == n; assert s[j].number == n; }
    }
  }

  /** A number within the bound, with no free one below it. */
  ghost predicate Tight(s: Table, k: Key)
    requires k in s
  {
    1 <= s[k].number <= |Positive(Numbers(s))| && forall n :: 1 <= n < s[k].number ==> n in Numbers(s)
  }

  lemma JoiningIsTight(s: Table, k: Key, slot: Slot)
    requires k !in s && slot.number == LeastFree(Numbers(s))
    ensures Tight(s[k := slot], k)
  {
    NumbersGrow(s, k, slot);
    LeastFreeIsSmall(Numbers(s));
    assert Positive(Numbers(s) + {slot.number}) == Positive(Numbers(s)) + {slot.number};
  }

  lemma JoiningFills(before: Table, s: Table, k: Key, slot: Slot)
    requires Fills(before, s) && k !in s && slot.number == LeastFree(Numbers(s))
    ensures Fills(before, s[k := slot])
  {
    NumbersGrow(s, k, slot);
    assert forall j :: j in s ==> s[j].number in Numbers(s);
    JoiningIsTight(s, k, slot);
    forall j | j in s && j !in before ensures Tight(s[k := slot], j) {
      SubsetSize(Positive(Numbers(s)), Positive(Numbers(s[k := slot])));
      assert Tight(s, j);
    }
  }

  lemma ThreadFills(before: Table, s: Table, k: Key, thread: Option<ThreadId>)
    requires Fills(before, s) && k in s
    ensures Fills(before, s[k := s[k].(thread := thread)])
  {
    var t := s[k := s[k].(thread := thread)];
    SameNumbers(s, k, thread);
    forall j | j in t && j !in before ensures Tight(t, j) { assert Tight(s, j); }
  }

  lemma AssignedFills(before: Table, s: Table, known: set<Key>, eligible: set<WorkId>, closed: set<ThreadId>, m: Member)
    requires Fills(before, s) && known == before.Keys
    ensures Fills(before, Assigned(s, known, eligible, closed, m))
  {
    if m.work in eligible {
      if m.key in known { ThreadFills(before, s, m.key, m.thread); }
      else if m.key !in s { JoiningFills(before, s, m.key, Slot(m.work, m.thread, LeastFree(Numbers(s)))); }
    }
  }

  lemma {:induction false} AllAssignedFills(before: Table, known: set<Key>, eligible: set<WorkId>, closed: set<ThreadId>,
                                            active: seq<Member>)
    requires Distinguishes(before) && known == before.Keys
    ensures Fills(before, AllAssigned(before, known, eligible, closed, active))
  {
    if active != [] {
      AllAssignedFills(before, known, eligible, closed, active[..|active| - 1]);
      AssignedFills(before, AllAssigned(before, known, eligible, closed, active[..|active| - 1]),
                    known, eligible, closed, active[|active| - 1]);
    }
  }

  lemma BasisDistinguishes(s: Table, root: Option<Member>, eligible: set<WorkId>, active: seq<Member>, retired: seq<Key>)
    requires Distinguishes(s)
    ensures Distinguishes(Basis(s, root, eligible, active, retired))
  {
    var r := Retired(s, retired);
    assert forall k :: k in r ==> r[k].number in Numbers(r);
  }

  /** Reconciling keeps numbers pairwise distinct, never renumbers a binding that survives, and gives
      every new binding a number no larger than the positive bindings there are afterwards, with no
      free number below it; duplicate keys and closed threads in the input change nothing of that. */
  lemma ReconcilingFillsUp(s: Table, root: Option<Member>, eligible: set<WorkId>, closed: set<ThreadId>,
                           active: seq<Member>, retired: seq<Key>)
    requires Distinguishes(s)
    ensures
      var t := Reconciled(s, root, eligible, closed, active, retired);
      && Distinguishes(t)
      && (forall k :: k in s && k !in retired && (s[k].number == 0 || s[k].work in eligible) ==>
            k in t && t[k].number == s[k].number && t[k].work == s[k].work)
      && (forall k :: k in t && t[k].number > 0 && (k !in s || k in retired || s[k].work !in eligible) ==> Tight(t, k))
  {
    var basis := Basis(s, root, eligible, active, retired);
    BasisDistinguishes(s, root, eligible, active, retired);
    AllAssignedFills(basis, basis.Keys, eligible, closed, active);
  }

  /** Exactly the eligible members with an open thread, together with the surviving bindings and the
      root, are bound afterwards. */
  lemma {:induction false} BoundExactly(s: Table, known: set<Key>, eligible: set<WorkId>, closed: set<ThreadId>,
                                        active: seq<Member>, k: Key)
    requires known == s.Keys
    ensures k in AllAssigned(s, known, eligible, closed, active) <==>
      k in s || exists i :: 0 <= i < |active| && Joins(eligible, closed, active[i], k)
  {
    if active != [] {
      var n := |active| - 1;
      BoundExactly(s, known, eligible, closed, active[..n], k);
      AllAssignedKeeps(s, known, eligible, closed, active[..n]);
      forall i | 0 <= i < |active| && Joins(eligible, closed, active[i], k)
        ensures i < n ==> Joins(eligible, closed, active[..n][i], k)
      {
      }
      if exists i :: 0 <= i < n && Joins(eligible, closed, active[..n][i], k) {
        var i :| 0 <= i < n && Joins(eligible, closed, active[..n][i], k);
        assert Joins(eligible, closed, active[i], k);
      }
    }
  }

  predicate Joins(eligible: set<WorkId>, closed: set<ThreadId>, m: Member, k: Key) {
    m.key == k && m.work in eligible && (m.thread.None? || m.thread.value !in closed)
  }

  predicate Remains(s: Table, retired: seq<Key>, k: Key) {
    k in s && k !in retired
  }

  /** The personal root is bound to zero exactly if one of its works is listed, it is not bound, and no remaining
      binding has zero; otherwise the remaining bindings are all there is to start from. */
  lemma RootTakesZeroExactly(s: Table, root: Option<Member>, eligible: set<WorkId>, active: seq<Member>, retired: seq<Key>, k: Key)
    ensures
      var basis := Basis(s, root, eligible, active, retired);
      var rooted :=
        && root.Some? && k == root.value.key && !Remains(s, retired, k)
        && (exists i :: 0 <= i < |active| && active[i].work == root.value.key)
        && (forall j :: Remains(s, retired, j) ==> s[j].number != 0);
      && (k in basis <==> rooted || (Remains(s, retired, k) && (s[k].number == 0 || s[k].work in eligible)))
      && (k in basis ==> basis[k] == if rooted then Slot(root.value.key, root.value.thread, 0) else s[k])
  {
    var r := Retired(s, retired);
    assert 0 in Numbers(r) <==> exists j :: j in r && r[j].number == 0;
    assert forall j :: j in r <==> Remains(s, retired, j);
  }

  /** The thread that the listed members of eligible works give to a key, the last one deciding. */
  function ThreadGiven(eligible: set<WorkId>, active: seq<Member>, k: Key): Option<Option<ThreadId>> {
    if active == [] then None
    else if active[|active| - 1].key == k && active[|active| - 1].work in eligible then Some(active[|active| - 1].thread)
    else ThreadGiven(eligible, active[..|active| - 1], k)
  }

  /** A binding that stays learns the thread of its last eligible member; a new one keeps what it was made with by the
      first member that could join. */
  lemma {:induction false} BindingsLearnTheirThread(s: Table, eligible: set<WorkId>, closed: set<ThreadId>, active: seq<Member>,
                                                    k: Key)
    requires k in AllAssigned(s, s.Keys, eligible, closed, active)
    ensures
      var t := AllAssigned(s, s.Keys, eligible, closed, active);
      if k in s then
        t[k] == s[k].(thread := ThreadGiven(eligible, active, k).GetOr(s[k].thread))
      else
        exists i :: 0 <= i < |active| && Joins(eligible, closed, active[i], k)
          && t[k].work == active[i].work && t[k].thread == active[i].thread
          && forall j :: 0 <= j < i ==> !Joins(eligible, closed, active[j], k)
  {
    if active != [] {
      var n := |active| - 1;
      var before := AllAssigned(s, s.Keys, eligible, closed, active[..n]);
      AllAssignedKeeps(s, s.Keys, eligible, closed, active[..n]);
      BoundExactly(s, s.Keys, eligible, closed, active[..n], k);
      assert forall j :: 0 <= j < n ==> active[..n][j] == active[j];
      if k in before {
        BindingsLearnTheirThread(s, eligible, closed, active[..n], k);
        if k !in s {
          var i :| 0 <= i < n && Joins(eligible, closed, active[..n][i], k)
            && before[k].work == active[..n][i].work && before[k].thread == active[..n][i].thread
            && forall j :: 0 <= j < i ==> !Joins(eligible, closed, active[..n][j], k);
          assert Joins(eligible, closed, active[i], k);
        }
      } else {
        assert Joins(eligible, closed, active[n], k);
      }
    }
  }

  lemma {:induction false} AllAssignedKeeps(s: Table, known: set<Key>, eligible: set<WorkId>, closed: set<ThreadId>,
                                            active: seq<Member>)
    ensures s.Keys <= AllAssigned(s, known, eligible, closed, active).Keys
  {
    if active != [] { AllAssignedKeeps(s, known, eligible, closed, active[..|active| - 1]); }
  }

  // ------------------------------------------------------ closing and resuming

  datatype Board = Board(slots: Table, closed: set<ThreadId>)

  datatype Command =
    | DoReconcile(root: Option<Member>, eligible: set<WorkId>, active: seq<Member>, retired: seq<Key>)
    | DoRelease(thread: ThreadId, boundToWork: bool)
    | DoResume(thread: ThreadId)

  /** A managed agent is bound under its own work. */
  predicate Managed(s: Table, thread: ThreadId) {
    exists k :: k in s && s[k].thread == Some(thread) && k == s[k].work
  }

  /** A child of another work that runs in this thread. */
  predicate NativeChild(s: Table, thread: ThreadId, k: Key)
    requires k in s
  {
    s[k].thread == Some(thread) && k != s[k].work
  }

  function Released(b: Board, thread: ThreadId, boundToWork: bool): Board {
    Board(map k | k in b.slots && !NativeChild(b.slots, thread, k) :: b.slots[k],
          b.closed + if boundToWork || Managed(b.slots, thread) then {} else {thread})
  }

  function Next(b: Board, c: Command): Board {
    match c
    case DoReconcile(root, eligible, active, retired) =>
      b.(slots := Reconciled(b.slots, root, eligible, b.closed, active, retired))
    case DoRelease(thread, boundToWork) => Released(b, thread, boundToWork)
    case DoResume(thread) => b.(closed := b.closed - {thread})
  }

  function Run(b: Board, commands: seq<Command>): Board {
    if commands == [] then b else Next(Run(b, commands[..|commands| - 1]), commands[|commands| - 1])
  }

  /** Over every run the numbers stay distinct. */
  lemma {:induction false} NumbersStayDistinct(commands: seq<Command>)
    ensures Distinguishes(Run(Board(map[], {}), commands).slots)
  {
    if commands != [] {
      var b, c := Run(Board(map[], {}), commands[..|commands| - 1]), commands[|commands| - 1];
      NumbersStayDistinct(commands[..|commands| - 1]);
      if c.DoReconcile? { ReconcilingFillsUp(b.slots, c.root, c.eligible, b.closed, c.active, c.retired); }
    }
  }

  /** Releasing a thread unbinds exactly its native children, bound under other keys than their work. The thread is
      closed exactly if no work was created for it and no managed agent runs in it; nothing else is. */
  lemma ReleasesUnbindExactly(b: Board, thread: ThreadId, boundToWork: bool, k: Key, other: ThreadId)
    ensures
      var n := Next(b, DoRelease(thread, boundToWork));
      var managed := exists j :: j in b.slots && b.slots[j] == Slot(j, Some(thread), b.slots[j].number);
      && (k in n.slots <==> k in b.slots && (b.slots[k].thread == Some(thread) ==> b.slots[k].work == k))
      && (k in n.slots ==> n.slots[k] == b.slots[k])
      && (other in n.closed <==> other in b.closed || (other == thread && !boundToWork && !managed))
  {
    assert Managed(b.slots, thread) <==> exists j :: j in b.slots && b.slots[j] == Slot(j, Some(thread), b.slots[j].number);
  }

  /** No later binding was made for the thread: each one that names it was there before, is the
      root's, or is an older binding that learned the thread. */
  ghost predicate JoinsNone(s: Table, t: Table, root: Option<Member>, eligible: set<WorkId>, active: seq<Member>,
                            retired: seq<Key>, thread: ThreadId)
  {
    forall k :: k in t && k !in Basis(s, root, eligible, active, retired) ==> t[k].thread != Some(thread)
  }

  lemma {:induction false} ClosedJoinsNone(basis: Table, eligible: set<WorkId>, closed: set<ThreadId>, active: seq<Member>,
                                           thread: ThreadId)
    requires thread in closed
    ensures
      var t := AllAssigned(basis, basis.Keys, eligible, closed, active);
      forall k :: k in t && k !in basis ==> t[k].thread != Some(thread)
  {
    if active != [] { ClosedJoinsNone(basis, eligible, closed, active[..|active| - 1], thread); }
  }

  predicate Resumes(commands: seq<Command>, thread: ThreadId) {
    DoResume(thread) in commands
  }

  predicate Releases(commands: seq<Command>, thread: ThreadId) {
    exists c :: c in commands && c.DoRelease? && c.thread == thread
  }

  /** A closed thread stays closed until it is resumed, and an open one open until it is released. */
  lemma {:induction false} ClosedUntilResumed(b: Board, commands: seq<Command>, thread: ThreadId)
    ensures thread in b.closed && !Resumes(commands, thread) ==> thread in Run(b, commands).closed
    ensures thread !in b.closed && !Releases(commands, thread) ==> thread !in Run(b, commands).closed
  {
    if commands != [] {
      var before := commands[..|commands| - 1];
      ClosedUntilResumed(b, before, thread);
      assert commands == before + [commands[|commands| - 1]];
    }
  }

  /** A native thread that was released when no work and no managed agent was bound to it takes no
      new binding in any later reconciliation, until a resume. */
  lemma ReleasedJoinsNone(b: Board, thread: ThreadId, between: seq<Command>, root: Option<Member>, eligible: set<WorkId>,
                          active: seq<Member>, retired: seq<Key>)
    requires !Managed(b.slots, thread) && !Resumes(between, thread)
    ensures
      var n := Run(Next(b, DoRelease(thread, false)), between);
      && thread in n.closed
      && (forall k :: k in Next(b, DoRelease(thread, false)).slots ==>
            k in b.slots && b.slots[k] == Next(b, DoRelease(thread, false)).slots[k] && b.slots[k].thread != Some(thread))
      && JoinsNone(n.slots, Next(n, DoReconcile(root, eligible, active, retired)).slots, root, eligible, active, retired, thread)
  {
    var r := Next(b, DoRelease(thread, false));
    ClosedUntilResumed(r, between, thread);
    forall k | k in r.slots ensures b.slots[k].thread != Some(thread) {
      assert !Managed(b.slots, thread);
    }
    var n := Run(r, between);
    ClosedJoinsNone(Basis(n.slots, root, eligible, active, retired), eligible, n.closed, active, thread);
  }

  /** Once a thread was resumed, and as long as it is not released again, an eligible member that runs
      in it is bound by every reconciliation that lists it. */
  lemma ResumedJoins(b: Board, thread: ThreadId, between: seq<Command>, root: Option<Member>, eligible: set<WorkId>,
                     active: seq<Member>, retired: seq<Key>, i: nat)
    requires !Releases(between, thread)
    requires i < |active| && active[i].thread == Some(thread) && active[i].work in eligible
    ensures
      var n := Run(Next(b, DoResume(thread)), between);
      active[i].key in Next(n, DoReconcile(root, eligible, active, retired)).slots
  {
    ClosedUntilResumed(Next(b, DoResume(thread)), between, thread);
    var n := Run(Next(b, DoResume(thread)), between);
    var basis := Basis(n.slots, root, eligible, active, retired);
    assert Joins(eligible, n.closed, active[i], active[i].key);
    BoundExactly(basis, basis.Keys, eligible, n.closed, active, active[i].key);
  }

  // ---------------------------------------------------------- the tables in place

  class SlotStore {
    var slots: Table
    var closed: set<ThreadId>

    constructor ()
      ensures slots == map[] && closed == {}
    {
      slots, closed := map[], {};
    }

    function Snapshot(): Board
      reads this
    {
      Board(slots, closed)
    }

    /** Count up from one until a number is free. */
    method NextNumber(used: set<nat>) returns (number: nat)
      ensures number == LeastFree(used)
    {
      number := 1;
      while number in used
        invariant FreeFrom(used, 1) == FreeFrom(used, number)
        decreases |used - Range(number)|
      {
        assert number in used - Range(number) && number !in used - Range(number + 1);
        SmallerSet(used - Range(number + 1), used - Range(number));
        number := number + 1;
      }
    }

    method Reconcile(root: Option<Member>, eligible: set<WorkId>, active: seq<Member>, retired: seq<Key>)
      modifies this`slots
      ensures slots == Reconciled(old(slots), root, eligible, closed, active, retired)
    {
      for i := 0 to |retired|
        invariant slots == Retired(old(slots), retired[..i])
      {
        slots := slots - {retired[i]};
        assert retired[..i + 1] == retired[..i] + [retired[i]];
      }
      assert retired[..|retired|] == retired;
      if && root.Some? && (exists i :: 0 <= i < |active| && active[i].work == root.value.key)
         && root.value.key !in slots && 0 !in Numbers(slots) {
        slots := slots[root.value.key := Slot(root.value.key, root.value.thread, 0)];
      }
      slots := map k | k in slots && (slots[k].number == 0 || slots[k].work in eligible) :: slots[k];
      Assign(eligible, active);
    }

    method Assign(eligible: set<WorkId>, active: seq<Member>)
      modifies this`slots
      ensures slots == AllAssigned(old(slots), old(slots).Keys, eligible, closed, active)
    {
      var known := slots.Keys;
      var used := Numbers(slots);
      for i := 0 to |active|
        invariant slots == AllAssigned(old(slots), known, eligible, closed, active[..i])
        invariant used == Numbers(slots)
      {
        var m := active[i];
        assert active[..i + 1][..i] == active[..i];
        AllAssignedKeeps(old(slots), known, eligible, closed, active[..i]);
        if m.work in eligible {
          if m.key in known {
            SameNumbers(slots, m.key, m.thread);
            slots := slots[m.key := slots[m.key].(thread := m.thread)];
          } else {
            var number := NextNumber(used);
            if m.key !in slots && !(m.thread.Some? && m.thread.value in closed) {
              NumbersGrow(slots, m.key, Slot(m.work, m.thread, number));
              slots := slots[m.key := Slot(m.work, m.thread, number)];
              used := used + {number};
            }
          }
        }
      }
      assert active[..|active|] == active;
    }

    /** Close native children: each loses its binding, and its thread gets no other until it resumes. */
    method ReleaseThread(thread: ThreadId, boundToWork: bool)
      modifies this
      ensures Snapshot() == Next(old(Snapshot()), DoRelease(thread, boundToWork))
    {
      if !boundToWork && !Managed(slots, thread) { closed := closed + {thread}; }
      slots := map k | k in slots && !NativeChild(slots, thread, k) :: slots[k];
    }

    method ResumeThread(thread: ThreadId)
      modifies this`closed
      ensures Snapshot() == Next(old(Snapshot()), DoResume(thread))
    {
      closed := closed - {thread};
    }
  }
}
