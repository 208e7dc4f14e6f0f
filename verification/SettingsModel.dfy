/** The settings journal of agent works: model selections, permission selections and prompt edits are
    reserved, answered and observed by rows that are only ever appended. */
module SettingsModel {
  import opened Prelude

  type WorkId = int
  type ThreadId = int

  datatype Kind = Models | Permissions | Plugins

  datatype Owner = Owner(work: WorkId, thread: ThreadId, generation: Option<int>)

  /** Native settings as projected; `Shapeless` is any object that a kind's reader does not accept. */
  datatype Settings =
    | ModelSettings(model: int, provider: int, effort: Option<int>, tier: Option<int>)
    | PermissionSettings(profile: Option<int>, approval: int, reviewer: int)
    | Shapeless(code: int)

  datatype Recovery = Recovery(account: int, banner: int, fromModel: int, tier: Option<int>)

  datatype Mode = Mode(approval: int, reviewer: int)

  datatype Attempt =
    | ModelAttempt(owner: Owner, settingsEvent: nat, token: int, model: int, provider: int, effort: Option<int>,
        recovery: Option<Recovery>, manual: bool) // manual: bound to a reviewed account revision
    | PermissionAttempt(owner: Owner, settingsEvent: nat, token: int, profile: int, mode: Option<Mode>)

  datatype Edit = Edit(owner: Owner, token: int, turns: seq<int>, before: int)

  datatype Outcome = Queued | Refused | NotKnown

  datatype Verdict = TargetObserved | Superseded

  datatype Row =
    | Selected(attempt: Attempt)
    | Answered(reservation: nat, answer: Outcome)
    | Seen(reservation: nat, settingsEvent: nat, verdict: Verdict)
    | Editing(edit: Edit)
    | EditSeen(reservation: nat)
    | EditReleased(reservation: nat)
    | Observed(kind: Kind, source: Owner, settings: Option<Settings>, digest: int)
    | Foreign // any other event of the shared journal

  /** A row's identity is its place in the journal. `bound` is each work's thread; `admitted` says that some
      process was ever admitted, which stays true. */
  datatype Book = Book(rows: seq<Row>, bound: map<WorkId, ThreadId>, admitted: bool)

  /** What neighbouring tables answer within the transaction. */
  datatype Env = Env(
    owned: bool,     // the caller's process generation, if it has one, owns the work
    eligible: bool,  // the work's dispatch state and status admit the edit, and nothing is paused
    current: bool,   // the account and revision bound to the attempt are still current
    active: bool,    // the generation's account is enabled
    dead: bool)      // the attempt's generation is proved dead

  /** A process answers for the works it owns; a caller without one for all, until any was admitted. */
  predicate Owns(b: Book, generation: Option<int>, env: Env) {
    if generation.Some? then b.admitted && env.owned else !b.admitted
  }

  // ------------------------------------------------------------------ pending

  predicate SettlesAt(rows: seq<Row>, i: nat, r: nat) {
    r < |rows| && (rows[r] == Answered(i, Refused) || (rows[r].Seen? && rows[r].reservation == i))
  }

  predicate Settled(rows: seq<Row>, i: nat) {
    exists r :: 0 <= r < |rows| && SettlesAt(rows, i, r)
  }

  predicate Released(rows: seq<Row>, i: nat) {
    exists r :: 0 <= r < |rows| && rows[r] == EditReleased(i)
  }

  predicate IsAttempt(rows: seq<Row>, i: nat) {
    i < |rows| && (rows[i].Selected? || rows[i].Editing?)
  }

  function OwnerAt(rows: seq<Row>, i: nat): Owner
    requires IsAttempt(rows, i)
  {
    if rows[i].Selected? then rows[i].attempt.owner else rows[i].edit.owner
  }

  predicate Pending(rows: seq<Row>, i: nat) {
    IsAttempt(rows, i) && if rows[i].Selected? then !Settled(rows, i) else !Released(rows, i)
  }

  predicate PendingFor(rows: seq<Row>, work: WorkId) {
    exists i :: 0 <= i < |rows| && Pending(rows, i) && OwnerAt(rows, i).work == work
  }

  /** The reviewed identity of an attempt: a new request cannot replay an already reserved review. */
  predicate SameKey(a: Attempt, b: Attempt) {
    match (a, b)
    case (PermissionAttempt(o, _, token, _, _), PermissionAttempt(p, _, other, _, _)) =>
      o.work == p.work && o.thread == p.thread && token == other
    case (ModelAttempt(o, _, token, model, _, effort, r, _), ModelAttempt(p, _, other, model', _, effort', r', _)) =>
      && o.work == p.work && o.thread == p.thread
      && (match (r, r')
          case (None, None) => token == other
          case (Some(x), Some(y)) => x == y && model == model' && effort == effort'
          case _ => false)
    case _ => false
  }

  predicate SameEdit(e: Edit, f: Edit) {
    e.owner.work == f.owner.work && e.owner.thread == f.owner.thread && e.token == f.token
  }

  predicate KeyUsed(rows: seq<Row>, a: Attempt) {
    exists i :: 0 <= i < |rows| && rows[i].Selected? && SameKey(rows[i].attempt, a)
  }

  predicate EditKeyUsed(rows: seq<Row>, e: Edit) {
    exists i :: 0 <= i < |rows| && rows[i].Editing? && SameEdit(rows[i].edit, e)
  }

  // ------------------------------------------------------------- observations

  predicate IsObserved(rows: seq<Row>, i: nat, kind: Kind, source: Owner) {
    i < |rows| && rows[i].Observed? && rows[i].kind == kind && rows[i].source == source
  }

  /** The newest revision of one source, among the rows before `n`. */
  function LatestBefore(rows: seq<Row>, kind: Kind, source: Owner, n: nat): Option<nat>
    requires n <= |rows|
  {
    if n == 0 then None
    else if IsObserved(rows, n - 1, kind, source) then Some(n - 1)
    else LatestBefore(rows, kind, source, n - 1)
  }

  function Latest(rows: seq<Row>, kind: Kind, source: Owner): Option<nat> {
    LatestBefore(rows, kind, source, |rows|)
  }

  predicate Readable(kind: Kind, s: Settings) {
    match kind
    case Models => s.ModelSettings?
    case Permissions => s.PermissionSettings?
    case Plugins => false
  }

  function KindOf(a: Attempt): Kind {
    if a.ModelAttempt? then Models else Permissions
  }

  /** The observed settings are the ones the attempt asked for. */
  predicate Meets(a: Attempt, s: Settings) {
    match (a, s)
    case (ModelAttempt(_, _, _, model, provider, effort, recovery, _), ModelSettings(m, p, e, tier)) =>
      m == model && p == provider && e == effort && (recovery.Some? ==> tier == recovery.value.tier)
    case (PermissionAttempt(_, _, _, profile, mode), PermissionSettings(p, approval, reviewer)) =>
      p == Some(profile) && (mode.Some? ==> mode.value == Mode(approval, reviewer))
    case _ => false
  }

  /** The reviewed settings leave something to change. */
  predicate WorthChanging(a: Attempt, s: Settings) {
    match a
    case ModelAttempt(_, _, _, model, provider, effort, recovery, _) =>
      && s.ModelSettings? && s.provider == provider && !(s.model == model && s.effort == effort)
      && (recovery.Some? ==> s.model == recovery.value.fromModel)
    case PermissionAttempt(_, _, _, profile, mode) =>
      mode.Some? || !(s.PermissionSettings? && s.profile == Some(profile))
  }

  /** A fallback or a manual choice holds only for the account revision it was reviewed under. */
  predicate BoundToAccount(a: Attempt) {
    a.ModelAttempt? && (a.manual || a.recovery.Some?)
  }

  /** The newest unsettled selection of one work and thread before an observation. */
  function UnsettledBefore(rows: seq<Row>, kind: Kind, work: WorkId, thread: ThreadId, n: nat): Option<nat>
    requires n <= |rows|
  {
    if n == 0 then None
    else if && rows[n - 1].Selected? && KindOf(rows[n - 1].attempt) == kind
            && rows[n - 1].attempt.owner.work == work && rows[n - 1].attempt.owner.thread == thread
            && !Settled(rows, n - 1) then Some(n - 1)
    else UnsettledBefore(rows, kind, work, thread, n - 1)
  }

  /** What a wire-current observation says about an unsettled selection, if it says anything. */
  function Judge(a: Attempt, source: Owner, s: Settings, env: Env): Option<Verdict> {
    if a.owner.generation == source.generation then
      if BoundToAccount(a) && !env.current then None
      else if Meets(a, s) then Some(TargetObserved) else None
    else if a.owner.generation.None? || source.generation.None? || !env.dead then None
    else if Meets(a, s) && !BoundToAccount(a) then Some(TargetObserved)
    else Some(Superseded)
  }

  function Observe(b: Book, kind: Kind, source: Owner, observation: nat, settings: Option<Settings>, env: Env): seq<Row>
    requires observation <= |b.rows|
  {
    if settings.None? || !Readable(kind, settings.value) || !Owns(b, source.generation, env) then b.rows
    else if kind.Models? && source.generation.Some? && !env.active then b.rows
    else if source.work !in b.bound || b.bound[source.work] != source.thread then b.rows
    else
      match UnsettledBefore(b.rows, kind, source.work, source.thread, observation)
      case None => b.rows
      case Some(i) =>
        if i >= |b.rows| || !b.rows[i].Selected? then b.rows
        else
          match Judge(b.rows[i].attempt, source, settings.value, env)
          case None => b.rows
          case Some(verdict) => b.rows + [Seen(i, observation, verdict)]
  }

  /** Append a revision unless it repeats the source's latest one; a publication also settles. */
  function Record(b: Book, kind: Kind, source: Owner, settings: Option<Settings>, digest: int, publication: bool, env: Env)
    : Transaction<Book, Option<nat>>
  {
    if source.work !in b.bound || b.bound[source.work] != source.thread || !Owns(b, source.generation, env) then Commit(b, None)
    else
      var row := Observed(kind, source, settings, digest);
      match Latest(b.rows, kind, source)
      case Some(previous) =>
        if previous < |b.rows| && b.rows[previous] == row then
          Commit(if publication then b.(rows := Observe(b, kind, source, previous, settings, env)) else b, Some(previous))
        else Appended(b, row, publication, env)
      case None =>
        if settings.None? then Commit(b, None) else Appended(b, row, publication, env)
  }

  function Appended(b: Book, row: Row, publication: bool, env: Env): Transaction<Book, Option<nat>>
    requires row.Observed?
  {
    var c := b.(rows := b.rows + [row]);
    Commit(if publication then c.(rows := Observe(c, row.kind, row.source, |b.rows|, row.settings, env)) else c,
           Some(|b.rows|))
  }

  // --------------------------------------------------------------- selections

  /** Reserve one selection against the exact settings revision that was reviewed. */
  function ReserveSelection(b: Book, a: Attempt, env: Env): Transaction<Book, Option<nat>> {
    var o := a.owner;
    if BoundToAccount(a) && o.generation.None? then Rollback(InvalidInput)
    else if !Owns(b, o.generation, env) || PendingFor(b.rows, o.work) then Commit(b, None)
    else if o.work !in b.bound || b.bound[o.work] != o.thread || !env.eligible then Commit(b, None)
    else if BoundToAccount(a) && !env.current then Commit(b, None)
    else if Latest(b.rows, KindOf(a), o) != Some(a.settingsEvent) || a.settingsEvent >= |b.rows| then Commit(b, None)
    else
      var reviewed := b.rows[a.settingsEvent];
      if !reviewed.Observed? || reviewed.settings.None? || !WorthChanging(a, reviewed.settings.value) then Commit(b, None)
      else if KeyUsed(b.rows, a) then Commit(b, None)
      else Commit(b.(rows := b.rows + [Selected(a)]), Some(|b.rows|))
  }

  /** Append the native answer once; it cannot replace a separately observed state. */
  function FinishSelection(b: Book, i: nat, a: Attempt, answer: Outcome): Transaction<Book, bool> {
    if i >= |b.rows| || b.rows[i] != Selected(a) then Commit(b, false)
    else if exists r :: 0 <= r < |b.rows| && b.rows[r].Answered? && b.rows[r].reservation == i then Commit(b, false)
    else Commit(b.(rows := b.rows + [Answered(i, answer)]), true)
  }

  // ------------------------------------------------------------- prompt edits

  /** Owning an edit includes that the work is bound to its thread. */
  predicate OwnsEdit(b: Book, e: Edit, generation: Option<int>, env: Env) {
    Owns(b, generation, env) && e.owner.work in b.bound && b.bound[e.owner.work] == e.owner.thread
  }

  function ReserveEdit(b: Book, e: Edit, env: Env): Transaction<Book, Option<nat>> {
    if e.before !in e.turns then Rollback(InvalidInput)
    else if !OwnsEdit(b, e, e.owner.generation, env) || PendingFor(b.rows, e.owner.work) || !env.eligible then Commit(b, None)
    else if EditKeyUsed(b.rows, e) then Commit(b, None)
    else Commit(b.(rows := b.rows + [Editing(e)]), Some(|b.rows|))
  }

  predicate Applied(rows: seq<Row>, i: nat) {
    exists r :: 0 <= r < |rows| && rows[r] == EditSeen(i)
  }

  /** Nothing is known of the edit but its reservation. */
  predicate EditReserved(rows: seq<Row>, i: nat) {
    i < |rows| && rows[i].Editing? && !Released(rows, i) && !Applied(rows, i)
  }

  function RejectEdit(b: Book, i: nat, e: Edit, env: Env): Transaction<Book, bool> {
    if !OwnsEdit(b, e, e.owner.generation, env) || !EditReserved(b.rows, i) || b.rows[i].edit != e then Commit(b, false)
    else Commit(b.(rows := b.rows + [EditReleased(i)]), true)
  }

  function Position(turns: seq<int>, turn: int): (at: Option<nat>)
    ensures at.Some? ==> at.value < |turns| && turns[at.value] == turn && turn !in turns[..at.value]
    ensures at.None? ==> turn !in turns
  {
    if turns == [] then None
    else if turns[0] == turn then Some(0)
    else match Position(turns[1..], turn)
         case None => None
         case Some(n) => Some(n + 1)
  }

  /** The exact retained prefix proves the edit; an unchanged history disproves it only after the old
      process died. */
  function ObserveEdit(b: Book, i: nat, generation: Option<int>, turns: seq<int>, env: Env): Transaction<Book, bool> {
    if !EditReserved(b.rows, i) then Commit(b, false)
    else
      var e := b.rows[i].edit;
      var same := e.owner.generation == generation;
      if !OwnsEdit(b, e, generation, env) then Commit(b, false)
      else if !same && (e.owner.generation.None? || generation.None? || !env.dead) then Commit(b, false)
      else
        match Position(e.turns, e.before)
        case None => Rollback(InvalidInput)
        case Some(boundary) =>
          if turns == e.turns[..boundary] then
            Commit(b.(rows := b.rows + [EditSeen(i)]), true)
          else if !same && turns == e.turns then Commit(b.(rows := b.rows + [EditReleased(i)]), true)
          else Commit(b, false)
  }

  /** An applied edit keeps input blocked until its draft is handed back. */
  function ReleaseDraft(b: Book, i: nat, generation: Option<int>, env: Env): Transaction<Book, bool> {
    if i >= |b.rows| || !b.rows[i].Editing? || Released(b.rows, i) || !Applied(b.rows, i) then Commit(b, false)
    else if !OwnsEdit(b, b.rows[i].edit, generation, env) then Commit(b, false)
    else Commit(b.(rows := b.rows + [EditReleased(i)]), true)
  }

  predicate ThreadTaken(bound: map<WorkId, ThreadId>, thread: ThreadId) {
    exists w :: w in bound && bound[w] == thread
  }

  /** Binding an acknowledged fork may install the edit that its new thread already carries. */
  function AcknowledgeFork(b: Book, source: Edit, target: WorkId, thread: ThreadId, beforeInput: bool, env: Env)
    : Transaction<Book, bool>
  {
    if source.before !in source.turns then Rollback(InvalidInput)
    else if target in b.bound || !env.eligible || ThreadTaken(b.bound, thread) then Commit(b, false)
    else
      var c := b.(bound := b.bound[target := thread]);
      if !beforeInput then Commit(c, true)
      else
        var e := source.(owner := source.owner.(work := target, thread := thread));
        if EditKeyUsed(b.rows, e) then Rollback(Constraint)
        else Commit(c.(rows := b.rows + [Editing(e), EditSeen(|b.rows|)]), true)
  }

  /** An activated context moves an idle work to another thread. It does not look at the journal. */
  function Rebind(b: Book, work: WorkId, previous: ThreadId, thread: ThreadId, env: Env): Transaction<Book, ()> {
    if work !in b.bound || b.bound[work] != previous || !env.eligible then Rollback(Conflict)
    else if exists w :: w in b.bound && w != work && b.bound[w] == thread then Rollback(Constraint)
    else Commit(b.(bound := b.bound[work := thread]), ())
  }

  /** Admitting a process; it does not look at the journal of works whose account stays. */
  function Admit(b: Book): Book {
    b.(admitted := true)
  }

  /** Any other way a work gets its thread; a thread is bound once. */
  function Bind(b: Book, work: WorkId, thread: ThreadId): Transaction<Book, ()> {
    if work in b.bound then (if b.bound[work] == thread then Commit(b, ()) else Rollback(Conflict))
    else if ThreadTaken(b.bound, thread) then Rollback(Conflict)
    else Commit(b.(bound := b.bound[work := thread]), ())
  }
}
