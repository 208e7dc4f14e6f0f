/** The account tables and every account transaction as a pure function of them.
    Identities are opaque: the store only compares them for equality. */
module AccountModel {
  import opened Prelude
  import opened Collections

  type AccountId = int
  type OperationId = int
  type ProviderId = int

  const MAX_ACCOUNT_COUNT: nat := 512

  datatype Kind = Enroll | Import | Refresh | Logout

  datatype Phase =
    | Prepared
    | ProviderEffectPending
    | StoreApplied
    | Committed
    | Cancelled
    | RecoveryRequired

  datatype RecoveryCode =
    | ProviderRefreshRejected
    | ProviderAccessRejectedAfterRefresh
    | OtherCode(text: int)

  /** The public facts of one credential bundle. */
  datatype Binding = Binding(
    schema: nat,
    version: nat,
    fingerprint: int,
    provider: ProviderId,
    writer: OperationId)

  datatype Operation = Operation(
    account: AccountId,
    kind: Kind,
    phase: Phase,
    expectedRevision: Option<int>,
    displayLabel: Option<int>,
    enabled: Option<bool>,
    expected: Option<Binding>,
    target: Option<Binding>,
    provider: ProviderId,
    code: Option<RecoveryCode>,
    recovers: Option<OperationId>,
    supersededBy: Option<OperationId>)

  datatype Account = Account(enabled: bool, revision: int, provider: ProviderId, tombstoned: bool)

  datatype Mode = Balanced | Fixed(account: AccountId)

  datatype Tables = Tables(
    accounts: map<AccountId, Account>,
    operations: map<OperationId, Operation>,
    credentials: map<AccountId, Binding>,
    positions: map<AccountId, nat>,
    mode: Mode,
    routingRevision: int,
    busy: set<AccountId>) // accounts with a process generation that is not dead

  datatype Preparation = Preparation(
    account: AccountId,
    kind: Kind,
    displayLabel: Option<int>,
    enabled: Option<bool>,
    expectedRevision: Option<int>,
    expected: Option<Binding>,
    target: Option<Binding>,
    provider: ProviderId)

  datatype Mutation = Mutation(revision: int, phase: Phase)

  datatype Rejection =
    | IdentityConflict
    | InvalidRequest
    | AccountMissing
    | StaleAccount
    | AccountInUse
    | OperationMissing
    | StaleOperation

  datatype Reply =
    | Applied(actual: Mutation)
    | Replayed(actual: Mutation)
    | Rejected(rejection: Rejection, actual: Mutation)
    | Blocked(revision: int) // OperationUnsettled

  datatype AdminReply = Updated(revision: int) | AdminRejected(rejection: Rejection, revision: int)

  datatype RoutingReply =
    | RoutingUpdated
    | StaleRoutingControl(revision: int)
    | StaleRoutingAccount(revision: int)
    | RoutingAccountMissing
    | InvalidOrder(revision: int)

  /** What committing an operation does before its own row becomes Committed. */
  datatype Effect = Refused(rejection: Rejection) | Failed(error: Error) | Done(tables: Tables)

  predicate IsNew(kind: Kind) {
    kind.Enroll? || kind.Import?
  }

  predicate Settled(o: Operation) {
    o.phase.Committed? || o.phase.Cancelled?
  }

  /** Neither finished nor replaced by a committed takeover. */
  predicate Unsettled(o: Operation) {
    !Settled(o) && o.supersededBy.None?
  }

  predicate FitsRow(b: Option<Binding>) {
    b.Some? ==> b.value.version <= I64_MAX
  }

  /** A stored binding reads back only if its version fits an i64; otherwise reading its row is an error. */
  predicate Readable(o: Operation) {
    FitsRow(o.expected) && FitsRow(o.target)
  }

  predicate ReadableAt(t: Tables, id: Option<OperationId>) {
    id.Some? && id.value in t.operations ==> Readable(t.operations[id.value])
  }

  predicate Live(t: Tables, a: AccountId) {
    a in t.accounts && !t.accounts[a].tombstoned
  }

  function Revision(t: Tables, a: AccountId): int {
    if a in t.accounts then t.accounts[a].revision else 0
  }

  function Stored(t: Tables, a: AccountId): Option<Binding> {
    if a in t.credentials then Some(t.credentials[a]) else None
  }

  // ---------------------------------------------------------------- preparing

  predicate ValidPreparation(id: OperationId, p: Preparation) {
    && (p.expectedRevision.Some? ==> p.expectedRevision.value >= 1)
    && (IsNew(p.kind) ==>
          && p.displayLabel.Some? && p.enabled.Some? && p.expected.None? && p.target.Some?
          && (p.expectedRevision.None? <==> p.target.value.version == 1))
    && (!IsNew(p.kind) ==>
          p.displayLabel.None? && p.enabled.None? && p.expectedRevision.Some? && p.expected.Some?)
    && (p.expected.Some? ==> p.expected.value.provider == p.provider)
    && (p.target.Some? ==> p.target.value.provider == p.provider && p.target.value.writer == id)
  }

  predicate Describes(o: Operation, p: Preparation, recovery: Option<OperationId>) {
    && o.account == p.account && o.kind == p.kind && o.expectedRevision == p.expectedRevision
    && o.displayLabel == p.displayLabel && o.enabled == p.enabled && o.expected == p.expected
    && o.target == p.target && o.recovers == recovery
  }

  function Opened(p: Preparation, recovery: Option<OperationId>): Operation {
    Operation(p.account, p.kind, Prepared, p.expectedRevision, p.displayLabel, p.enabled, p.expected,
              p.target, p.provider, None, recovery, None)
  }

  /** Create the operation row, or say why not. `recovery` names the failed refresh that a
      takeover stands beside; a primary operation passes None. */
  ghost function Prepare(t: Tables, id: OperationId, p: Preparation, recovery: Option<OperationId>)
    : Transaction<Tables, Reply>
  {
    if !ValidPreparation(id, p) || recovery == Some(id) then
      Rollback(InvalidInput)
    else if id in t.operations then
      var o := t.operations[id];
      var actual := Mutation(Revision(t, o.account), o.phase);
      if !Readable(o) then Rollback(Incompatible)
      else
        Commit(t, if Describes(o, p, recovery) then Replayed(actual)
                  else Rejected(IdentityConflict, actual))
    else if !ReadableAt(t, recovery) then
      Rollback(Incompatible)
    else if AdmissionRefusal(t, p, recovery).Some? then
      Commit(t, AdmissionRefusal(t, p, recovery).value)
    else
      match PreparationCheck(t, p)
      case Failed(error) => Rollback(error)
      case Refused(rejection) =>
        Commit(t, Rejected(rejection, Mutation(Revision(t, p.account), Prepared)))
      case Done(_) =>
        Commit(t.(operations := t.operations[id := Opened(p, recovery)]),
               Applied(Mutation(Revision(t, p.account), Prepared)))
  }

  /** One primary operation at a time; a takeover stands beside exactly one failed refresh. */
  function AdmissionRefusal(t: Tables, p: Preparation, recovery: Option<OperationId>): Option<Reply> {
    match recovery
    case None =>
      if HasUnsettled(t, p.account) then Some(Blocked(Revision(t, p.account))) else None
    case Some(r) =>
      if r !in t.operations then
        Some(Rejected(OperationMissing, Mutation(0, RecoveryRequired)))
      else
        var failed := t.operations[r];
        if !ExactAmbiguity(failed, p.account, p.kind, p.expectedRevision, p.expected, p.target) then
          Some(Rejected(StaleOperation, Mutation(Revision(t, failed.account), failed.phase)))
        else if HasTakeover(t, r) then
          Some(Blocked(Revision(t, failed.account)))
        else None
  }

  predicate HasUnsettled(t: Tables, a: AccountId) {
    exists id :: id in t.operations && t.operations[id].account == a && Unsettled(t.operations[id])
  }

  predicate HasTakeover(t: Tables, r: OperationId) {
    exists id :: id in t.operations && t.operations[id].recovers == Some(r) && !Settled(t.operations[id])
  }

  predicate RecoveryActionMatches(kind: Kind, target: Option<Binding>, code: Option<RecoveryCode>) {
    match kind
    case Refresh => target.Some?
    case Logout =>
      && target.None?
      && (code == Some(ProviderRefreshRejected) || code == Some(ProviderAccessRejectedAfterRefresh))
    case _ => false
  }

  /** The failed operation is a refresh whose provider effect is unknown, not yet replaced, and the
      takeover starts from the very same account revision and credential. */
  predicate ExactAmbiguity(failed: Operation, account: AccountId, kind: Kind,
                           expectedRevision: Option<int>, expected: Option<Binding>,
                           target: Option<Binding>)
  {
    && RecoveryActionMatches(kind, target, failed.code)
    && failed.account == account
    && failed.kind.Refresh?
    && failed.phase.RecoveryRequired?
    && failed.target.None?
    && failed.code.Some?
    && failed.recovers.None?
    && failed.supersededBy.None?
    && failed.expectedRevision == expectedRevision
    && failed.expected == expected
  }

  ghost function PreparationCheck(t: Tables, p: Preparation): Effect
    requires IsNew(p.kind) ==> p.target.Some?
  {
    if IsNew(p.kind) then
      if p.account !in t.accounts then
        if p.expectedRevision.Some? then Refused(StaleAccount) else Done(t)
      else
        var account := t.accounts[p.account];
        if !account.tombstoned then Refused(IdentityConflict)
        else if || p.expectedRevision != Some(account.revision)
                || p.provider != account.provider
                || p.account in t.credentials then
          Refused(StaleAccount)
        else
          match Predecessor(t, p.account, account.revision, p.provider)
          case None => Failed(Incompatible)
          case Some(previous) =>
            if previous.version == U64_MAX then Failed(InvalidInput)
            else if p.target.value.version != previous.version + 1
                 || p.target.value.provider != previous.provider then Refused(StaleAccount)
            else Done(t)
    else if !Live(t, p.account) then Refused(AccountMissing)
    else if p.expectedRevision != Some(t.accounts[p.account].revision) then Refused(StaleAccount)
    else if Stored(t, p.account) != p.expected then Refused(StaleAccount)
    else Done(t)
  }

  // ------------------------------------------------------- the logout history

  predicate IsLogout(t: Tables, a: AccountId, id: OperationId) {
    && id in t.operations && t.operations[id].account == a
    && t.operations[id].kind.Logout? && t.operations[id].phase.Committed?
  }

  /** Newest by expected revision, then by operation identity. */
  predicate NoNewer(t: Tables, id: OperationId, other: OperationId)
    requires id in t.operations && other in t.operations
  {
    var r, s := t.operations[id].expectedRevision.GetOr(0), t.operations[other].expectedRevision.GetOr(0);
    s < r || (s == r && other <= id)
  }

  predicate IsNewestLogout(t: Tables, a: AccountId, id: OperationId) {
    IsLogout(t, a, id) &&
    forall other :: other in t.operations && IsLogout(t, a, other) ==> NoNewer(t, id, other)
  }

  /** The credential that the logout which produced this tombstone removed, provided that logout is
      the account's last revision and belongs to the same provider. None is the source's error. */
  ghost function Predecessor(t: Tables, a: AccountId, revision: int, provider: ProviderId): Option<Binding> {
    if exists id :: IsNewestLogout(t, a, id) then
      var id :| IsNewestLogout(t, a, id);
      PredecessorOf(t.operations[id], revision, provider)
    else None
  }

  function PredecessorOf(logout: Operation, revision: int, provider: ProviderId): Option<Binding> {
    if && logout.expected.Some? && logout.expectedRevision.Some? && FitsRow(logout.expected)
       && logout.expectedRevision.value + 1 == revision
       && logout.expected.value.provider == provider
    then logout.expected else None
  }

  // ---------------------------------------------------------------- advancing

  predicate AllowedTransition(from: Phase, to: Phase) {
    match from
    case Prepared =>
      to.ProviderEffectPending? || to.StoreApplied? || to.Cancelled? || to.RecoveryRequired?
    case ProviderEffectPending => to.StoreApplied? || to.Cancelled? || to.RecoveryRequired?
    case StoreApplied => to.Committed? || to.RecoveryRequired?
    case RecoveryRequired => to.StoreApplied? || to.Cancelled?
    case _ => false
  }

  /** Move one operation to the next phase, committing its effect with it. `visit` is the order in
      which the database walks the routing rows during a compaction. */
  ghost function Advance(t: Tables, id: OperationId, expected: Phase, target: Phase,
                         code: Option<RecoveryCode>, visit: seq<AccountId>)
    : Transaction<Tables, Reply>
  {
    if target.RecoveryRequired? != code.Some? then
      Rollback(InvalidInput)
    else if id !in t.operations then
      Commit(t, Rejected(OperationMissing, Mutation(0, expected)))
    else
      var o := t.operations[id];
      var actual := Mutation(Revision(t, o.account), o.phase);
      if !Readable(o) then
        Rollback(Incompatible)
      else if o.phase == target then
        Commit(t, Replayed(actual))
      else if o.supersededBy.Some? || o.phase != expected || !AllowedTransition(expected, target) then
        Commit(t, Rejected(StaleOperation, actual))
      else
        match if target.Committed? then Settle(t, id, visit) else Done(t)
        case Failed(error) => Rollback(error)
        case Refused(rejection) => Commit(t, Rejected(rejection, actual))
        case Done(u) =>
          Commit(u.(operations := u.operations[id := o.(phase := target, code := code)]),
                 Applied(Mutation(Revision(u, o.account), target)))
  }

  ghost function Settle(t: Tables, id: OperationId, visit: seq<AccountId>): Effect
    requires id in t.operations
  {
    var o := t.operations[id];
    if o.recovers.Some? && o.recovers.value !in t.operations then
      Refused(OperationMissing)
    else if !ReadableAt(t, o.recovers) then
      Failed(Incompatible)
    else if o.recovers.Some? && !RecoversExactly(t.operations[o.recovers.value], o) then
      Refused(StaleOperation)
    else
      match (match o.kind
             case Refresh => CommitRefresh(t, o)
             case Logout => CommitLogout(t, o, visit)
             case _ => CommitEnrollment(t, o))
      case Failed(error) => Failed(error)
      case Refused(rejection) => Refused(rejection)
      case Done(u) => Done(u.(operations := Supersede(t.operations, id)))
  }

  predicate RecoversExactly(failed: Operation, o: Operation) {
    ExactAmbiguity(failed, o.account, o.kind, o.expectedRevision, o.expected, o.target)
  }

  /** The committed takeover replaces the failed refresh it names. */
  function Supersede(operations: map<OperationId, Operation>, id: OperationId): map<OperationId, Operation>
    requires id in operations
  {
    match operations[id].recovers
    case None => operations
    case Some(r) =>
      if r in operations then operations[r := operations[r].(supersededBy := Some(id))] else operations
  }

  ghost function CommitEnrollment(t: Tables, o: Operation): Effect {
    if o.target.None? then Refused(InvalidRequest)
    else if Stored(t, o.account) != o.target then Refused(StaleAccount)
    else if o.enabled.None? then Failed(InvalidInput)
    else
      var target := o.target.value;
      if o.account !in t.accounts then
        if o.expectedRevision.Some? || target.version != 1 then Refused(StaleAccount)
        else if exists a :: a in t.accounts && t.accounts[a].provider == target.provider then
          Failed(Constraint)
        else
          Enlist(t, o.account, Account(o.enabled.value, 1, target.provider, false))
      else
        var account := t.accounts[o.account];
        if !account.tombstoned then Refused(IdentityConflict)
        else if o.expectedRevision != Some(account.revision) || target.provider != account.provider then
          Refused(StaleAccount)
        else
          match Predecessor(t, o.account, account.revision, target.provider)
          case None => Failed(Incompatible)
          case Some(previous) =>
            if previous.version == U64_MAX || target.version != previous.version + 1 then
              Refused(StaleAccount)
            else if account.revision == I64_MAX then Failed(Constraint)
            else
              Enlist(t, o.account, Account(o.enabled.value, account.revision + 1, target.provider, false))
  }

  /** The account row goes live and joins the routing order at the next position. */
  function Enlist(t: Tables, a: AccountId, account: Account): Effect {
    if a in t.positions || !Free(t.positions, a, |t.positions|) || t.routingRevision == I64_MAX then
      Failed(Constraint)
    else
      Done(t.(accounts := t.accounts[a := account],
              positions := t.positions[a := |t.positions|],
              routingRevision := t.routingRevision + 1))
  }

  function CommitRefresh(t: Tables, o: Operation): Effect {
    if o.target.None? then Refused(InvalidRequest)
    else if Stored(t, o.account) != o.target then Refused(StaleAccount)
    else if !Live(t, o.account) then Refused(AccountMissing)
    else
      var account := t.accounts[o.account];
      if || account.revision == I64_MAX
         || exists a :: a in t.accounts && a != o.account && t.accounts[a].provider == o.target.value.provider
      then Failed(Constraint)
      else
        Done(t.(accounts := t.accounts[o.account :=
               account.(revision := account.revision + 1, provider := o.target.value.provider)]))
  }

  ghost function CommitLogout(t: Tables, o: Operation, visit: seq<AccountId>): Effect {
    var a := o.account;
    if a in t.busy then Refused(AccountInUse)
    else if a in t.credentials then Refused(StaleAccount)
    else if !Live(t, a) then Refused(AccountMissing)
    else
      var account := t.accounts[a];
      var remaining := t.positions - {a};
      if || account.revision == I64_MAX || t.routingRevision == I64_MAX
         || !ShiftSucceeds(remaining, visit)
      then Failed(Constraint)
      else
        Done(t.(accounts := t.accounts[a :=
                  account.(enabled := false, revision := account.revision + 1, tombstoned := true)],
                positions := Compacted(remaining),
                mode := if t.mode == Fixed(a) then Balanced else t.mode,
                routingRevision := t.routingRevision + 1))
  }

  /** Record the provider's answer on the operation that asked for it. */
  function SetTarget(t: Tables, id: OperationId, target: Binding): Transaction<Tables, Reply> {
    if id !in t.operations then
      Commit(t, Rejected(OperationMissing, Mutation(0, ProviderEffectPending)))
    else
      var o := t.operations[id];
      var actual := Mutation(Revision(t, o.account), o.phase);
      if !Readable(o) then Rollback(Incompatible)
      else if o.target == Some(target) then Commit(t, Replayed(actual))
      else if || !o.phase.ProviderEffectPending? || o.target.Some? || o.supersededBy.Some?
              || target.writer != id then
        Commit(t, Rejected(StaleOperation, actual))
      else
        Commit(t.(operations := t.operations[id := o.(target := Some(target))]), Applied(actual))
  }

  // ------------------------------------------------------------ administration

  function SetEnabled(t: Tables, a: AccountId, expected: int, enabled: bool)
    : Transaction<Tables, AdminReply>
  {
    if expected < 1 then Rollback(InvalidInput)
    else if !Live(t, a) then Commit(t, AdminRejected(AccountMissing, Revision(t, a)))
    else
      var account := t.accounts[a];
      if account.revision != expected then Commit(t, AdminRejected(StaleAccount, account.revision))
      else if expected == I64_MAX then Rollback(CapacityExhausted)
      else
        Commit(t.(accounts := t.accounts[a := account.(enabled := enabled, revision := expected + 1)]),
               Updated(expected + 1))
  }

  function SetFixed(t: Tables, expected: int, a: AccountId, expectedAccount: int)
    : Transaction<Tables, RoutingReply>
  {
    if expected < 1 || expectedAccount < 1 then Rollback(InvalidInput)
    else if t.routingRevision != expected then Commit(t, StaleRoutingControl(t.routingRevision))
    else if !Live(t, a) then Commit(t, RoutingAccountMissing)
    else if t.accounts[a].revision != expectedAccount then
      Commit(t, StaleRoutingAccount(t.accounts[a].revision))
    else if expected == I64_MAX then Rollback(CapacityExhausted)
    else Commit(t.(mode := Fixed(a), routingRevision := expected + 1), RoutingUpdated)
  }

  /** Routing to the account that is already fixed changes nothing, not even the revision. */
  function RouteFixed(t: Tables, expected: int, a: AccountId, expectedAccount: int)
    : Transaction<Tables, RoutingReply>
  {
    if && expected >= 1 && expectedAccount >= 1 && t.routingRevision == expected && Live(t, a)
       && t.accounts[a].revision == expectedAccount && t.mode == Fixed(a)
    then Commit(t, RoutingUpdated)
    else SetFixed(t, expected, a, expectedAccount)
  }

  function SetBalanced(t: Tables, expected: int): Transaction<Tables, RoutingReply> {
    if expected < 1 then Rollback(InvalidInput)
    else if t.routingRevision != expected then Commit(t, StaleRoutingControl(t.routingRevision))
    else if expected == I64_MAX then Rollback(CapacityExhausted)
    else Commit(t.(mode := Balanced, routingRevision := expected + 1), RoutingUpdated)
  }

  /** The accounts a reader of the routing order can see. */
  function Visible(t: Tables): set<AccountId> {
    set a | a in t.positions && Live(t, a)
  }

  /** The positions of a freshly written order. */
  function Numbered(order: seq<AccountId>): map<AccountId, nat> {
    if order == [] then map[]
    else Numbered(order[..|order| - 1])[order[|order| - 1] := |order| - 1]
  }

  function SetOrder(t: Tables, expected: int, order: seq<AccountId>): Transaction<Tables, RoutingReply> {
    if expected < 1 || |order| > MAX_ACCOUNT_COUNT || !Distinct(order) then Rollback(InvalidInput)
    else if t.routingRevision != expected then Commit(t, StaleRoutingControl(t.routingRevision))
    else if Elements(order) != Visible(t) then Commit(t, InvalidOrder(t.routingRevision))
    else if t.routingRevision == I64_MAX then Rollback(Constraint)
    else Commit(t.(positions := Numbered(order), routingRevision := t.routingRevision + 1), RoutingUpdated)
  }

  // ------------------------------------------------------- the routing positions

  /** How many rows stand before `a`. */
  function Rank(m: map<AccountId, nat>, a: AccountId): nat
    requires a in m
  {
    |set b | b in m && m[b] < m[a]|
  }

  /** Every row moved to its rank: the order without gaps. */
  function Compacted(m: map<AccountId, nat>): map<AccountId, nat> {
    map a | a in m :: Rank(m, a)
  }

  predicate Unique(m: map<AccountId, nat>) {
    forall a, b :: a in m && b in m && a != b ==> m[a] != m[b]
  }

  /** Positions 0..n-1, each held by one row. */
  predicate Dense(m: map<AccountId, nat>) {
    Unique(m) && forall a :: a in m ==> m[a] < |m|
  }

  /** Whether a row may take a position: the database checks uniqueness row by row. */
  predicate Free(m: map<AccountId, nat>, a: AccountId, position: nat) {
    forall b :: b in m && b != a ==> m[b] != position
  }

  /** The first half of a compaction adds 512 to every position. These are the rows after it has
      passed over `visit`, one row after another. */
  function Shifted(m: map<AccountId, nat>, visit: seq<AccountId>): (now: map<AccountId, nat>)
    ensures now.Keys == m.Keys
  {
    if visit == [] then m
    else
      var n := |visit| - 1;
      var now := Shifted(m, visit[..n]);
      if visit[n] in now then now[visit[n] := now[visit[n]] + MAX_ACCOUNT_COUNT] else now
  }

  /** Each row's new position is checked against the rows of that moment. */
  predicate ShiftSucceeds(m: map<AccountId, nat>, visit: seq<AccountId>) {
    visit != [] ==>
      var n := |visit| - 1;
      var now := Shifted(m, visit[..n]);
      && ShiftSucceeds(m, visit[..n])
      && (visit[n] in now ==> Free(now, visit[n], now[visit[n]] + MAX_ACCOUNT_COUNT))
  }

  // -------------------------------------------------------------- credentials

  /** Insert the first bundle of an account. */
  function CreateCredential(t: Tables, a: AccountId, record: Binding): Transaction<Tables, ()> {
    if record.version > I64_MAX then Rollback(Conflict)
    else if a in t.credentials then Rollback(AlreadyExists)
    else if record.writer !in t.operations || record.version == 0 then Rollback(Constraint)
    else if exists b :: b in t.credentials && t.credentials[b].provider == record.provider then
      Rollback(Conflict)
    else Commit(t.(credentials := t.credentials[a := record]), ())
  }

  /** Replace exactly the expected bundle by its successor, for the same provider identity. */
  function RotateCredential(t: Tables, a: AccountId, expected: Binding, target: Binding)
    : Transaction<Tables, ()>
  {
    if || expected.provider != target.provider
       || target.version != (if expected.version < U64_MAX then expected.version + 1 else U64_MAX)
       || target.version > I64_MAX
       || Stored(t, a) != Some(expected) then Rollback(Conflict)
    else if target.writer !in t.operations then Rollback(Constraint)
    else Commit(t.(credentials := t.credentials[a := target]), ())
  }

  function DeleteCredential(t: Tables, a: AccountId, expected: Binding): Transaction<Tables, ()> {
    if Stored(t, a) != Some(expected) then Rollback(NotFound)
    else Commit(t.(credentials := t.credentials - {a}), ())
  }

  // --------------------------------------------------------- resolving identity

  datatype Resolution =
    | Fresh(account: AccountId)
    | Restore(account: AccountId, revision: int, previous: Binding)
    | AlreadyEnrolled(account: AccountId, revision: int)

  predicate Owns(t: Tables, a: AccountId, provider: ProviderId) {
    a in t.accounts && t.accounts[a].provider == provider
  }

  /** Which account a provider identity should enroll into. None is the source's error. */
  ghost function Resolve(t: Tables, requested: AccountId, provider: ProviderId): Option<Resolution> {
    if !exists a :: Owns(t, a, provider) then Some(Resolution.Fresh(requested))
    else
      var a :| Owns(t, a, provider);
      var account := t.accounts[a];
      if !account.tombstoned then Some(AlreadyEnrolled(a, account.revision))
      else if a in t.credentials && !EnrollmentInFlight(t, a) then None
      else
        match Predecessor(t, a, account.revision, provider)
        case None => None
        case Some(previous) => Some(Restore(a, account.revision, previous))
  }

  /** A tombstoned account may hold a credential only for the enrollment now restoring it. */
  predicate EnrollmentInFlight(t: Tables, a: AccountId)
    requires a in t.accounts && a in t.credentials
  {
    exists id :: id in t.operations && Restores(t, a, t.operations[id])
  }

  predicate Restores(t: Tables, a: AccountId, o: Operation)
    requires a in t.accounts && a in t.credentials
  {
    && o.account == a && Unsettled(o) && IsNew(o.kind) && Readable(o)
    && o.target == Some(t.credentials[a])
    && o.expectedRevision == Some(t.accounts[a].revision)
  }
}
