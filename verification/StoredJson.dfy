/** What is stored as JSON reads back as it was: routing snapshots, causes, exclusions and credential
    bindings, over trees of JSON values. */
module StoredJson {
  import opened Prelude

  /** The field names that occur; as JSON keys they are pairwise different texts. */
  datatype Field =
    | KSnapshotId | KRoutingRevision | KMode | KProfileRevision | KResolvedAt | KMembers | KQuotaFacts
    | KKind | KAccountId | KPosition | KAccountRevision | KBlockers | KBlocker | KWindow | KDuration
    | KObservation | KObservedAt | KUsedPercent | KResetsAt | KError | KMemberPosition
    | KSchemaVersion | KCredentialVersion | KFingerprint | KWriter | KProvider | KProviderAccount

  datatype Value = Text(text: string) | Number(number: int) | Array(items: seq<Value>) | Object(fields: map<Field, Value>)

  const U8_MAX: int := 0xff
  const U16_MAX: int := 0xffff

  // ------------------------------------------------------------------ readers

  function Get(v: Value, f: Field): Result<Value> {
    if v.Object? && f in v.fields then Ok(v.fields[f]) else Err(Incompatible)
  }

  function GetText(v: Value, f: Field): Result<string> {
    match Get(v, f)
    case Ok(Text(t)) => Ok(t)
    case _ => Err(Incompatible)
  }

  /** A number that is an i64 and at most a narrower bound. */
  function GetNumber(v: Value, f: Field, low: int, high: int): Result<int> {
    match Get(v, f)
    case Ok(Number(n)) =>
      if -I64_MAX - 1 <= n <= I64_MAX && low <= n <= high then Ok(n) else Err(Incompatible)
    case _ => Err(Incompatible)
  }

  function GetArray(v: Value, f: Field): Result<seq<Value>> {
    match Get(v, f)
    case Ok(Array(items)) => Ok(items)
    case _ => Err(Incompatible)
  }

  /** Read every item, or none. */
  function ReadAll<T>(items: seq<Value>, read: Value -> Result<T>): Result<seq<T>> {
    if items == [] then Ok([])
    else
      match ReadAll(items[..|items| - 1], read)
      case Err(error) => Err(error)
      case Ok(before) =>
        match read(items[|items| - 1])
        case Err(error) => Err(error)
        case Ok(last) => Ok(before + [last])
  }

  function WriteAll<T>(values: seq<T>, write: T -> Value): (items: seq<Value>)
    ensures |items| == |values| && forall i :: 0 <= i < |values| ==> items[i] == write(values[i])
  {
    if values == [] then [] else WriteAll(values[..|values| - 1], write) + [write(values[|values| - 1])]
  }

  /** What round-trips one by one round-trips as a list, and a single failure fails the list. */
  lemma {:induction false} ReadAllUndoesWriteAll<T>(values: seq<T>, write: T -> Value, read: Value -> Result<T>)
    requires forall i :: 0 <= i < |values| ==> read(write(values[i])).Err? || read(write(values[i])) == Ok(values[i])
    ensures
      var r := ReadAll(WriteAll(values, write), read);
      && (r == Ok(values) || r.Err?)
      && (r.Ok? <==> forall i :: 0 <= i < |values| ==> read(write(values[i])).Ok?)
  {
    if values != [] {
      var n := |values| - 1;
      ReadAllUndoesWriteAll(values[..n], write, read);
      assert WriteAll(values, write)[..n] == WriteAll(values[..n], write);
      assert values == values[..n] + [values[n]];
      assert forall i :: 0 <= i < n ==> values[..n][i] == values[i];
    }
  }

  // ------------------------------------------------------------------- values

  /** Account identities, blockers and their spellings belong to the core library: an identity is a
      text that its constructor accepts, and the spellings of blockers read back. */
  datatype Core = Core(accepts: string -> bool, spell: int -> string, unspell: string -> Option<int>)

  ghost predicate Faithful(core: Core, blocker: int) {
    core.unspell(core.spell(blocker)) == Some(blocker)
  }

  datatype WindowClass = FiveHour | SevenDay

  datatype QuotaError = ProviderUnavailable | ProtocolUnavailable | AccountMismatch | UnsupportedWindow

  datatype Reading =
    | Missing
    | NotApplicable(observedAt: int)
    | Current(usedPercent: int, observedAt: int, resetsAt: int)
    | ObservationError(error: QuotaError, observedAt: int)

  datatype Member = Member(position: int, account: string, revision: int, blockers: seq<int>)

  datatype QuotaFact = QuotaFact(account: string, window: WindowClass, duration: int, reading: Reading)

  datatype Mode = Balanced | Fixed(account: string)

  datatype Snapshot = Snapshot(
    id: string, routingRevision: int, mode: Mode, profileRevision: int, resolvedAt: int,
    members: seq<Member>, facts: seq<QuotaFact>)

  datatype Cause = Cause(account: string, blocker: int)

  datatype Exclusion = Exclusion(
    account: string, position: int, window: WindowClass, duration: int, usedPercent: int, observedAt: int, resetsAt: int)

  predicate Is64(n: int) {
    -I64_MAX - 1 <= n <= I64_MAX
  }

  // ------------------------------------------------------------------ writing

  function WindowText(w: WindowClass): string {
    match w case FiveHour => "five_hour" case SevenDay => "seven_day"
  }

  function ErrorText(e: QuotaError): string {
    match e
    case ProviderUnavailable => "provider_unavailable"
    case ProtocolUnavailable => "protocol_unavailable"
    case AccountMismatch => "account_mismatch"
    case UnsupportedWindow => "unsupported_window"
  }

  function WriteReading(r: Reading): Value {
    match r
    case Missing => Object(map[KKind := Text("missing")])
    case NotApplicable(at) => Object(map[KKind := Text("not_applicable"), KObservedAt := Number(at)])
    case Current(used, at, resets) =>
      Object(map[KKind := Text("current"), KUsedPercent := Number(used), KObservedAt := Number(at), KResetsAt := Number(resets)])
    case ObservationError(error, at) =>
      Object(map[KKind := Text("error"), KError := Text(ErrorText(error)), KObservedAt := Number(at)])
  }

  function WriteFact(f: QuotaFact): Value {
    Object(map[KAccountId := Text(f.account), KWindow := Text(WindowText(f.window)), KDuration := Number(f.duration),
               KObservation := WriteReading(f.reading)])
  }

  function WriteBlockers(core: Core, blockers: seq<int>): seq<Value> {
    WriteAll(blockers, (b: int) => Text(core.spell(b)))
  }

  function WriteMember(core: Core, m: Member): Value {
    Object(map[KPosition := Number(m.position), KAccountId := Text(m.account), KAccountRevision := Number(m.revision),
               KBlockers := Array(WriteBlockers(core, m.blockers))])
  }

  function WriteMembers(core: Core, members: seq<Member>): seq<Value> {
    WriteAll(members, (m: Member) => WriteMember(core, m))
  }

  function WriteMode(m: Mode): Value {
    match m
    case Balanced => Object(map[KKind := Text("balanced")])
    case Fixed(account) => Object(map[KKind := Text("fixed"), KAccountId := Text(account)])
  }

  function WriteSnapshot(core: Core, s: Snapshot): Value {
    Object(map[
      KSnapshotId := Text(s.id), KRoutingRevision := Number(s.routingRevision), KMode := WriteMode(s.mode),
      KProfileRevision := Number(s.profileRevision), KResolvedAt := Number(s.resolvedAt),
      KMembers := Array(WriteMembers(core, s.members)),
      KQuotaFacts := Array(WriteAll(s.facts, WriteFact))])
  }

  function WriteCause(core: Core, c: Cause): Value {
    Object(map[KAccountId := Text(c.account), KBlocker := Text(core.spell(c.blocker))])
  }

  function WriteCauses(core: Core, causes: seq<Cause>): Value {
    Array(WriteAll(causes, (c: Cause) => WriteCause(core, c)))
  }

  function WriteExclusion(e: Exclusion): Value {
    Object(map[
      KAccountId := Text(e.account), KMemberPosition := Number(e.position), KWindow := Text(WindowText(e.window)),
      KDuration := Number(e.duration), KUsedPercent := Number(e.usedPercent), KObservedAt := Number(e.observedAt),
      KResetsAt := Number(e.resetsAt)])
  }

  function WriteExclusions(exclusions: seq<Exclusion>): Value {
    Array(WriteAll(exclusions, WriteExclusion))
  }

  // ------------------------------------------------------------------ reading

  function ReadAccount(core: Core, v: Value): Result<string> {
    match GetText(v, KAccountId)
    case Err(error) => Err(error)
    case Ok(t) => if core.accepts(t) then Ok(t) else Err(Incompatible)
  }

  function ReadWindow(v: Value): Result<WindowClass> {
    match GetText(v, KWindow)
    case Err(error) => Err(error)
    case Ok(t) => if t == "five_hour" then Ok(FiveHour) else if t == "seven_day" then Ok(SevenDay) else Err(Incompatible)
  }

  function ReadError(v: Value): Result<QuotaError> {
    match GetText(v, KError)
    case Err(error) => Err(error)
    case Ok(t) =>
      if t == "provider_unavailable" then Ok(ProviderUnavailable)
      else if t == "protocol_unavailable" then Ok(ProtocolUnavailable)
      else if t == "account_mismatch" then Ok(AccountMismatch)
      else if t == "unsupported_window" then Ok(UnsupportedWindow)
      else Err(Incompatible)
  }

  function ReadReading(v: Value): Result<Reading> {
    match GetText(v, KKind)
    case Err(error) => Err(error)
    case Ok(kind) =>
      var at := GetNumber(v, KObservedAt, -I64_MAX - 1, I64_MAX);
      if kind == "missing" then Ok(Missing)
      else if at.Err? then Err(Incompatible)
      else if kind == "not_applicable" then Ok(NotApplicable(at.value))
      else if kind == "current" then
        var used, resets := GetNumber(v, KUsedPercent, 0, U8_MAX), GetNumber(v, KResetsAt, -I64_MAX - 1, I64_MAX);
        if used.Err? || resets.Err? then Err(Incompatible) else Ok(Current(used.value, at.value, resets.value))
      else if kind == "error" then
        match ReadError(v)
        case Err(error) => Err(error)
        case Ok(error) => Ok(ObservationError(error, at.value))
      else Err(Incompatible)
  }

  function ReadFact(core: Core, v: Value): Result<QuotaFact> {
    var account, window := ReadAccount(core, v), ReadWindow(v);
    var duration, observation := GetNumber(v, KDuration, 0, U16_MAX), Get(v, KObservation);
    if account.Err? || window.Err? || duration.Err? || observation.Err? then Err(Incompatible)
    else
      match ReadReading(observation.value)
      case Err(error) => Err(error)
      case Ok(reading) => Ok(QuotaFact(account.value, window.value, duration.value, reading))
  }

  function ReadFacts(core: Core, items: seq<Value>): Result<seq<QuotaFact>> {
    ReadAll(items, (v: Value) => ReadFact(core, v))
  }

  function ReadBlocker(core: Core, v: Value): Result<int> {
    if !v.Text? then Err(Incompatible)
    else match core.unspell(v.text)
      case None => Err(Incompatible)
      case Some(blocker) => Ok(blocker)
  }

  function ReadBlockers(core: Core, items: seq<Value>): Result<seq<int>> {
    ReadAll(items, (v: Value) => ReadBlocker(core, v))
  }

  function ReadMember(core: Core, v: Value): Result<Member> {
    var items := GetArray(v, KBlockers);
    var position, account := GetNumber(v, KPosition, 0, U64_MAX), ReadAccount(core, v);
    var revision := GetNumber(v, KAccountRevision, -I64_MAX - 1, I64_MAX);
    if items.Err? || position.Err? || account.Err? || revision.Err? then Err(Incompatible)
    else
      match ReadBlockers(core, items.value)
      case Err(error) => Err(error)
      case Ok(blockers) => Ok(Member(position.value, account.value, revision.value, blockers))
  }

  function ReadMembers(core: Core, items: seq<Value>): Result<seq<Member>> {
    ReadAll(items, (v: Value) => ReadMember(core, v))
  }

  function ReadMode(core: Core, v: Value): Result<Mode> {
    match GetText(v, KKind)
    case Err(error) => Err(error)
    case Ok(kind) =>
      if kind == "balanced" then Ok(Balanced)
      else if kind == "fixed" then
        match ReadAccount(core, v)
        case Err(error) => Err(error)
        case Ok(account) => Ok(Fixed(account))
      else Err(Incompatible)
  }

  function ReadSnapshot(core: Core, v: Value): Result<Snapshot> {
    var id, mode := GetText(v, KSnapshotId), Get(v, KMode);
    var routing := GetNumber(v, KRoutingRevision, -I64_MAX - 1, I64_MAX);
    var profile := GetNumber(v, KProfileRevision, -I64_MAX - 1, I64_MAX);
    var resolved := GetNumber(v, KResolvedAt, -I64_MAX - 1, I64_MAX);
    var members, facts := GetArray(v, KMembers), GetArray(v, KQuotaFacts);
    if id.Err? || mode.Err? || routing.Err? || profile.Err? || resolved.Err? || members.Err? || facts.Err? then
      Err(Incompatible)
    else
      var read := ReadMode(core, mode.value);
      var readMembers, readFacts := ReadMembers(core, members.value), ReadFacts(core, facts.value);
      if read.Err? || readMembers.Err? || readFacts.Err? then Err(Incompatible)
      else
        Ok(Snapshot(id.value, routing.value, read.value, profile.value, resolved.value, readMembers.value, readFacts.value))
  }

  function ReadCause(core: Core, v: Value): Result<Cause> {
    var account, blocker := ReadAccount(core, v), GetText(v, KBlocker);
    if account.Err? || blocker.Err? then Err(Incompatible)
    else match core.unspell(blocker.value)
      case None => Err(Incompatible)
      case Some(b) => Ok(Cause(account.value, b))
  }

  function ReadCauses(core: Core, v: Value): Result<seq<Cause>> {
    if v.Array? then ReadAll(v.items, (c: Value) => ReadCause(core, c)) else Err(Incompatible)
  }

  function ReadExclusion(core: Core, v: Value): Result<Exclusion> {
    var account, window := ReadAccount(core, v), ReadWindow(v);
    var position, duration := GetNumber(v, KMemberPosition, 0, U64_MAX), GetNumber(v, KDuration, 0, U16_MAX);
    var used := GetNumber(v, KUsedPercent, 0, U8_MAX);
    var at, resets := GetNumber(v, KObservedAt, -I64_MAX - 1, I64_MAX), GetNumber(v, KResetsAt, -I64_MAX - 1, I64_MAX);
    if account.Err? || window.Err? || position.Err? || duration.Err? || used.Err? || at.Err? || resets.Err? then
      Err(Incompatible)
    else
      Ok(Exclusion(account.value, position.value, window.value, duration.value, used.value, at.value, resets.value))
  }

  function ReadExclusions(core: Core, v: Value): Result<seq<Exclusion>> {
    if v.Array? then ReadAll(v.items, (e: Value) => ReadExclusion(core, e)) else Err(Incompatible)
  }

  // --------------------------------------------------- what the types guarantee

  /** The source's integer types and checked identities. */
  predicate ReadingTyped(r: Reading) {
    match r
    case Missing => true
    case NotApplicable(at) => Is64(at)
    case Current(used, at, resets) => 0 <= used <= U8_MAX && Is64(at) && Is64(resets)
    case ObservationError(_, at) => Is64(at)
  }

  predicate FactTyped(core: Core, f: QuotaFact) {
    core.accepts(f.account) && 0 <= f.duration <= U16_MAX && ReadingTyped(f.reading)
  }

  ghost predicate MemberTyped(core: Core, m: Member) {
    && core.accepts(m.account) && 0 <= m.position <= U64_MAX && Is64(m.revision)
    && forall i :: 0 <= i < |m.blockers| ==> Faithful(core, m.blockers[i])
  }

  ghost predicate SnapshotTyped(core: Core, s: Snapshot) {
    && Is64(s.routingRevision) && Is64(s.profileRevision) && Is64(s.resolvedAt)
    && (s.mode.Fixed? ==> core.accepts(s.mode.account))
    && (forall i :: 0 <= i < |s.members| ==> MemberTyped(core, s.members[i]))
    && (forall i :: 0 <= i < |s.facts| ==> FactTyped(core, s.facts[i]))
  }

  ghost predicate CauseTyped(core: Core, c: Cause) {
    core.accepts(c.account) && Faithful(core, c.blocker)
  }

  predicate ExclusionTyped(core: Core, e: Exclusion) {
    && core.accepts(e.account) && 0 <= e.position <= U64_MAX && 0 <= e.duration <= U16_MAX
    && 0 <= e.usedPercent <= U8_MAX && Is64(e.observedAt) && Is64(e.resetsAt)
  }

  // -------------------------------------------------------------- round trips

  lemma WindowReadsBack(v: Value, w: WindowClass)
    requires GetText(v, KWindow) == Ok(WindowText(w))
    ensures ReadWindow(v) == Ok(w)
  {
    assert "five_hour"[0] != "seven_day"[0];
  }

  lemma ErrorReadsBack(v: Value, e: QuotaError)
    requires GetText(v, KError) == Ok(ErrorText(e))
    ensures ReadError(v) == Ok(e)
  {
    assert |"provider_unavailable"| == |"protocol_unavailable"| && "provider_unavailable"[3] != "protocol_unavailable"[3];
    assert |"account_mismatch"| == 16 && |"unsupported_window"| == 18;
  }

  lemma ReadingReadsBack(r: Reading)
    requires ReadingTyped(r)
    ensures ReadReading(WriteReading(r)) == Ok(r)
  {
    assert "missing"[0] != "current"[0];
    assert |"missing"| == 7 && |"current"| == 7 && |"not_applicable"| == 14 && |"error"| == 5;
    if r.ObservationError? { ErrorReadsBack(WriteReading(r), r.error); }
  }

  lemma FactReadsBack(core: Core, f: QuotaFact)
    requires FactTyped(core, f)
    ensures ReadFact(core, WriteFact(f)) == Ok(f)
  {
    var v := WriteFact(f);
    assert GetText(v, KAccountId) == Ok(f.account) && GetText(v, KWindow) == Ok(WindowText(f.window));
    WindowReadsBack(v, f.window);
    ReadingReadsBack(f.reading);
  }

  lemma FactsReadBack(core: Core, facts: seq<QuotaFact>)
    requires forall i :: 0 <= i < |facts| ==> FactTyped(core, facts[i])
    ensures ReadFacts(core, WriteAll(facts, WriteFact)) == Ok(facts)
  {
    forall i | 0 <= i < |facts| ensures ReadFact(core, WriteFact(facts[i])) == Ok(facts[i]) {
      FactReadsBack(core, facts[i]);
    }
    ReadAllUndoesWriteAll(facts, WriteFact, (v: Value) => ReadFact(core, v));
  }

  lemma BlockersReadBack(core: Core, blockers: seq<int>)
    requires forall i :: 0 <= i < |blockers| ==> Faithful(core, blockers[i])
    ensures ReadBlockers(core, WriteBlockers(core, blockers)) == Ok(blockers)
  {
    forall i | 0 <= i < |blockers| ensures ReadBlocker(core, Text(core.spell(blockers[i]))) == Ok(blockers[i]) {
      assert Faithful(core, blockers[i]);
    }
    ReadAllUndoesWriteAll(blockers, (b: int) => Text(core.spell(b)), (v: Value) => ReadBlocker(core, v));
  }

  lemma MemberReadsBack(core: Core, m: Member)
    requires MemberTyped(core, m)
    ensures
      var r := ReadMember(core, WriteMember(core, m));
      if m.position <= I64_MAX then r == Ok(m) else r.Err?
  {
    BlockersReadBack(core, m.blockers);
  }

  lemma MembersReadBack(core: Core, members: seq<Member>)
    requires forall i :: 0 <= i < |members| ==> MemberTyped(core, members[i])
    ensures
      var r := ReadMembers(core, WriteMembers(core, members));
      if forall i :: 0 <= i < |members| ==> members[i].position <= I64_MAX then r == Ok(members) else r.Err?
  {
    forall i | 0 <= i < |members|
      ensures
        var r := ReadMember(core, WriteMember(core, members[i]));
        if members[i].position <= I64_MAX then r == Ok(members[i]) else r.Err?
    {
      MemberReadsBack(core, members[i]);
    }
    ReadAllUndoesWriteAll(members, (m: Member) => WriteMember(core, m), (v: Value) => ReadMember(core, v));
  }

  lemma ModeReadsBack(core: Core, m: Mode)
    requires m.Fixed? ==> core.accepts(m.account)
    ensures ReadMode(core, WriteMode(m)) == Ok(m)
  {
    assert |"balanced"| == 8 && |"fixed"| == 5;
  }

  lemma SnapshotNumbers(core: Core, s: Snapshot)
    requires SnapshotTyped(core, s)
    ensures
      var v := WriteSnapshot(core, s);
      && GetNumber(v, KRoutingRevision, -I64_MAX - 1, I64_MAX) == Ok(s.routingRevision)
      && GetNumber(v, KProfileRevision, -I64_MAX - 1, I64_MAX) == Ok(s.profileRevision)
      && GetNumber(v, KResolvedAt, -I64_MAX - 1, I64_MAX) == Ok(s.resolvedAt)
  {
  }

  lemma SnapshotParts(core: Core, s: Snapshot)
    ensures
      var v := WriteSnapshot(core, s);
      && GetText(v, KSnapshotId) == Ok(s.id) && Get(v, KMode) == Ok(WriteMode(s.mode))
      && GetArray(v, KMembers) == Ok(WriteMembers(core, s.members))
      && GetArray(v, KQuotaFacts) == Ok(WriteAll(s.facts, WriteFact))
  {
  }

  /** A stored snapshot reads back as it was exactly when all member positions fit an i64; otherwise
      reading it is an error, never another snapshot. */
  lemma SnapshotRoundTrip(core: Core, s: Snapshot)
    requires SnapshotTyped(core, s)
    ensures
      var r := ReadSnapshot(core, WriteSnapshot(core, s));
      if forall i :: 0 <= i < |s.members| ==> s.members[i].position <= I64_MAX then r == Ok(s) else r.Err?
  {
    SnapshotNumbers(core, s);
    SnapshotParts(core, s);
    ModeReadsBack(core, s.mode);
    MembersReadBack(core, s.members);
    FactsReadBack(core, s.facts);
  }

  lemma CausesRoundTrip(core: Core, causes: seq<Cause>)
    requires forall i :: 0 <= i < |causes| ==> CauseTyped(core, causes[i])
    ensures ReadCauses(core, WriteCauses(core, causes)) == Ok(causes)
  {
    forall i | 0 <= i < |causes| ensures ReadCause(core, WriteCause(core, causes[i])) == Ok(causes[i]) {
      assert CauseTyped(core, causes[i]);
    }
    ReadAllUndoesWriteAll(causes, (c: Cause) => WriteCause(core, c), (v: Value) => ReadCause(core, v));
  }

  lemma ExclusionReadsBack(core: Core, e: Exclusion)
    requires ExclusionTyped(core, e)
    ensures
      var r := ReadExclusion(core, WriteExclusion(e));
      if e.position <= I64_MAX then r == Ok(e) else r.Err?
  {
    WindowReadsBack(WriteExclusion(e), e.window);
  }

  /** A stored list of exclusions reads back exactly when all its positions fit an i64. */
  lemma ExclusionsRoundTrip(core: Core, exclusions: seq<Exclusion>)
    requires forall i :: 0 <= i < |exclusions| ==> ExclusionTyped(core, exclusions[i])
    ensures
      var r := ReadExclusions(core, WriteExclusions(exclusions));
      if forall i :: 0 <= i < |exclusions| ==> exclusions[i].position <= I64_MAX then r == Ok(exclusions) else r.Err?
  {
    forall i | 0 <= i < |exclusions|
      ensures
        var r := ReadExclusion(core, WriteExclusion(exclusions[i]));
        if exclusions[i].position <= I64_MAX then r == Ok(exclusions[i]) else r.Err?
    {
      ExclusionReadsBack(core, exclusions[i]);
    }
    ReadAllUndoesWriteAll(exclusions, WriteExclusion, (v: Value) => ReadExclusion(core, v));
  }

  // ------------------------------------------------------- credential bindings

  /** The one provider is spelled "chatgpt"; schemas 1 and 2 exist; versions are positive u64. */
  datatype Credential = Credential(schema: int, version: int, fingerprint: string, writer: string, providerAccount: string)

  /** The checks of the core constructors. */
  datatype Checks = Checks(fingerprint: string -> bool, writer: string -> bool, providerAccount: string -> bool)

  predicate CredentialTyped(checks: Checks, c: Credential) {
    && 1 <= c.schema <= 2 && 1 <= c.version <= U64_MAX
    && checks.fingerprint(c.fingerprint) && checks.writer(c.writer) && checks.providerAccount(c.providerAccount)
  }

  function WriteBinding(c: Option<Credential>): Option<Value> {
    match c
    case None => None
    case Some(b) =>
      Some(Object(map[
        KSchemaVersion := Number(b.schema), KCredentialVersion := Number(b.version), KFingerprint := Text(b.fingerprint),
        KWriter := Text(b.writer), KProvider := Text("chatgpt"), KProviderAccount := Text(b.providerAccount)]))
  }

  function ReadBinding(checks: Checks, v: Option<Value>): Result<Option<Credential>> {
    match v
    case None => Ok(None)
    case Some(o) =>
      var schema, version := GetNumber(o, KSchemaVersion, 0, I64_MAX), GetNumber(o, KCredentialVersion, 0, I64_MAX);
      var fingerprint, writer := GetText(o, KFingerprint), GetText(o, KWriter);
      var provider, account := GetText(o, KProvider), GetText(o, KProviderAccount);
      if schema.Err? || version.Err? || fingerprint.Err? || writer.Err? || provider.Err? || account.Err? then Err(Incompatible)
      else if provider.value != "chatgpt" || !(1 <= schema.value <= 2) || version.value == 0 then Err(Incompatible)
      else if !checks.fingerprint(fingerprint.value) || !checks.writer(writer.value) || !checks.providerAccount(account.value) then
        Err(Incompatible)
      else Ok(Some(Credential(schema.value, version.value, fingerprint.value, writer.value, account.value)))
  }

  /** A stored binding reads back as it was exactly when its version fits an i64; otherwise reading it
      is an error. */
  lemma BindingRoundTrip(checks: Checks, c: Option<Credential>)
    requires c.Some? ==> CredentialTyped(checks, c.value)
    ensures
      var r := ReadBinding(checks, WriteBinding(c));
      if c.Some? && c.value.version > I64_MAX then r.Err? else r == Ok(c)
  {
    if c.Some? {
      var o := WriteBinding(c).value;
      assert GetText(o, KProvider) == Ok("chatgpt");
    }
  }

  /** Reading accepts nothing that writing would not produce: what reads as a binding is written back
      as an object with the same six fields. */
  lemma BindingReadsOnlyWritten(checks: Checks, o: Value)
    requires ReadBinding(checks, Some(o)).Ok? && o.Object?
    ensures
      var c := ReadBinding(checks, Some(o)).value;
      && c.Some? && CredentialTyped(checks, c.value)
      && forall f :: f in WriteBinding(c).value.fields ==> f in o.fields && o.fields[f] == WriteBinding(c).value.fields[f]
  {
  }
}
