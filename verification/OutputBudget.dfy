/** Live output of the running turn: stored text stays within its byte budget, and says exactly when
    something was lost. Messages, plans and reasoning summaries share one table. */
module OutputBudget {
  import opened Prelude
  import opened Utf8

  type TurnId = int
  type ItemId = int

  const TEXT_BUDGET: nat := 65_536
  const ITEM_BUDGET: nat := 32

  datatype Kind = AgentMessage | Plan | ReasoningSummary

  /** A reasoning summary keeps its parts beside the joined text; other kinds have none. */
  datatype Live = Live(kind: Kind, text: Text, parts: seq<Text>, truncated: bool, completed: bool)

  type Rows = map<(TurnId, ItemId), Live>

  /** The rows of one work, and the turns whose reasoning was handed to a voice call. */
  datatype Output = Output(rows: Rows, handed: set<TurnId>)

  function RowsOf(rows: Rows, turn: TurnId): Rows {
    map key | key in rows && key.0 == turn :: rows[key]
  }

  /** Append a delta to an item's text, or replace it by its completed text. The reply says whether the
      output changed. `running` is the work's running turn. */
  function Update(o: Output, running: Option<TurnId>, turn: TurnId, item: ItemId, kind: Kind, text: Text, replace: bool)
    : Transaction<Output, bool>
  {
    if kind.ReasoningSummary? then Rollback(InvalidInput)
    else if running != Some(turn) then Commit(o, false)
    else
      var rows, key := RowsOf(o.rows, turn), (turn, item);
      if key in rows && rows[key].kind != kind then Rollback(InvalidInput)
      else if key in rows && rows[key].completed && !replace then Commit(o, false)
      else if key !in rows && |rows| >= ITEM_BUDGET then Commit(o, false)
      else
        var content := if replace || key !in rows then text else rows[key].text + text;
        var lost := !replace && key in rows && rows[key].truncated;
        var row := Live(kind, Clipped(content, TEXT_BUDGET), [], lost || Size(content) > TEXT_BUDGET, replace);
        Commit(o.(rows := rows[key := row]), true)
  }

  datatype Change = Delta(index: nat, text: Text) | Completed(parts: seq<Text>)

  /** Take one change of a reasoning summary. Once completed it takes no deltas, and a handed-over turn
      takes no new summary. `running` is the running turn of the work if its process asks. */
  function Summarize(o: Output, running: Option<TurnId>, turn: TurnId, item: ItemId, change: Change)
    : Transaction<Output, bool>
  {
    if running != Some(turn) then Commit(o, false)
    else
      var key := (turn, item);
      var known := key in o.rows;
      if known && !o.rows[key].kind.ReasoningSummary? then Rollback(InvalidInput)
      else if !known && (turn in o.handed || |RowsOf(o.rows, turn)| >= ITEM_BUDGET) then Commit(o, false)
      else
        match change
        case Completed(parts) => Commit(Kept(o, key, Bounded(parts, false), true), true)
        case Delta(index, text) =>
          if known && o.rows[key].completed then Commit(o, false)
          else if index >= ITEM_BUDGET then Commit(o.(rows := o.rows[key := Marked(o.rows, key)]), true)
          else
            var before := if known then o.rows[key].parts else [];
            Commit(Kept(o, key, Bounded(Extended(before, index, text), known && o.rows[key].truncated), false), true)
  }

  /** The row of a bounded summary; rows of other turns go. */
  function Kept(o: Output, key: (TurnId, ItemId), s: Summary, completed: bool): Output {
    var row := Live(ReasoningSummary, Joined(s.parts), s.parts, s.truncated, completed);
    o.(rows := RowsOf(o.rows, key.0)[key := row])
  }

  /** A part beyond the 32nd is only marked as lost. */
  function Marked(rows: Rows, key: (TurnId, ItemId)): Live {
    if key in rows then rows[key].(truncated := true) else Live(ReasoningSummary, [], [], true, false)
  }

  function HandOver(o: Output, running: Option<TurnId>, turn: TurnId): Output {
    if running == Some(turn) then o.(handed := o.handed + {turn}) else o
  }

  // ------------------------------------------------------------- bounding parts

  const Break: Text := [[10], [10]]

  /** The parts joined by blank lines. */
  function Joined(parts: seq<Text>): Text {
    if parts == [] then []
    else if |parts| == 1 then parts[0]
    else parts[0] + Break + Joined(parts[1..])
  }

  function SumSizes(parts: seq<Text>): nat {
    if parts == [] then 0 else Size(parts[0]) + SumSizes(parts[1..])
  }

  /** Hand the remaining octets to one part after another. */
  function Spend(parts: seq<Text>, remaining: nat): (spent: seq<Text>)
    ensures |spent| == |parts|
  {
    if parts == [] then []
    else [Clipped(parts[0], remaining)] + Spend(parts[1..], remaining - Size(Clipped(parts[0], remaining)))
  }

  function Separators(n: nat): nat {
    if n == 0 then 0 else (n - 1) * 2
  }

  datatype Summary = Summary(parts: seq<Text>, truncated: bool)

  /** At most 32 parts, and with their separators at most 65,536 octets. */
  function Bounded(parts: seq<Text>, truncated: bool): Summary {
    var kept := if |parts| > ITEM_BUDGET then parts[..ITEM_BUDGET] else parts;
    var budget := TEXT_BUDGET - Separators(|kept|);
    Summary(Spend(kept, budget), truncated || |parts| > ITEM_BUDGET || Spend(kept, budget) != kept)
  }

  /** Extend the list with empty parts as far as the index. */
  function Resized(parts: seq<Text>, n: nat): seq<Text> {
    if |parts| >= n then parts else parts + seq(n - |parts|, _ => [])
  }

  function Extended(parts: seq<Text>, index: nat, text: Text): seq<Text> {
    var resized := Resized(parts, index + 1);
    resized[index := resized[index] + text]
  }

  /** More than a summary may hold. */
  predicate Exceeds(parts: seq<Text>) {
    |parts| > ITEM_BUDGET || Size(Joined(parts)) > TEXT_BUDGET
  }

  lemma SizeAdds(s: Text, t: Text)
    ensures Size(s + t) == Size(s) + Size(t)
  {
    BytesAppend(s, t);
  }

  /** Each part is the beginning of its own. */
  predicate Beginnings(kept: seq<Text>, told: seq<Text>) {
    |kept| <= |told| && forall i :: 0 <= i < |kept| ==> kept[i] <= told[i]
  }

  lemma {:induction false} SpendIsBounded(parts: seq<Text>, remaining: nat)
    ensures SumSizes(Spend(parts, remaining)) <= remaining
    ensures Spend(parts, remaining) == parts <==> SumSizes(parts) <= remaining
    ensures Beginnings(Spend(parts, remaining), parts)
  {
    if parts != [] {
      var rest := remaining - Size(Clipped(parts[0], remaining));
      ClippingLosesLittle(parts[0], remaining);
      SpendIsBounded(parts[1..], rest);
      assert Spend(parts, remaining)[1..] == Spend(parts[1..], rest);
      assert parts == [parts[0]] + parts[1..];
    }
  }

  lemma {:induction false} JoinedIsSum(parts: seq<Text>)
    ensures Size(Joined(parts)) == SumSizes(parts) + Separators(|parts|)
  {
    if |parts| > 1 {
      JoinedIsSum(parts[1..]);
      SizeAdds(parts[0] + Break, Joined(parts[1..]));
      SizeAdds(parts[0], Break);
      assert Break[..1] == [[10]] && [[10]][..0] == [];
      assert Size(Break) == 2;
    }
  }

  /** Spending the budget keeps up to 32 parts within it, and all of them exactly when they fit. */
  lemma SpendingFits(parts: seq<Text>)
    requires |parts| <= ITEM_BUDGET
    ensures
      var spent := Spend(parts, TEXT_BUDGET - Separators(|parts|));
      && Size(Joined(spent)) <= TEXT_BUDGET && Beginnings(spent, parts)
      && (spent == parts <==> Size(Joined(parts)) <= TEXT_BUDGET)
  {
    var budget := TEXT_BUDGET - Separators(|parts|);
    SpendIsBounded(parts, budget);
    JoinedIsSum(Spend(parts, budget));
    JoinedIsSum(parts);
  }

  /** A bounded summary never exceeds the budget; it is marked truncated exactly when something was
      lost before or the parts exceed a bound; it keeps a beginning of each part, and unmarked all. */
  lemma SummariesAreBounded(parts: seq<Text>, truncated: bool)
    ensures
      var s := Bounded(parts, truncated);
      && |s.parts| <= ITEM_BUDGET && Size(Joined(s.parts)) <= TEXT_BUDGET
      && (s.truncated <==> truncated || Exceeds(parts))
      && Beginnings(s.parts, parts) && (!s.truncated ==> s.parts == parts)
  {
    if |parts| > ITEM_BUDGET {
      SpendingFits(parts[..ITEM_BUDGET]);
    } else {
      SpendingFits(parts);
    }
  }

  lemma {:induction false} SumOfAppend(parts: seq<Text>, more: seq<Text>)
    ensures SumSizes(parts + more) == SumSizes(parts) + SumSizes(more)
  {
    if parts == [] {
      assert parts + more == more;
    } else {
      SumOfAppend(parts[1..], more);
      assert (parts + more)[1..] == parts[1..] + more;
    }
  }

  lemma {:induction false} SumOfUpdate(parts: seq<Text>, index: nat, text: Text)
    requires index < |parts|
    ensures SumSizes(parts[index := parts[index] + text]) == SumSizes(parts) + Size(text)
  {
    var updated := parts[index := parts[index] + text];
    if index == 0 {
      SizeAdds(parts[0], text);
      assert updated[1..] == parts[1..];
    } else {
      SumOfUpdate(parts[1..], index - 1, text);
      assert updated[1..] == parts[1..][index - 1 := parts[1..][index - 1] + text];
    }
  }

  /** What exceeds the bounds still does after more was told. */
  lemma ExceedingStays(parts: seq<Text>, index: nat, text: Text)
    requires Exceeds(parts)
    ensures Exceeds(Extended(parts, index, text))
  {
    var resized := Resized(parts, index + 1);
    if |parts| < index + 1 { SumOfAppend(parts, seq(index + 1 - |parts|, _ => [])); }
    SumOfUpdate(resized, index, text);
    JoinedIsSum(parts);
    JoinedIsSum(Extended(parts, index, text));
  }

  // --------------------------------------------------------------------- runs

  datatype Command =
    | DoUpdate(running: Option<TurnId>, turn: TurnId, item: ItemId, kind: Kind, text: Text, replace: bool)
    | DoSummarize(running: Option<TurnId>, turn: TurnId, item: ItemId, change: Change)
    | DoHandOver(running: Option<TurnId>, turn: TurnId)
    | Invalidate

  function Step(o: Output, c: Command): Transaction<Output, bool> {
    match c
    case DoUpdate(running, turn, item, kind, text, replace) => Update(o, running, turn, item, kind, text, replace)
    case DoSummarize(running, turn, item, change) => Summarize(o, running, turn, item, change)
    case DoHandOver(running, turn) => Commit(HandOver(o, running, turn), running == Some(turn))
    case Invalidate => Commit(o.(rows := map[]), o.rows != map[])
  }

  /** Everything an item was told since it started or was completed, and whether a message was
      continued after it had been cut. */
  datatype Told = Told(text: Text, continued: bool, parts: seq<Text>)

  /** Beside the output, what each item was told. */
  datatype World = World(output: Output, told: map<(TurnId, ItemId), Told>)

  function ToldOf(w: World, key: (TurnId, ItemId)): Told {
    if key in w.told then w.told[key] else Told([], false, [])
  }

  /** A cut message has room for the first character of a delta. */
  predicate Continues(row: Live, text: Text) {
    row.truncated && text != [] && Size(row.text) + |text[0]| <= TEXT_BUDGET
  }

  function Telling(w: World, c: Command): Told
    requires c.DoUpdate? || c.DoSummarize?
  {
    var key := (c.turn, c.item);
    var known, before := key in w.output.rows, ToldOf(w, key);
    if c.DoUpdate? then
      if c.replace || !known then Told(c.text, false, [])
      else Told(before.text + c.text, before.continued || Continues(w.output.rows[key], c.text), [])
    else
      match c.change
      case Completed(parts) => Told([], false, parts)
      case Delta(index, text) => Told([], false, Extended(if known then before.parts else [], index, text))
  }

  function Next(w: World, c: Command): World {
    var tx := Step(w.output, c);
    var n := After(w.output, tx);
    if (c.DoUpdate? || c.DoSummarize?) && tx.Commit? && tx.reply then World(n, w.told[(c.turn, c.item) := Telling(w, c)])
    else World(n, w.told)
  }

  const Start: World := World(Output(map[], {}), map[])

  function Play(commands: seq<Command>): World {
    if commands == [] then Start
    else Next(Play(commands[..|commands| - 1]), commands[|commands| - 1])
  }

  /** A message is cut where the next character does not fit, and says so; it is the beginning of what
      was told exactly until a later delta continued it after the cut. */
  ghost predicate MessageOk(row: Live, told: Told) {
    && row.parts == [] && Size(row.text) <= TEXT_BUDGET
    && |row.text| <= |told.text| && Size(row.text) <= Size(told.text)
    && (row.truncated <==> Size(told.text) > TEXT_BUDGET)
    && (row.text <= told.text <==> !told.continued)
    && (told.continued ==> row.truncated)
    && (!told.continued ==> row.text == Clipped(told.text, TEXT_BUDGET))
  }

  /** A summary is truncated exactly when what was told exceeds the bounds, and otherwise it is all of
      that, part by part. */
  ghost predicate SummaryOk(row: Live, told: Told) {
    && row.text == Joined(row.parts)
    && |row.parts| <= ITEM_BUDGET && Size(row.text) <= TEXT_BUDGET
    && (row.truncated <==> Exceeds(told.parts))
    && (!row.truncated ==> row.parts == told.parts)
  }

  ghost predicate RowOk(row: Live, told: Told) {
    if row.kind.ReasoningSummary? then SummaryOk(row, told) else MessageOk(row, told)
  }

  ghost predicate Roomy(rows: Rows) {
    forall turn :: |RowsOf(rows, turn)| <= ITEM_BUDGET
  }

  ghost predicate Inv(w: World) {
    && Roomy(w.output.rows)
    && forall key :: key in w.output.rows ==> RowOk(w.output.rows[key], ToldOf(w, key))
  }

  /** What was clipped is the longest beginning that fits. */
  lemma ClippedIs(s: Text, p: Text, limit: nat)
    requires p <= s && Size(p) <= limit && (p == s || Size(s[..|p| + 1]) > limit)
    ensures Clipped(s, limit) == p
  {
    var k := Fitting(s, limit);
    if k < |p| { assert s[..k + 1] == p[..k + 1]; SizeOfPrefix(p, k + 1); }
    if |p| < k { assert s[..|p| + 1] == s[..k][..|p| + 1]; SizeOfPrefix(s[..k], |p| + 1); }
  }

  /** Clipping keeps what was there before a delta. */
  lemma ClippingKeeps(s: Text, t: Text)
    requires Size(s) <= TEXT_BUDGET
    ensures s <= Clipped(s + t, TEXT_BUDGET) <= s + t && Size(Clipped(s + t, TEXT_BUDGET)) <= TEXT_BUDGET
    ensures t != [] && Size(s) + |t[0]| <= TEXT_BUDGET ==>
      |s| < |Clipped(s + t, TEXT_BUDGET)| && Clipped(s + t, TEXT_BUDGET)[|s|] == t[0]
    ensures t == [] || Size(s) + |t[0]| > TEXT_BUDGET ==> Clipped(s + t, TEXT_BUDGET) == s
  {
    var k := Fitting(s + t, TEXT_BUDGET);
    if k < |s| { assert (s + t)[..k + 1] == s[..k + 1]; SizeOfPrefix(s, k + 1); }
    assert (s + t)[..|s|] == s;
    if t != [] {
      assert (s + t)[..|s| + 1][..|s|] == s;
      if Size(s) + |t[0]| > TEXT_BUDGET { ClippedIs(s + t, s, TEXT_BUDGET); }
    } else {
      ClippedIs(s + t, s, TEXT_BUDGET);
    }
  }

  /** A cut beginning is followed by a character that does not fit. */
  lemma CutMessage(told: Text, cut: Text, text: Text)
    requires cut == Clipped(told, TEXT_BUDGET) && Size(told) > TEXT_BUDGET
    ensures cut <= told && |cut| < |told| && Size(cut) + |told[|cut|]| > TEXT_BUDGET
    ensures Clipped(told + text, TEXT_BUDGET) == cut
  {
    ClippingLosesLittle(told, TEXT_BUDGET);
    assert told[..|cut| + 1][..|cut|] == cut;
    assert (told + text)[..|cut| + 1] == told[..|cut| + 1];
    ClippedIs(told + text, cut, TEXT_BUDGET);
  }

  /** A delta for a message that was cut: it continues exactly when its first character fits. */
  lemma CutStays(prior: Live, told: Told, text: Text)
    requires MessageOk(prior, told) && prior.truncated
    ensures
      MessageOk(prior.(text := Clipped(prior.text + text, TEXT_BUDGET), completed := false),
                Told(told.text + text, told.continued || Continues(prior, text), []))
  {
    var clipped := Clipped(prior.text + text, TEXT_BUDGET);
    SizeAdds(prior.text, text);
    SizeAdds(told.text, text);
    ClippingKeeps(prior.text, text);
    SizeOfPrefix(prior.text + text, |clipped|);
    if told.continued {
      assert clipped <= told.text + text ==> prior.text <= told.text;
    } else {
      CutMessage(told.text, prior.text, text);
      if Continues(prior, text) {
        assert (told.text + text)[|prior.text|] == told.text[|prior.text|] != text[0];
      }
    }
  }

  lemma FreshMessage(kind: Kind, text: Text, completed: bool)
    ensures MessageOk(Live(kind, Clipped(text, TEXT_BUDGET), [], Size(text) > TEXT_BUDGET, completed), Told(text, false, []))
  {
    ClippingLosesLittle(text, TEXT_BUDGET);
    SizeOfPrefix(text, Fitting(text, TEXT_BUDGET));
  }

  lemma DeltaKeepsSummary(prior: Live, told: Told, index: nat, text: Text)
    requires SummaryOk(prior, told)
    ensures
      var s := Bounded(Extended(prior.parts, index, text), prior.truncated);
      SummaryOk(Live(ReasoningSummary, Joined(s.parts), s.parts, s.truncated, false),
                Told([], false, Extended(told.parts, index, text)))
  {
    SummariesAreBounded(Extended(prior.parts, index, text), prior.truncated);
    if Exceeds(told.parts) { ExceedingStays(told.parts, index, text); }
  }

  /** One row more, if there was room. */
  lemma CountsStay(rows: Rows, key: (TurnId, ItemId), row: Live)
    requires Roomy(rows) && (key in rows || |RowsOf(rows, key.0)| < ITEM_BUDGET)
    ensures Roomy(rows[key := row]) && Roomy(RowsOf(rows, key.0)[key := row])
  {
    var mine := RowsOf(rows, key.0);
    if key in rows { assert mine[key := row].Keys == mine.Keys; }
    assert |mine[key := row].Keys| <= ITEM_BUDGET;
    var all, own := rows[key := row], mine[key := row];
    forall turn ensures |RowsOf(all, turn)| <= ITEM_BUDGET && |RowsOf(own, turn)| <= ITEM_BUDGET {
      assert RowsOf(all, turn) == if key.0 == turn then mine[key := row] else RowsOf(rows, turn);
      assert RowsOf(own, turn) == if key.0 == turn then mine[key := row] else map[];
    }
  }

  lemma UpdateKeepsInv(w: World, c: Command)
    requires Inv(w) && c.DoUpdate? && Step(w.output, c).Commit? && Step(w.output, c).reply
    ensures Inv(Next(w, c))
  {
    var key, rows := (c.turn, c.item), w.output.rows;
    var n := Next(w, c);
    CountsStay(rows, key, n.output.rows[key]);
    FreshMessage(c.kind, c.text, c.replace);
    if key in rows && !c.replace {
      assert RowOk(rows[key], ToldOf(w, key));
      if rows[key].truncated { CutStays(rows[key], ToldOf(w, key), c.text); }
      else { ClippingLosesLittle(ToldOf(w, key).text, TEXT_BUDGET); FreshMessage(c.kind, rows[key].text + c.text, false); }
      SizeAdds(rows[key].text, c.text);
    }
    assert RowOk(n.output.rows[key], ToldOf(n, key));
  }

  lemma SummarizeKeepsRow(w: World, c: Command)
    requires Inv(w) && c.DoSummarize? && Step(w.output, c).Commit? && Step(w.output, c).reply
    ensures
      var key, n := (c.turn, c.item), Next(w, c);
      key in n.output.rows && n.output.rows[key].kind.ReasoningSummary? && SummaryOk(n.output.rows[key], ToldOf(n, key))
  {
    var key, rows := (c.turn, c.item), w.output.rows;
    match c.change
    case Completed(parts) => SummariesAreBounded(parts, false);
    case Delta(index, text) =>
      if key in rows {
        assert RowOk(rows[key], ToldOf(w, key));
        DeltaKeepsSummary(rows[key], ToldOf(w, key), index, text);
      } else {
        SummariesAreBounded(Extended([], index, text), false);
      }
  }

  /** One row was written, perhaps while rows of other turns went. */
  lemma WrittenKeepsInv(w: World, n: World, key: (TurnId, ItemId), row: Live, told: Told)
    requires Inv(w) && RowOk(row, told) && n.told == w.told[key := told]
    requires key in w.output.rows || |RowsOf(w.output.rows, key.0)| < ITEM_BUDGET
    requires n.output.rows == w.output.rows[key := row] || n.output.rows == RowsOf(w.output.rows, key.0)[key := row]
    ensures Inv(n)
  {
    CountsStay(w.output.rows, key, row);
    forall k | k in n.output.rows ensures RowOk(n.output.rows[k], ToldOf(n, k)) {
      if k != key { assert RowOk(w.output.rows[k], ToldOf(w, k)); }
    }
  }

  lemma SummarizeKeepsInv(w: World, c: Command)
    requires Inv(w) && c.DoSummarize? && Step(w.output, c).Commit? && Step(w.output, c).reply
    ensures Inv(Next(w, c))
  {
    SummarizeKeepsRow(w, c);
    var key, n := (c.turn, c.item), Next(w, c);
    WrittenKeepsInv(w, n, key, n.output.rows[key], Telling(w, c));
  }

  /** Over every run: at most 32 items of one turn, each text within 65,536 octets and cut between
      characters; an item is marked truncated exactly when what it was told exceeds its bounds, and
      otherwise it is exactly that. */
  lemma {:induction false} TruncationIsExact(commands: seq<Command>)
    ensures Inv(Play(commands))
  {
    if commands != [] {
      var w, c := Play(commands[..|commands| - 1]), commands[|commands| - 1];
      TruncationIsExact(commands[..|commands| - 1]);
      var tx := Step(w.output, c);
      if c.DoUpdate? && tx.Commit? && tx.reply { UpdateKeepsInv(w, c); }
      if c.DoSummarize? && tx.Commit? && tx.reply { SummarizeKeepsInv(w, c); }
    } else {
      assert forall turn :: RowsOf(map[], turn) == map[];
    }
  }

  /** While a message is not marked it is exactly what was told; marked, it is the beginning of that
      exactly as long as no delta found room for its first character after the cut. */
  lemma MessagesAreExact(commands: seq<Command>, key: (TurnId, ItemId))
    requires key in Play(commands).output.rows && !Play(commands).output.rows[key].kind.ReasoningSummary?
    ensures
      var row, told := Play(commands).output.rows[key], ToldOf(Play(commands), key);
      && (!row.truncated ==> row.text == told.text)
      && (row.text <= told.text <==> !told.continued)
      && (!told.continued ==> row.text == Clipped(told.text, TEXT_BUDGET))
  {
    TruncationIsExact(commands);
    var row, told := Play(commands).output.rows[key], ToldOf(Play(commands), key);
    assert RowOk(row, told);
    ClippingLosesLittle(told.text, TEXT_BUDGET);
  }

  /** A summary is marked truncated exactly when the parts it was told number more than 32 or join to
      more than 65,536 octets; otherwise it has exactly those parts. */
  lemma SummariesAreExact(commands: seq<Command>, key: (TurnId, ItemId))
    requires key in Play(commands).output.rows && Play(commands).output.rows[key].kind.ReasoningSummary?
    ensures
      var row, told := Play(commands).output.rows[key], ToldOf(Play(commands), key);
      && (row.truncated <==> |told.parts| > ITEM_BUDGET || Size(Joined(told.parts)) > TEXT_BUDGET)
      && (!row.truncated ==> row.parts == told.parts)
      && row.text == Joined(row.parts)
  {
    TruncationIsExact(commands);
    assert RowOk(Play(commands).output.rows[key], ToldOf(Play(commands), key));
  }

  /** Completes the item again, or makes room for another turn. */
  predicate Reopens(c: Command, key: (TurnId, ItemId)) {
    match c
    case DoUpdate(_, turn, item, _, _, replace) => turn != key.0 || (item == key.1 && replace)
    case DoSummarize(_, turn, item, change) => turn != key.0 || (item == key.1 && change.Completed?)
    case DoHandOver(_, _) => false
    case Invalidate => true
  }

  /** A completed item drops every later delta: its row stays as it is, whatever else its turn tells. */
  lemma {:induction false} CompletedItemsStay(o: Output, commands: seq<Command>, key: (TurnId, ItemId))
    requires key in o.rows && o.rows[key].completed
    requires forall c :: c in commands ==> !Reopens(c, key)
    ensures key in Taken(o, commands).rows && Taken(o, commands).rows[key] == o.rows[key]
  {
    if commands != [] {
      var c := commands[|commands| - 1];
      assert !Reopens(c, key);
      CompletedItemsStay(o, commands[..|commands| - 1], key);
    }
  }

  function Taken(o: Output, commands: seq<Command>): Output {
    if commands == [] then o
    else
      var before := Taken(o, commands[..|commands| - 1]);
      After(before, Step(before, commands[|commands| - 1]))
  }

  // -------------------------------------------------------------- partial output

  /** How many octets a JSON string needs for one character (section 7 of RFC 8259): the quote and the
      backslash are escaped, a control character takes a short or a six-octet escape. */
  function EscapedCharacter(c: Character): nat {
    if c[0] == 0x22 || c[0] == 0x5C then 2
    else if c[0] < 0x20 then (if c[0] == 8 || c[0] == 9 || c[0] == 10 || c[0] == 12 || c[0] == 13 then 2 else 6)
    else |c|
  }

  function EscapedSize(s: Text): nat {
    if s == [] then 0 else EscapedSize(s[..|s| - 1]) + EscapedCharacter(s[|s| - 1])
  }

  lemma {:induction false} EscapingIsBounded(s: Text)
    ensures EscapedSize(s) <= 6 * Size(s)
  {
    if s != [] { EscapingIsBounded(s[..|s| - 1]); }
  }

  datatype Identity = Identity(thread: Text, turn: Text, item: Text)

  /** The fixed keys and punctuation of the payload object take 72 octets. */
  const FRAME: nat := 72

  function PayloadSize(id: Identity, kind: Kind, text: Text, truncated: bool): nat {
    FRAME + EscapedSize(id.thread) + EscapedSize(id.turn) + EscapedSize(id.item)
    + (if kind.AgentMessage? then 12 else 4) + EscapedSize(text) + (if truncated then 4 else 5)
  }

  predicate BoundedIdentity(id: Identity) {
    Size(id.thread) <= 512 && Size(id.turn) <= 512 && Size(id.item) <= 512
  }

  /** The bounded identities alone always fit. */
  lemma IdentitiesFit(id: Identity, kind: Kind, truncated: bool)
    requires BoundedIdentity(id)
    ensures PayloadSize(id, kind, [], truncated) < TEXT_BUDGET
  {
    EscapingIsBounded(id.thread);
    EscapingIsBounded(id.turn);
    EscapingIsBounded(id.item);
  }

  function Less(size: nat, step: nat): nat {
    if size < step then 0 else size - step
  }

  /** Drop a kilobyte at a time until the whole payload fits; it always ends, and what remains is the
      start of the text, marked truncated if anything is gone. */
  method RetainPartialOutput(id: Identity, kind: Kind, text: Text, truncated: bool) returns (kept: Text, marked: bool)
    requires BoundedIdentity(id) && !kind.ReasoningSummary?
    ensures kept <= text && PayloadSize(id, kind, kept, marked) <= TEXT_BUDGET
    ensures marked == (truncated || kept != text)
    ensures PayloadSize(id, kind, text, truncated) <= TEXT_BUDGET ==> kept == text
  {
    kept, marked := text, truncated;
    while PayloadSize(id, kind, kept, marked) > TEXT_BUDGET
      invariant kept <= text && marked == (truncated || kept != text)
      invariant PayloadSize(id, kind, text, truncated) <= TEXT_BUDGET ==> kept == text
      decreases |kept|
    {
      IdentitiesFit(id, kind, marked);
      ghost var before := kept;
      var bytes := Bytes(kept);
      var end := FloorBoundary(bytes, Less(|bytes|, 1_024), kept);
      NothingLeft(kept);
      ClippingLosesLittle(kept, Less(|bytes|, 1_024));
      kept := Clipped(kept, Less(|bytes|, 1_024));
      marked := true;
      assert bytes[..end] == Bytes(kept);
      assert kept != before;
    }
  }

  lemma NothingLeft(s: Text)
    ensures Size(s) == 0 <==> s == []
  {
  }

  /** The list of parts as JSON text. */
  function PartsSize(parts: seq<Text>): nat {
    if parts == [] then 2 else PartsSize(parts[..|parts| - 1]) + EscapedSize(parts[|parts| - 1]) + 3
  }

  lemma {:induction false} PartsAreBounded(parts: seq<Text>)
    ensures PartsSize(parts) <= 2 + 6 * SumSizes(parts) + 3 * |parts|
  {
    if parts != [] {
      var n := |parts| - 1;
      PartsAreBounded(parts[..n]);
      EscapingIsBounded(parts[n]);
      SumOfAppend(parts[..n], [parts[n]]);
      assert parts == parts[..n] + [parts[n]];
    }
  }

  /** The stored parts of a summary always pass the row check of 524,288 octets. */
  lemma SummaryRowsFit(commands: seq<Command>, key: (TurnId, ItemId))
    requires key in Play(commands).output.rows && Play(commands).output.rows[key].kind.ReasoningSummary?
    ensures PartsSize(Play(commands).output.rows[key].parts) <= 524_288
  {
    TruncationIsExact(commands);
    var row := Play(commands).output.rows[key];
    assert RowOk(row, ToldOf(Play(commands), key));
    JoinedIsSum(row.parts);
    PartsAreBounded(row.parts);
  }

  // ---------------------------------------------------------- the rows in place

  class OutputStore {
    var rows: Rows
    var handed: set<TurnId>

    constructor ()
      ensures Snapshot() == Output(map[], {})
    {
      rows, handed := map[], {};
    }

    function Snapshot(): Output
      reads this
    {
      Output(rows, handed)
    }

    method UpdateOutput(running: Option<TurnId>, turn: TurnId, item: ItemId, kind: Kind, text: Text, replace: bool)
      returns (answer: Result<bool>)
      modifies this`rows
      ensures Snapshot() == After(old(Snapshot()), Update(old(Snapshot()), running, turn, item, kind, text, replace))
      ensures answer == Answer(Update(old(Snapshot()), running, turn, item, kind, text, replace))
    {
      if kind.ReasoningSummary? { return Err(InvalidInput); }
      if running != Some(turn) { return Ok(false); }
      var mine, key := RowsOf(rows, turn), (turn, item);
      var content, lost := text, false;
      if key in mine {
        if mine[key].kind != kind { return Err(InvalidInput); }
        if mine[key].completed && !replace { return Ok(false); }
        if !replace { content, lost := mine[key].text + text, mine[key].truncated; }
      } else if |mine| >= ITEM_BUDGET {
        return Ok(false);
      }
      lost := lost || Size(content) > TEXT_BUDGET;
      var end := FloorBoundary(Bytes(content), TEXT_BUDGET, content);
      var clipped := Clipped(content, TEXT_BUDGET);
      assert Bytes(content)[..end] == Bytes(clipped);
      rows := mine[key := Live(kind, clipped, [], lost, replace)];
      return Ok(true);
    }

    /** Take in one change, growing the list of parts in place, and bound it again. */
    method UpdateSummary(running: Option<TurnId>, turn: TurnId, item: ItemId, change: Change) returns (answer: Result<bool>)
      modifies this`rows
      ensures Snapshot() == After(old(Snapshot()), Summarize(old(Snapshot()), running, turn, item, change))
      ensures answer == Answer(Summarize(old(Snapshot()), running, turn, item, change))
    {
      if running != Some(turn) { return Ok(false); }
      var key := (turn, item);
      var known := key in rows;
      if known && !rows[key].kind.ReasoningSummary? { return Err(InvalidInput); }
      if !known && (turn in handed || |RowsOf(rows, turn)| >= ITEM_BUDGET) { return Ok(false); }
      match change {
        case Completed(parts) =>
          Keep(key, parts, false, true);
        case Delta(index, text) =>
          if known && rows[key].completed { return Ok(false); }
          if index >= ITEM_BUDGET {
            rows := rows[key := Marked(rows, key)];
            return Ok(true);
          }
          var parts := Resized(if known then rows[key].parts else [], index + 1);
          parts := parts[index := parts[index] + text];
          Keep(key, parts, known && rows[key].truncated, false);
      }
      return Ok(true);
    }

    method Keep(key: (TurnId, ItemId), told: seq<Text>, lost: bool, completed: bool)
      modifies this`rows
      ensures Snapshot() == Kept(old(Snapshot()), key, Bounded(told, lost), completed)
    {
      var parts, truncated := BoundParts(told, lost);
      rows := RowsOf(rows, key.0)[key := Live(ReasoningSummary, Joined(parts), parts, truncated, completed)];
    }
  }

  /** Drop what is beyond the 32nd part, then truncate one part after another. */
  method BoundParts(told: seq<Text>, lost: bool) returns (parts: seq<Text>, truncated: bool)
    ensures Summary(parts, truncated) == Bounded(told, lost)
  {
    parts, truncated := told, lost || |told| > ITEM_BUDGET;
    if |parts| > ITEM_BUDGET { parts := parts[..ITEM_BUDGET]; }
    var spent, cut := SpendOneByOne(parts, TEXT_BUDGET - Separators(|parts|));
    return spent, truncated || cut;
  }

  /** `parts` are the first `i` parts after truncation, with `remaining` octets left. */
  ghost predicate SpentSoFar(given: seq<Text>, budget: nat, parts: seq<Text>, i: nat, remaining: int) {
    && i <= |given| && |parts| == i && remaining >= 0
    && parts + Spend(given[i..], remaining) == Spend(given, budget)
  }

  lemma SpendsOneMore(given: seq<Text>, budget: nat, parts: seq<Text>, i: nat, remaining: nat)
    requires SpentSoFar(given, budget, parts, i, remaining) && i < |given|
    ensures
      var clipped := Clipped(given[i], remaining);
      SpentSoFar(given, budget, parts + [clipped], i + 1, remaining - Size(clipped))
  {
    ClippingLosesLittle(given[i], remaining);
    var clipped := Clipped(given[i], remaining);
    assert given[i..][0] == given[i] && given[i..][1..] == given[i + 1..];
    var rest := Spend(given[i + 1..], remaining - Size(clipped));
    assert parts + ([clipped] + rest) == parts + [clipped] + rest;
  }

  /** Truncate one part after another, with one remaining budget for all of them. */
  method SpendOneByOne(given: seq<Text>, budget: nat) returns (parts: seq<Text>, lost: bool)
    ensures parts == Spend(given, budget) && lost == (parts != given)
  {
    var remaining: int := budget;
    parts, lost := [], false;
    for i := 0 to |given|
      invariant SpentSoFar(given, budget, parts, i, remaining)
      invariant lost <==> exists j :: 0 <= j < i && parts[j] != given[j]
    {
      var clipped := ClipPart(given[i], remaining);
      SpendsOneMore(given, budget, parts, i, remaining);
      lost := lost || clipped != given[i];
      remaining := remaining - Size(clipped);
      parts := parts + [clipped];
    }
    assert given[|given|..] == [];
    assert parts != given <==> exists j :: 0 <= j < |given| && parts[j] != given[j];
  }

  method ClipPart(part: Text, remaining: nat) returns (clipped: Text)
    ensures clipped == Clipped(part, remaining)
  {
    var end := FloorBoundary(Bytes(part), remaining, part);
    clipped := Clipped(part, remaining);
    assert Bytes(part)[..end] == Bytes(clipped);
  }
}
