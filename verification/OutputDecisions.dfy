/** Which changes of live output are taken, and which rows they leave. */
module OutputDecisions {
  import opened Prelude
  import opened Utf8
  import opened OutputBudget

  /** The items of a turn that have a row. */
  function Items(rows: Rows, turn: TurnId): set<(TurnId, ItemId)> {
    set key | key in rows && key.0 == turn
  }

  lemma ItemsAreCounted(rows: Rows, turn: TurnId)
    ensures RowsOf(rows, turn).Keys == Items(rows, turn) && |RowsOf(rows, turn)| == |Items(rows, turn)|
  {
    assert |RowsOf(rows, turn).Keys| == |RowsOf(rows, turn)|;
  }

  /** One row was written, and of the others those of its turn stay as they were. */
  predicate OneRowWritten(o: Output, n: Output, turn: TurnId, key: (TurnId, ItemId)) {
    && n.handed == o.handed && n.rows.Keys == Items(o.rows, turn) + {key}
    && forall k :: k in o.rows && k.0 == turn && k != key ==> n.rows[k] == o.rows[k]
  }

  /** A message or a plan changes exactly in the running turn, as what it was before, while the turn has room for
      it; a completed one is only ever replaced. What is left are the rows of that turn. */
  lemma MessagesAreTakenExactly(o: Output, running: Option<TurnId>, turn: TurnId, item: ItemId, kind: Kind, text: Text,
                                replace: bool)
    ensures
      var tx, key := Update(o, running, turn, item, kind, text, replace), (turn, item);
      var known := key in o.rows;
      var other := running == Some(turn) && known && o.rows[key].kind != kind;
      && (tx.Rollback? <==> kind == ReasoningSummary || other)
      && (tx.Commit? && tx.reply <==>
            && kind != ReasoningSummary && running == Some(turn) && !other
            && (known && o.rows[key].completed ==> replace) && (known || |Items(o.rows, turn)| < 32))
      && (tx.Commit? && !tx.reply ==> tx.state == o)
      && (tx.Commit? && tx.reply ==>
            && OneRowWritten(o, tx.state, turn, key)
            && tx.state.rows[key].kind == kind && tx.state.rows[key].parts == [] && tx.state.rows[key].completed == replace)
  {
    ItemsAreCounted(o.rows, turn);
  }

  /** A reasoning summary changes exactly in the running turn, as long as it is not completed or is completed again;
      a new one needs room, and a turn that was not handed over. A part beyond the 32nd marks it and
      touches nothing else. */
  lemma SummariesAreTakenExactly(o: Output, running: Option<TurnId>, turn: TurnId, item: ItemId, change: Change)
    ensures
      var tx, key := Summarize(o, running, turn, item, change), (turn, item);
      var known := key in o.rows;
      var other := running == Some(turn) && known && o.rows[key].kind != ReasoningSummary;
      && (tx.Rollback? <==> other)
      && (tx.Commit? && tx.reply <==>
            && running == Some(turn) && !other
            && (known || (turn !in o.handed && |Items(o.rows, turn)| < 32))
            && (known && o.rows[key].completed ==> change.Completed?))
      && (tx.Commit? && !tx.reply ==> tx.state == o)
      && (tx.Commit? && tx.reply ==>
            && key in tx.state.rows && tx.state.rows[key].kind == ReasoningSummary
            && tx.state.rows[key].completed == change.Completed?
            && if change.Delta? && change.index >= 32 then
                 && tx.state == o.(rows := o.rows[key := tx.state.rows[key]])
                 && tx.state.rows[key] ==
                      if known then o.rows[key].(truncated := true) else Live(ReasoningSummary, [], [], true, false)
               else OneRowWritten(o, tx.state, turn, key))
  {
    ItemsAreCounted(o.rows, turn);
  }

  /** The turn that is running is handed over, for good: no run of changes takes another new summary of it. */
  lemma {:induction false} HandedTurnsTakeNoSummary(o: Output, running: Option<TurnId>, turn: TurnId, later: seq<Command>,
                                                    item: ItemId, change: Change)
    ensures turn in HandOver(o, running, turn).handed <==> turn in o.handed || running == Some(turn)
    ensures turn in HandOver(o, running, turn).handed ==>
      var n := Taken(HandOver(o, running, turn), later);
      && turn in n.handed
      && ((turn, item) !in n.rows ==> After(n, Summarize(n, running, turn, item, change)) == n)
  {
    if later != [] {
      HandedTurnsTakeNoSummary(o, running, turn, later[..|later| - 1], item, change);
    }
  }
}
