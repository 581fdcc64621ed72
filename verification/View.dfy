// A log as clients live it: each whole document in it as their editor shows it.
module View {
  import opened Wrappers
  import opened DocumentStore

  function ViewedOp(op: Operation, show: Editor): Operation {
    op.(replace := ViewedContent(op.replace, show))
  }

  function ViewedContent(content: Option<Content>, show: Editor): Option<Content> {
    if content.Some? then Some(show(content.value)) else None
  }

  function ViewedLog(log: seq<Change>, show: Editor): (viewed: seq<Change>)
    ensures |viewed| == |log|
  {
    seq(|log|, i requires 0 <= i < |log| => log[i].(operation := ViewedOp(log[i].operation, show)))
  }

  function ViewedRow(row: Row, show: Editor): Row {
    row.(content := show(row.content), log := ViewedLog(row.log, show))
  }

  lemma ViewedSteps(steps: seq<Step>, show: Editor)
    ensures ViewedOp(StepsOperation(steps), show) == StepsOperation(steps)
  {
  }

  // Viewing and writing go together.
  lemma ViewedChanged(row: Row, op: Operation, content: Option<Content>, title: Option<string>, show: Editor)
    ensures ViewedRow(Changed(row, op, content, title), show)
            == Changed(ViewedRow(row, show), ViewedOp(op, show), ViewedContent(content, show), title)
  {
    var change := Change(row.version, row.version + 1, op);
    assert ViewedLog(row.log + [change], show)
           == ViewedLog(row.log, show) + [change.(operation := ViewedOp(op, show))];
  }

  lemma ViewedCreated(title: string, content: Option<Content>, show: Editor)
    ensures LogOk(ViewedRow(Created(title, content), show))
  {
    var stored := if content.Some? then content.value else [];
    CreatedOk(title, Some(show(stored)));
    assert ViewedRow(Created(title, content), show) == Created(title, Some(show(stored)));
  }

  // A write that replays for the server replays for clients, if the documents
  // its steps lead from and to are shown as they are.
  predicate InView(row: Row, op: Operation, content: Option<Content>, show: Editor) {
    op.replace.None? && op.steps.Some? ==>
      ShownAsIs(row.content, show) && (content.Some? ==> ShownAsIs(content.value, show))
  }

  lemma ViewedHonest(row: Row, op: Operation, content: Option<Content>, title: Option<string>, show: Editor)
    requires Honest(row, op, content, title) && InView(row, op, content, show)
    ensures Honest(ViewedRow(row, show), ViewedOp(op, show), ViewedContent(content, show), title)
  {
    hide ApplyAll;
  }

  // Every whole document in the row and its log is shown as it is.
  predicate Plain(row: Row, show: Editor) {
    && ShownAsIs(row.content, show)
    && forall i :: 0 <= i < |row.log| ==>
         (row.log[i].operation.replace.Some? ==> ShownAsIs(row.log[i].operation.replace.value, show))
  }

  lemma PlainIsViewed(row: Row, show: Editor)
    requires Plain(row, show)
    ensures ViewedRow(row, show) == row
  {
    assert ViewedLog(row.log, show) == row.log;
  }
}
