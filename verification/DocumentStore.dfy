// The versioned document and its append-only log. One document's writers are
// serialised by a row lock, so each write is one atomic step here.
module DocumentStore {
  import opened Wrappers
  import opened Tree
  import opened Inline
  import Edits
  import EditLaws
  import EditTheorems

  // A document's content, by its tokens: a normal tree is determined by them.
  type Content = seq<Token>

  // What the editor makes of a content it is given: its schema wants what the
  // server does without.
  type Editor = Content -> Content

  const PARAGRAPH: Content := [Open(Paragraph, map[], []), Close]

  // A new document is stored with no blocks and shown with an empty paragraph.
  function WithParagraph(content: Content): Content {
    if content == [] then PARAGRAPH else content
  }

  predicate ShownAsIs(content: Content, show: Editor) {
    show(content) == content
  }

  // A step is the partial function it denotes; the server makes replace steps only.
  datatype Step =
    | Replace(from: int, to: int, slice: seq<Token>)
    | Other(apply: Content -> Option<Content>)

  function ApplyStep(content: Content, step: Step): Option<Content> {
    match step
    case Replace(from, to, slice) =>
      if 0 <= from <= to <= |content| then Some(content[..from] + slice + content[to..]) else None
    case Other(apply) => apply(content)
  }

  function ApplyAll(content: Content, steps: seq<Step>): Option<Content>
    decreases |steps|
  {
    if steps == [] then Some(content)
    else if ApplyStep(content, steps[0]).None? then None
    else ApplyAll(ApplyStep(content, steps[0]).value, steps[1..])
  }

  lemma {:induction false} ApplyAllConcat(content: Content, a: seq<Step>, b: seq<Step>)
    ensures ApplyAll(content, a + b)
            == if ApplyAll(content, a).None? then None else ApplyAll(ApplyAll(content, a).value, b)
    decreases |a|
  {
    hide ApplyStep;
    if a == [] {
      assert a + b == b;
    } else if ApplyStep(content, a[0]).Some? {
      ApplyAllConcat(ApplyStep(content, a[0]).value, a[1..], b);
      assert (a + b)[1..] == a[1..] + b;
    }
  }

  // What one entry of the log does: any of its parts may be missing.
  datatype Operation = Operation(steps: Option<seq<Step>>, title: Option<string>, replace: Option<Content>)

  datatype Change = Change(base: nat, version: nat, operation: Operation)

  datatype State = State(title: string, content: Content)

  datatype Row = Row(version: nat, title: string, content: Content, log: seq<Change>)

  datatype Outcome =
    | Applied(version: nat)
    | Stale(current: Row)
    | NotFound

  function Perform(state: State, op: Operation): Option<State> {
    var title := if op.title.Some? then op.title.value else state.title;
    if op.replace.Some? then Some(State(title, op.replace.value))
    else if op.steps.None? then Some(State(title, state.content))
    else
      var content := ApplyAll(state.content, op.steps.value);
      if content.None? then None else Some(State(title, content.value))
  }

  // The log replays from nothing.
  function Replay(log: seq<Change>): Option<State> {
    if log == [] then Some(State("", []))
    else
      var before := Replay(log[..|log| - 1]);
      if before.None? then None else Perform(before.value, log[|log| - 1].operation)
  }

  function PatchOperation(title: Option<string>, content: Option<Content>): Operation {
    Operation(None, title, content)
  }

  function Created(title: string, content: Option<Content>): Row {
    var stored := if content.Some? then content.value else [];
    Row(1, title, stored, [Change(0, 1, PatchOperation(Some(title), Some(stored)))])
  }

  function Changed(row: Row, op: Operation, content: Option<Content>, title: Option<string>): Row {
    Row(row.version + 1,
        if title.Some? then title.value else row.title,
        if content.Some? then content.value else row.content,
        row.log + [Change(row.version, row.version + 1, op)])
  }

  // The one write path, as a function of the locked row.
  function AfterChange(row: Option<Row>, base: nat, op: Operation, content: Option<Content>, title: Option<string>)
      : (Option<Row>, Outcome)
  {
    match row
    case None => (None, NotFound)
    case Some(r) =>
      if r.version != base then (row, Stale(r))
      else (Some(Changed(r, op, content, title)), Applied(r.version + 1))
  }

  class Document {
    var version: nat
    var title: string
    var content: Content
    var log: seq<Change>
    var deleted: bool

    ghost function Current(): Option<Row>
      reads this
    {
      if deleted then None else Some(Row(version, title, content, log))
    }

    constructor (title: string, content: Option<Content>)
      ensures Current() == Some(Created(title, content))
    {
      this.title := title;
      var stored := if content.Some? then content.value else [];
      this.content := stored;
      version := 1;
      log := [Change(0, 1, PatchOperation(Some(title), Some(stored)))];
      deleted := false;
    }

    method ApplyChange(base: nat, operation: Operation, content: Option<Content>, title: Option<string>)
        returns (outcome: Outcome)
      modifies this
      ensures (Current(), outcome) == AfterChange(old(Current()), base, operation, content, title)
      ensures old(deleted) ==> outcome == NotFound
      ensures !old(deleted) && old(version) != base ==>
                && outcome.Stale? && outcome.current.version == old(version) && outcome.current.title == old(this.title)
                && outcome.current.content == old(this.content) && outcome.current.log == old(log)
      ensures old(deleted) || old(version) != base ==> Current() == old(Current())
      ensures !old(deleted) && old(version) == base ==>
                && outcome == Applied(base + 1) && !deleted && version == base + 1
                && this.content == (if content.Some? then content.value else old(this.content))
                && this.title == (if title.Some? then title.value else old(this.title))
                && |log| == |old(log)| + 1 && log[..|old(log)|] == old(log)
                && log[|old(log)|].base == base && log[|old(log)|].version == base + 1
                && log[|old(log)|].operation == operation
    {
      if deleted {
        return NotFound;
      }
      if version != base {
        return Stale(Row(version, this.title, this.content, log));
      }
      var next := version + 1;
      log := log + [Change(base, next, operation)];
      if content.Some? {
        this.content := content.value;
      }
      if title.Some? {
        this.title := title.value;
      }
      version := next;
      return Applied(next);
    }

    // None leaves a field alone; both None is refused before anything is read.
    method Update(expected: nat, title: Option<string>, content: Option<Content>) returns (outcome: Option<Outcome>)
      modifies this
      ensures title.None? && content.None? ==> outcome.None? && Current() == old(Current())
      ensures title.Some? || content.Some? ==>
                outcome.Some? && (Current(), outcome.value)
                == AfterChange(old(Current()), expected, PatchOperation(title, content), content, title)
      ensures outcome.Some? && outcome.value.Applied? ==>
                && |log| == |old(log)| + 1
                && log[|old(log)|].operation.title == title && log[|old(log)|].operation.replace == content
                && log[|old(log)|].operation.steps.None?
    {
      if title.None? && content.None? {
        return None;
      }
      var done := ApplyChange(expected, PatchOperation(title, content), content, title);
      return Some(done);
    }

    method Delete()
      modifies this
      ensures Current() == None
    {
      deleted := true;
    }
  }

  // ----- what every write keeps -----

  // Versions 1 to the head, each based on the one before, and the head is
  // what the log replays to.
  predicate LogOk(row: Row) {
    && |row.log| == row.version >= 1
    && (forall i :: 0 <= i < |row.log| ==> row.log[i].base == i && row.log[i].version == i + 1)
    && Replay(row.log) == Some(State(row.title, row.content))
  }

  // The state the document had at a version.
  function At(log: seq<Change>, version: nat): Option<State>
    requires version <= |log|
  {
    Replay(log[..version])
  }

  lemma CreatedOk(title: string, content: Option<Content>)
    ensures LogOk(Created(title, content))
  {
    var log := Created(title, content).log;
    assert log[..0] == [];
  }

  // An honest write: the new fields are what the operation makes of the old.
  predicate Honest(row: Row, op: Operation, content: Option<Content>, title: Option<string>) {
    Perform(State(row.title, row.content), op)
    == Some(State(if title.Some? then title.value else row.title,
                  if content.Some? then content.value else row.content))
  }

  lemma ChangeKeepsLog(row: Row, op: Operation, content: Option<Content>, title: Option<string>)
    requires LogOk(row) && Honest(row, op, content, title)
    ensures LogOk(Changed(row, op, content, title))
    ensures forall v :: 0 <= v <= |row.log| ==> At(Changed(row, op, content, title).log, v) == At(row.log, v)
  {
    hide Perform;
    var next := Changed(row, op, content, title);
    assert next.log[..|next.log| - 1] == row.log;
    forall v | 0 <= v <= |row.log|
      ensures At(next.log, v) == At(row.log, v)
    {
      assert next.log[..v] == row.log[..v];
    }
  }

  // Nothing but an honest write keeps the log: it would replay to something else.
  lemma OnlyHonestKeepsLog(row: Row, op: Operation, content: Option<Content>, title: Option<string>)
    requires LogOk(row)
    ensures LogOk(Changed(row, op, content, title)) <==> Honest(row, op, content, title)
  {
    if Honest(row, op, content, title) {
      ChangeKeepsLog(row, op, content, title);
    } else {
      var next := Changed(row, op, content, title);
      assert next.log[..|next.log| - 1] == row.log;
    }
  }

  lemma PatchIsHonest(row: Row, title: Option<string>, content: Option<Content>)
    ensures Honest(row, PatchOperation(title, content), content, title)
  {
  }

  // ----- all interleavings of writers -----

  // What an AI answer asks for: a rewrite of a range, or new paragraphs.
  datatype Apply =
    | Rewrite(start: int, end: int, text: string)
    | Insert(pos: Option<int>, text: string)

  // None when the selected text is no longer there.
  function EditFor(tree: seq<Node>, apply: Apply): Option<Edits.Edit> {
    match apply
    case Rewrite(start, end, text) =>
      if start < end then Edits.ReplaceSelection(tree, start, end, text) else None
    case Insert(pos, text) => Some(Edits.InsertAfter(tree, pos, text))
  }

  // Where an answer goes. A rewrite takes the range itself inside a textblock,
  // and else the blocks it touches; an insertion the first edge at or after its
  // position, or the document's end.
  lemma AnswerPlace(tree: seq<Node>, apply: Apply)
    requires EditTheorems.NonEmptyBlocks(tree)
    ensures apply.Rewrite? && apply.start >= apply.end ==> EditFor(tree, apply).None?
    ensures apply.Rewrite? && 0 <= apply.start < apply.end <= ContentSize(tree) ==> Rewrites(tree, apply)
    ensures apply.Insert? && (apply.pos.Some? ==> 0 <= apply.pos.value <= ContentSize(tree)) ==> Inserts(tree, apply)
  {
    hide Edits.ReplaceSelection, Edits.InsertAfter, ContentSize, Rewrites, Inserts, EditTheorems.NonEmptyBlocks;
    match apply
    case Rewrite(start, end, text) =>
      if 0 <= start < end <= ContentSize(tree) {
        RewritesThere(tree, start, end, text);
      }
    case Insert(pos, text) =>
      if pos.Some? ==> 0 <= pos.value <= ContentSize(tree) {
        InsertsThere(tree, pos, text);
      }
  }

  ghost predicate Rewrites(tree: seq<Node>, apply: Apply)
    requires apply.Rewrite?
  {
    && EditFor(tree, apply).Some?
    && var step := EditFor(tree, apply).value.step;
       if Edits.InOneTextblock(tree, apply.start, apply.end) then step.from == apply.start && step.to == apply.end
       else
         && step.slice == Edits.Paragraphs(apply.text)
         && EditTheorems.Nearest(tree, apply.start, apply.end, step.from, step.to)
  }

  ghost predicate Inserts(tree: seq<Node>, apply: Apply)
    requires apply.Insert?
  {
    && EditFor(tree, apply).Some?
    && var step := EditFor(tree, apply).value.step;
       && step.from == step.to && step.slice == Edits.Paragraphs(apply.text)
       && EditTheorems.Edge(tree, step.from)
       && if apply.pos.Some? && apply.pos.value > 0
          then apply.pos.value <= step.from
               && forall e :: EditTheorems.Edge(tree, e) && apply.pos.value <= e ==> step.from <= e
          else step.from == ContentSize(tree)
  }

  lemma RewritesThere(tree: seq<Node>, start: nat, end: nat, text: string)
    requires EditTheorems.NonEmptyBlocks(tree) && start < end <= ContentSize(tree)
    ensures Rewrites(tree, Rewrite(start, end, text))
  {
    hide Edits.ReplaceSelection, Edits.SnapSelection, Edits.InOneTextblock, Edits.Paragraphs, EditTheorems.Nearest,
      ContentSize, EditTheorems.NonEmptyBlocks;
    EditTheorems.SnappedStep(tree, start, end, text);
    if !Edits.InOneTextblock(tree, start, end) {
      EditTheorems.SnapIsNearest(tree, start, end);
    }
  }

  lemma InsertsThere(tree: seq<Node>, pos: Option<int>, text: string)
    requires EditTheorems.NonEmptyBlocks(tree) && (pos.Some? ==> 0 <= pos.value <= ContentSize(tree))
    ensures Inserts(tree, Insert(pos, text))
  {
    hide Edits.Spans, EditTheorems.Edge, Edits.Paragraphs, ContentSize, EditTheorems.NonEmptyBlocks;
    EditTheorems.InsertPlace(tree, if pos.Some? then Some(pos.value) else None, text);
  }

  datatype Prepared = Prepared(version: nat, read: Content, step: Step, content: Content)

  datatype Event =
    | SocketEdit(base: nat, steps: seq<Step>, doc: Content)
    | Patch(expected: nat, title: Option<string>, content: Option<Content>)
    | ReadForApply(query: nat, version: nat, tree: seq<Node>, apply: Apply)
    | CommitApply(query: nat)
    | Deletion

  // Edits computed from an unlocked read wait between that read and their write.
  datatype System = System(row: Option<Row>, prepared: map<nat, Prepared>)

  function StepsOperation(steps: seq<Step>): Operation {
    Operation(Some(steps), None, None)
  }

  function AsStep(step: Edits.Step): Step {
    Replace(step.from, step.to, Tokens(step.slice))
  }

  function Next(s: System, e: Event): (System, Option<Outcome>) {
    match e
    case SocketEdit(base, steps, doc) =>
      var (row, outcome) := AfterChange(s.row, base, StepsOperation(steps), Some(doc), None);
      (s.(row := row), Some(outcome))
    case Patch(expected, title, content) =>
      if title.None? && content.None? then (s, None) else
        var (row, outcome) := AfterChange(s.row, expected, PatchOperation(title, content), content, title);
        (s.(row := row), Some(outcome))
    case ReadForApply(query, version, tree, apply) =>
      if s.row.None? then (s, Some(NotFound))
      else if s.row.value.version != version then (s, Some(Stale(s.row.value)))
      else if Tokens(tree) != s.row.value.content || EditFor(tree, apply).None? then (s, None)
      else
        var edit := EditFor(tree, apply).value;
        (s.(prepared := s.prepared[query := Prepared(version, s.row.value.content, AsStep(edit.step),
                                                     Tokens(edit.content))]), None)
    case CommitApply(query) =>
      if query !in s.prepared then (s, None) else
        var p := s.prepared[query];
        var (row, outcome) := AfterChange(s.row, p.version, StepsOperation([p.step]), Some(p.content), None);
        (s.(row := row), Some(outcome))
    case Deletion => (s.(row := None), None)
  }

  // A stale write changes nothing and is answered with the head.
  lemma StaleCarriesHead(s: System, e: Event)
    requires Next(s, e).1.Some? && Next(s, e).1.value.Stale?
    ensures s.row == Some(Next(s, e).1.value.current) && Next(s, e).0 == s
    ensures e.SocketEdit? ==> e.base != s.row.value.version
    ensures e.Patch? ==> e.expected != s.row.value.version
    ensures e.ReadForApply? ==> e.version != s.row.value.version
    ensures e.CommitApply? ==> s.prepared[e.query].version != s.row.value.version
  {
    hide EditFor, Tokens;
  }

  // What writers do: clients send the document that their steps make of what
  // they are shown, and selections do not cut a surrogate pair in two.
  predicate HonestEvent(s: System, e: Event, show: Editor) {
    match e
    case SocketEdit(base, steps, doc) => Accepts(s, base) ==> ApplyAll(show(s.row.value.content), steps) == Some(doc)
    case ReadForApply(_, _, tree, Rewrite(start, end, _)) =>
      Shaped(tree) && !SplitsPair(Tokens(tree), start) && !SplitsPair(Tokens(tree), end)
    case _ => true
  }

  predicate Accepts(s: System, base: nat) {
    s.row.Some? && s.row.value.version == base
  }

  // No client's edit is taken to a document that its editor shows as another.
  predicate SeenAsIs(s: System, e: Event, show: Editor) {
    e.SocketEdit? && Accepts(s, e.base) ==> ShownAsIs(s.row.value.content, show)
  }

  predicate Shaped(tree: seq<Node>) {
    EditLaws.Shaped(tree)
  }

  function RunAll(s: System, events: seq<Event>): System
    decreases |events|
  {
    if events == [] then s else RunAll(Next(s, events[0]).0, events[1..])
  }

  predicate HonestRun(s: System, events: seq<Event>, show: Editor)
    decreases |events|
  {
    events == [] || (HonestEvent(s, events[0], show) && HonestRun(Next(s, events[0]).0, events[1..], show))
  }

  predicate RunSeenAsIs(s: System, events: seq<Event>, show: Editor)
    decreases |events|
  {
    events == [] || (SeenAsIs(s, events[0], show) && RunSeenAsIs(Next(s, events[0]).0, events[1..], show))
  }

  // A prepared edit was made from the document as it was at its version, and
  // its step says what it did.
  predicate PreparedOk(row: Row, p: Prepared) {
    && 1 <= p.version <= |row.log|
    && At(row.log, p.version).Some? && At(row.log, p.version).value.content == p.read
    && ApplyAll(p.read, [p.step]) == Some(p.content)
  }

  ghost predicate SystemOk(s: System) {
    s.row.Some? ==>
      && LogOk(s.row.value)
      && forall q :: q in s.prepared ==> PreparedOk(s.row.value, s.prepared[q])
  }

  lemma AtHead(row: Row)
    requires LogOk(row)
    ensures At(row.log, row.version) == Some(State(row.title, row.content))
  {
    assert row.log[..row.version] == row.log;
  }

  lemma OneStep(content: Content, step: Step)
    ensures ApplyAll(content, [step]) == ApplyStep(content, step)
  {
    assert [step][1..] == [];
  }

  // The server's own edits are honest: their step makes the content they store.
  lemma AiEditIsHonest(tree: seq<Node>, apply: Apply)
    requires EditFor(tree, apply).Some?
    requires apply.Rewrite? ==>
               Shaped(tree) && !SplitsPair(Tokens(tree), apply.start) && !SplitsPair(Tokens(tree), apply.end)
    ensures var edit := EditFor(tree, apply).value;
            ApplyAll(Tokens(tree), [AsStep(edit.step)]) == Some(Tokens(edit.content))
  {
    hide Edits.ReplaceSelection, Edits.InsertAfter, Tokens;
    var edit := EditFor(tree, apply).value;
    OneStep(Tokens(tree), AsStep(edit.step));
    match apply
    case Rewrite(start, end, text) => EditTheorems.EditAgrees(tree, start, end, text);
    case Insert(pos, text) => EditTheorems.InsertAgrees(tree, pos, text);
  }

  lemma WriteKeeps(s: System, base: nat, op: Operation, content: Option<Content>, title: Option<string>)
    requires SystemOk(s)
    requires s.row.Some? && s.row.value.version == base ==> Honest(s.row.value, op, content, title)
    ensures SystemOk(s.(row := AfterChange(s.row, base, op, content, title).0))
  {
    if s.row.Some? && s.row.value.version == base {
      var row := s.row.value;
      ChangeKeepsLog(row, op, content, title);
      var next := Changed(row, op, content, title);
      hide LogOk, Honest;
      forall q | q in s.prepared
        ensures PreparedOk(next, s.prepared[q])
      {
        assert PreparedOk(row, s.prepared[q]);
        assert At(next.log, s.prepared[q].version) == At(row.log, s.prepared[q].version);
      }
    }
  }

  lemma StepsHonest(row: Row, steps: seq<Step>, doc: Content)
    requires ApplyAll(row.content, steps) == Some(doc)
    ensures Honest(row, StepsOperation(steps), Some(doc), None)
  {
  }

  // An AI edit is accepted only if the document it was computed from, without
  // a lock, is still the head.
  lemma AcceptedReadIsHead(s: System, query: nat)
    requires SystemOk(s) && query in s.prepared
    requires var outcome := Next(s, CommitApply(query)).1;
             outcome.Some? && outcome.value.Applied?
    ensures s.row.Some? && s.row.value.content == s.prepared[query].read
    ensures s.row.value.version == s.prepared[query].version
  {
    var p := s.prepared[query];
    assert PreparedOk(s.row.value, p);
    AtHead(s.row.value);
  }

  lemma NextKeeps(s: System, e: Event, show: Editor)
    requires SystemOk(s) && HonestEvent(s, e, show) && SeenAsIs(s, e, show)
    ensures SystemOk(Next(s, e).0)
  {
    hide LogOk, Honest, EditFor, Tokens, AfterChange;
    match e
    case SocketEdit(base, steps, doc) =>
      if s.row.Some? && s.row.value.version == base {
        StepsHonest(s.row.value, steps, doc);
      }
      WriteKeeps(s, base, StepsOperation(steps), Some(doc), None);
    case Patch(expected, title, content) =>
      if s.row.Some? {
        PatchIsHonest(s.row.value, title, content);
      }
      WriteKeeps(s, expected, PatchOperation(title, content), content, title);
    case ReadForApply(query, version, tree, apply) =>
      if s.row.Some? && EditFor(tree, apply).Some? {
        AiEditIsHonest(tree, apply);
        AtHead(s.row.value);
        HeadBounds(s.row.value);
      }
    case CommitApply(query) => CommitKeeps(s, query);
    case Deletion =>
  }

  lemma HeadBounds(row: Row)
    requires LogOk(row)
    ensures 1 <= row.version <= |row.log|
  {
  }

  lemma CommitKeeps(s: System, query: nat)
    requires SystemOk(s)
    ensures SystemOk(Next(s, CommitApply(query)).0)
  {
    if query in s.prepared {
      var p := s.prepared[query];
      if s.row.Some? && s.row.value.version == p.version {
        AcceptedReadIsHead(s, query);
        StepsHonest(s.row.value, [p.step], p.content);
      }
      WriteKeeps(s, p.version, StepsOperation([p.step]), Some(p.content), None);
    }
  }

  // Over every interleaving, the log holds versions 1 to the head and replays
  // to the head.
  lemma {:induction false} RunAllKeeps(s: System, events: seq<Event>, show: Editor)
    requires SystemOk(s) && HonestRun(s, events, show) && RunSeenAsIs(s, events, show)
    ensures SystemOk(RunAll(s, events))
    decreases |events|
  {
    hide SystemOk, HonestEvent, SeenAsIs, Next;
    if events != [] {
      NextKeeps(s, events[0], show);
      RunAllKeeps(Next(s, events[0]).0, events[1..], show);
    }
  }

  lemma EveryRun(title: string, content: Option<Content>, events: seq<Event>, show: Editor)
    requires HonestRun(System(Some(Created(title, content)), map[]), events, show)
    requires RunSeenAsIs(System(Some(Created(title, content)), map[]), events, show)
    ensures SystemOk(RunAll(System(Some(Created(title, content)), map[]), events))
  {
    CreatedOk(title, content);
    RunAllKeeps(System(Some(Created(title, content)), map[]), events, show);
  }

  // ----- edits to a document shown as another -----

  predicate OnlyReplaces(steps: seq<Step>) {
    forall i :: 0 <= i < |steps| ==> steps[i].Replace?
  }

  // Typing, pasting and deleting lengthen every content by as much.
  lemma {:induction false} SameGrowth(a: Content, b: Content, steps: seq<Step>)
    requires OnlyReplaces(steps) && ApplyAll(a, steps).Some? && ApplyAll(b, steps).Some?
    ensures |ApplyAll(a, steps).value| - |a| == |ApplyAll(b, steps).value| - |b|
    decreases |steps|
  {
    if steps != [] {
      SameGrowth(ApplyStep(a, steps[0]).value, ApplyStep(b, steps[0]).value, steps[1..]);
    }
  }

  // An edit taken to a document keeps its log exactly when the steps make of it
  // what they made of what was shown. Where that has another length, no typing,
  // pasting or deleting ever does.
  lemma SeenEditKeepsLogExactly(row: Row, steps: seq<Step>, doc: Content, show: Editor)
    requires LogOk(row) && ApplyAll(show(row.content), steps) == Some(doc)
    ensures LogOk(Changed(row, StepsOperation(steps), Some(doc), None))
            <==> ApplyAll(row.content, steps) == ApplyAll(show(row.content), steps)
    ensures OnlyReplaces(steps) && |show(row.content)| != |row.content| ==>
              !LogOk(Changed(row, StepsOperation(steps), Some(doc), None))
  {
    OnlyHonestKeepsLog(row, StepsOperation(steps), Some(doc), None);
    if OnlyReplaces(steps) && ApplyAll(row.content, steps).Some? {
      SameGrowth(row.content, show(row.content), steps);
    }
    hide LogOk, ApplyAll;
  }

  // ----- one writer per base version -----

  // How many of the events were accepted with `base`.
  function Accepted(s: System, events: seq<Event>, base: nat): nat
    decreases |events|
  {
    if events == [] then 0 else
      var (next, outcome) := Next(s, events[0]);
      (if outcome == Some(Applied(base + 1)) then 1 else 0) + Accepted(next, events[1..], base)
  }

  // A base version is consumed by at most one writer, and a consumed one never again.
  lemma {:induction false} OneWriterPerBase(s: System, events: seq<Event>, base: nat)
    ensures Accepted(s, events, base) <= 1
    ensures s.row.Some? && s.row.value.version > base ==> Accepted(s, events, base) == 0
    ensures s.row.None? ==> Accepted(s, events, base) == 0
    decreases |events|
  {
    if events != [] {
      var next := Next(s, events[0]).0;
      OneWriterPerBase(next, events[1..], base);
      hide EditFor, Tokens;
    }
  }
}
