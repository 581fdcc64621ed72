// Where what is assumed of a step fails, and where a settled client shows other
// content than the server: exactly when, and a run for each.
module Divergence {
  import opened Wrappers
  import opened Tree
  import opened DocumentStore
  import opened Socket
  import opened View
  import opened Convergence
  import Edits

  // ----- one client's steps in a world -----

  lemma Then(w: World, a: Action, rest: seq<Action>)
    ensures Run(w, [a] + rest) == Run(Act(w, a), rest)
  {
    assert ([a] + rest)[1..] == rest;
  }

  lemma One(w: World, a: Action)
    ensures Run(w, [a]) == Act(w, a)
  {
    hide Act;
    assert [a] == [a] + [];
    Then(w, a, []);
  }

  lemma Two(w: World, a: Action, b: Action)
    ensures Run(w, [a, b]) == Act(Act(w, a), b)
  {
    hide Act;
    assert [a, b] == [a] + [b];
    Then(w, a, [b]);
    One(Act(w, a), b);
  }

  lemma Three(w: World, a: Action, b: Action, c: Action)
    ensures Run(w, [a, b, c]) == Act(Act(Act(w, a), b), c)
  {
    hide Act;
    assert [a, b, c] == [a] + [b, c];
    Then(w, a, [b, c]);
    Two(Act(w, a), b, c);
  }

  lemma DeliveredTo(w: World, i: nat)
    requires i < |w.peers| && w.peers[i].inbox != []
    ensures var after := Act(w, Deliver(i));
            && after.row == w.row && |after.peers| == |w.peers| && after.show == w.show
            && after.peers[i] == Delivered(w.peers[i], w.show)
  {
    hide Delivered;
  }

  lemma Sent(w: World, i: nat)
    requires i < |w.peers|
    requires var c := w.peers[i].client; c.open && !c.awaiting && c.pending.Some? && w.peers[i].outbox == []
    ensures var p := w.peers[i];
            var r := Request(p.client.version, p.client.pending.value.steps, p.client.pending.value.doc);
            Act(w, FlushTimer(i))
            == With(w, i, p.(client := p.client.(pending := None, awaiting := true), outbox := [r], sent := r))
  {
    var p := w.peers[i];
    var r := Request(p.client.version, p.client.pending.value.steps, p.client.pending.value.doc);
    assert p.outbox + [r] == [r];
  }

  // The server reads an edit: it takes it at the head's version, and only there.
  lemma Answered(w: World, i: nat, r: Request)
    requires i < |w.peers| && w.peers[i].joined && w.peers[i].outbox == [r]
    ensures var p, row, after := w.peers[i].(outbox := []), w.row, Act(w, ServeEdit(i));
            && |after.peers| == |w.peers| && after.show == w.show
            && (r.base == row.version ==>
                  && after.row == Changed(row, StepsOperation(r.steps), Some(r.doc), None)
                  && after.peers[i] == p.(inbox := p.inbox + [Ack(row.version + 1)]))
            && (r.base != row.version ==>
                  && after.row == row
                  && after.peers[i] == p.(inbox := p.inbox + [Rejected(row.version, row.content)]))
  {
    assert w.peers[i].outbox[1..] == [];
  }

  // ----- what is typed arrives -----

  // Words that waited behind an accepted edit go out with its ack, and are
  // accepted, read at the head: the client is settled, and what it showed is
  // the head's content.
  lemma AckedWordsArrive(w: World, i: nat)
    requires WorldOk(w) && i < |w.peers|
    requires var p := w.peers[i]; p.client.pending.Some? && !Overtaken(p) && |p.inbox| == 1 && p.inbox[0].Ack?
    ensures var served := Run(w, [Deliver(i), ServeEdit(i)]);
            && |served.peers| == |w.peers|
            && var after := Act(served, Deliver(i));
            && |after.peers| == |w.peers| && after.row.version == w.row.version + 1
            && after.row.content == w.peers[i].client.doc
            && var c := after.peers[i].client;
            && c.live && Settled(c) && c.version == after.row.version && c.doc == w.peers[i].client.doc
  {
    AckedFacts(w, i);
    hide WorldOk, Act, Delivered;
    Two(w, Deliver(i), ServeEdit(i));
    DeliveredTo(w, i);
    var w1 := Act(w, Deliver(i));
    var r := Request(w.row.version, w.peers[i].client.pending.value.steps, w.peers[i].client.doc);
    Answered(w1, i, r);
    var w2 := Act(w1, ServeEdit(i));
    assert [] + [Ack(w.row.version + 1)] == [Ack(w.row.version + 1)];
    DeliveredTo(w2, i);
    AckSettles(w2.peers[i], w.show);
  }

  lemma AckedFacts(w: World, i: nat)
    requires WorldOk(w) && i < |w.peers|
    requires var p := w.peers[i]; p.client.pending.Some? && !Overtaken(p) && |p.inbox| == 1 && p.inbox[0].Ack?
    ensures var p, q := w.peers[i], Delivered(w.peers[i], w.show);
            && p.inbox[0].version == w.row.version && p.joined && q.joined && q.inbox == []
            && q.outbox == [Request(w.row.version, p.client.pending.value.steps, p.client.doc)]
            && q.client == p.client.(version := w.row.version, pending := None, awaiting := true)
            && q.client.open && q.client.live
  {
    hide ViewedLog;
    var p, log := w.peers[i], Viewed(w).log;
    assert PeerOk(p, log, w.show);
    LiveFacts(p, log, w.show);
    assert p.outbox == [] && p.inbox[1..] == [];
    assert p.client.version + 1 == |log|;
    hide Replay, RequestOk, ApplyAll;
  }

  lemma AckSettles(p: Peer, show: Editor)
    requires |p.inbox| == 1 && p.inbox[0].Ack? && p.client.pending.None?
    ensures var c := Delivered(p, show).client;
            Settled(c) && c.version == p.inbox[0].version && c.doc == p.client.doc && c.live == p.client.live
  {
  }

  // Words waiting with nothing in flight go out when the timer fires, and
  // arrive just so.
  lemma WaitingWordsArrive(w: World, i: nat)
    requires WorldOk(w) && i < |w.peers|
    requires var p := w.peers[i]; p.client.live && p.client.pending.Some? && !p.client.awaiting && p.inbox == []
    ensures var served := Run(w, [FlushTimer(i), ServeEdit(i)]);
            && |served.peers| == |w.peers|
            && var after := Act(served, Deliver(i));
            && |after.peers| == |w.peers| && after.row.version == w.row.version + 1
            && after.row.content == w.peers[i].client.doc
            && var c := after.peers[i].client;
            && c.live && Settled(c) && c.version == after.row.version && c.doc == w.peers[i].client.doc
  {
    WaitingFacts(w, i);
    hide WorldOk, Delivered;
    Two(w, FlushTimer(i), ServeEdit(i));
    Sent(w, i);
    hide Act;
    var w1 := Act(w, FlushTimer(i));
    var r := Request(w.row.version, w.peers[i].client.pending.value.steps, w.peers[i].client.doc);
    Answered(w1, i, r);
    var w2 := Act(w1, ServeEdit(i));
    assert [] + [Ack(w.row.version + 1)] == [Ack(w.row.version + 1)];
    DeliveredTo(w2, i);
    AckSettles(w2.peers[i], w.show);
  }

  lemma WaitingFacts(w: World, i: nat)
    requires WorldOk(w) && i < |w.peers|
    requires var p := w.peers[i]; p.client.live && p.client.pending.Some? && !p.client.awaiting && p.inbox == []
    ensures var p := w.peers[i];
            && p.joined && p.client.open && p.outbox == [] && p.client.version == w.row.version
            && p.client.pending.value.doc == p.client.doc
  {
    hide ViewedLog;
    assert PeerOk(w.peers[i], Viewed(w).log, w.show);
    hide Replay, RequestOk, ApplyAll;
  }

  // ----- an edit dropped with its socket -----

  // Losing the socket, to silence or to the next connection, with nothing
  // waiting leaves the client settled, at the same version. It then shows that
  // version exactly when the steps it shows on top of it, those in flight unless
  // overtaken, change nothing.
  lemma DroppedAgreesExactly(w: World, i: nat, a: Action)
    requires WorldOk(w) && i < |w.peers| && (a == Silence(i) || a == Connect(i))
    requires var p := w.peers[i]; p.client.version >= 1 && !p.dropped && p.client.pending.None?
    ensures var p, q, log := w.peers[i], Act(w, a).peers[i], Viewed(w).log;
            && Settled(q.client) && q.client.version == p.client.version && Known(log, p.client.version)
            && (!Overtaken(p) ==> p.top == OnTheWire(p))
            && (q.client.doc == ContentAt(log, q.client.version)
                <==> ApplyAll(ContentAt(log, p.client.version), p.top) == Some(ContentAt(log, p.client.version)))
  {
    assert PeerOk(w.peers[i], Viewed(w).log, w.show);
    hide Replay, RequestOk, Chain, ApplyAll, ViewedLog;
  }

  // A peer's steps under an outstanding edit leave the client settled too, and
  // one version on: it shows that version exactly when its own steps come to
  // the same content as the peer's.
  lemma ResyncedAgreesExactly(w: World, i: nat)
    requires WorldOk(w) && i < |w.peers| && w.peers[i].inbox != []
    requires var m := w.peers[i].inbox[0]; m.Edited? && m.operation.replace.None? && m.operation.steps.Some?
    requires !Settled(w.peers[i].client)
    ensures var p, q, log := w.peers[i], Act(w, Deliver(i)).peers[i], Viewed(w).log;
            && Settled(q.client) && !q.client.live && q.client.version == p.client.version + 1
            && Known(log, p.client.version) && Known(log, q.client.version)
            && (q.client.doc == ContentAt(log, q.client.version)
                <==> ApplyAll(ContentAt(log, p.client.version), p.top)
                     == ApplyAll(ContentAt(log, p.client.version), p.inbox[0].operation.steps.value))
  {
    hide ViewedLog;
    var p, log := w.peers[i], Viewed(w).log;
    assert PeerOk(p, log, w.show);
    LogReplays(Viewed(w));
    LiveFacts(p, log, w.show);
    NextVersion(log, p.client.version);
    hide Replay, RequestOk, ApplyAll, PeerOk;
  }

  // ----- edits sent before init -----

  // What was waiting when the socket opened goes out before init does. Init
  // then takes it from the editor, and an ack moves the version past what the
  // editor shows: the two agree exactly when the edit is refused for its base,
  // or leads to the very content the server had.
  lemma EarlyFlushAgreesExactly(w: World, i: nat)
    requires WorldOk(w) && i < |w.peers| && !w.peers[i].joined
    requires var c := w.peers[i].client; c.open && !c.live && !c.awaiting && c.pending.Some?
    ensures var before := w.peers[i].client;
            var served := Run(w, [FlushTimer(i), Join(i), ServeEdit(i)]);
            var after := Act(Act(served, Deliver(i)), Deliver(i));
            && |after.peers| == |w.peers|
            && var c := after.peers[i].client;
            && c.live && Settled(c) && c.version == after.row.version
            && (State(c.title, c.doc) == State(after.row.title, w.show(after.row.content))
                <==> || before.version != w.row.version
                     || w.show(before.pending.value.doc) == w.show(w.row.content))
  {
    var p, row := w.peers[i], w.row;
    var r := Request(p.client.version, p.client.pending.value.steps, p.client.pending.value.doc);
    var c := p.client.(pending := None, awaiting := true);
    assert p.outbox == [] by {
      assert PeerOk(p, Viewed(w).log, w.show);
    }
    hide WorldOk;
    Three(w, FlushTimer(i), Join(i), ServeEdit(i));
    Sent(w, i);
    var w1 := Act(w, FlushTimer(i));
    var w2 := Act(w1, Join(i));
    var p2 := p.(client := c, outbox := [r], sent := r, joined := true,
                 inbox := [Init(row.version, row.title, row.content)]);
    assert w2.peers[i] == p2 && w2.row == row && |w2.peers| == |w.peers|;
    Answered(w2, i, r);
    InitThenAnswer(Act(w2, ServeEdit(i)), i, row);
  }

  lemma InitThenAnswer(w: World, i: nat, row: Row)
    requires i < |w.peers| && |w.peers[i].inbox| == 2
    requires w.peers[i].inbox[0] == Init(row.version, row.title, row.content)
    requires var m := w.peers[i].inbox[1]; m == Ack(row.version + 1) || m == Rejected(row.version, row.content)
    requires w.peers[i].client.open
    ensures var after := Act(Act(w, Deliver(i)), Deliver(i));
            && after.row == w.row && |after.peers| == |w.peers|
            && after.peers[i].client
               == Client(if w.peers[i].inbox[1].Ack? then row.version + 1 else row.version,
                         row.title, w.show(row.content), None, false, true, true)
  {
    DeliveredTo(w, i);
    DeliveredTo(Act(w, Deliver(i)), i);
    assert w.peers[i].inbox[1..][0] == w.peers[i].inbox[1];
    hide Act;
  }

  // ----- a replacement under words that wait -----

  // The editor shows the new document and its version; the words that wait go
  // out at that version with the document they were typed in. Read at the head,
  // that is accepted, and the log replays to the head exactly when the words,
  // typed in the new document instead, come to the same.
  lemma ReplaceUnderPendingExactly(w: World, i: nat)
    requires WorldOk(w) && LogOk(w.row) && i < |w.peers| && ReplacesPending(w.peers[i])
    ensures var p := w.peers[i];
            var batch := p.client.pending.value;
            var served := Run(w, [Deliver(i), FlushTimer(i), ServeEdit(i)]);
            && (LogOk(served.row)
                <==> |p.inbox| > 1 || ApplyAll(w.row.content, batch.steps) == Some(batch.doc))
            && (|p.inbox| == 1 ==>
                  && |served.peers| == |w.peers|
                  && var after := Act(served, Deliver(i));
                  && |after.peers| == |w.peers|
                  && var c := after.peers[i].client;
                  && c.live && Settled(c) && c.version == after.row.version
                  && (c.doc == w.show(after.row.content) <==> w.show(batch.doc) == w.show(w.row.content)))
  {
    var p, row := w.peers[i], w.row;
    var batch := p.client.pending.value;
    ReplacedFacts(w, i);
    hide WorldOk;
    Three(w, Deliver(i), FlushTimer(i), ServeEdit(i));
    DeliveredTo(w, i);
    var w1 := Act(w, Deliver(i));
    Sent(w1, i);
    var w2 := Act(w1, FlushTimer(i));
    var r := Request(p.client.version + 1, batch.steps, batch.doc);
    Answered(w2, i, r);
    OnlyHonestKeepsLog(row, StepsOperation(batch.steps), Some(batch.doc), None);
    var w3 := Act(w2, ServeEdit(i));
    if |p.inbox| == 1 {
      assert w3.peers[i].inbox == [Ack(row.version + 1)];
      DeliveredTo(w3, i);
      hide Act;
    }
  }

  lemma ReplacedFacts(w: World, i: nat)
    requires WorldOk(w) && i < |w.peers| && ReplacesPending(w.peers[i])
    ensures var p, q := w.peers[i], Delivered(w.peers[i], w.show);
            && p.joined && q.joined && q.outbox == [] && q.inbox == p.inbox[1..]
            && q.client == p.client.(version := p.client.version + 1, doc := q.client.doc, title := q.client.title)
            && q.client.open && q.client.live
            && (|p.inbox| == 1 <==> p.client.version + 1 == w.row.version)
            && (|p.inbox| == 1 ==> q.client.doc == w.show(w.row.content))
  {
    hide ViewedLog;
    var p, log := w.peers[i], Viewed(w).log;
    assert PeerOk(p, log, w.show);
    LogReplays(Viewed(w));
    LiveFacts(p, log, w.show);
    NextVersion(log, p.client.version);
    HeadKnown(Viewed(w));
    hide Replay, RequestOk, ApplyAll, ShownOk;
  }

  // ----- the server's steps on a document shown as another -----

  // The steps of the server's own edit keep its log. A settled client, up to
  // date, that replays them shows the new head exactly when they lead from what
  // it was shown to what it would be shown.
  lemma ServerStepsAgreeExactly(w: World, i: nat, steps: seq<Step>, doc: Content)
    requires WorldOk(w) && LogOk(w.row) && i < |w.peers|
    requires var p := w.peers[i]; p.client.live && Settled(p.client) && p.inbox == []
    requires ApplyAll(w.row.content, steps) == Some(doc)
    ensures var written := Act(w, ServerWrite(StepsOperation(steps), Some(doc), None));
            var seen := ApplyAll(w.show(w.row.content), steps);
            && |written.peers| == |w.peers|
            && var after := Act(written, Deliver(i));
            && |after.peers| == |w.peers| && LogOk(after.row) && after.row.content == doc
            && var c := after.peers[i].client;
            && Settled(c) && c.version == after.row.version && (c.live <==> seen.Some?)
            && (c.live ==> c.doc == seen.value && (c.doc == w.show(after.row.content) <==> seen == Some(w.show(doc))))
  {
    hide WorldOk, LogOk, ApplyAll, Viewed, Act, Delivered;
    UpToDate(w, i);
    StepsHonest(w.row, steps, doc);
    ChangeKeepsLog(w.row, StepsOperation(steps), Some(doc), None);
    Written(w, i, steps, doc);
    var written := Act(w, ServerWrite(StepsOperation(steps), Some(doc), None));
    DeliveredTo(written, i);
    SettledReplays(written.peers[i], steps, w.show);
  }

  lemma Written(w: World, i: nat, steps: seq<Step>, doc: Content)
    requires i < |w.peers| && w.peers[i].joined && w.peers[i].inbox == []
    ensures var after := Act(w, ServerWrite(StepsOperation(steps), Some(doc), None));
            && |after.peers| == |w.peers| && after.show == w.show
            && after.row == Changed(w.row, StepsOperation(steps), Some(doc), None)
            && after.peers[i] == w.peers[i].(inbox := [Edited(w.row.version + 1, StepsOperation(steps))])
  {
    assert [] + [Edited(w.row.version + 1, StepsOperation(steps))] == [Edited(w.row.version + 1, StepsOperation(steps))];
  }

  lemma SettledReplays(p: Peer, steps: seq<Step>, show: Editor)
    requires p.client.live && Settled(p.client)
    requires p.inbox == [Edited(p.client.version + 1, StepsOperation(steps))]
    ensures var c, seen := Delivered(p, show).client, ApplyAll(p.client.doc, steps);
            && Settled(c) && c.version == p.client.version + 1 && (c.live <==> seen.Some?)
            && (c.live ==> c.doc == seen.value)
  {
    hide ApplyAll;
  }

  lemma UpToDate(w: World, i: nat)
    requires WorldOk(w) && i < |w.peers|
    requires var p := w.peers[i]; p.client.live && Settled(p.client) && p.inbox == []
    ensures var p := w.peers[i];
            p.joined && p.client.version == w.row.version && p.client.doc == w.show(w.row.content)
  {
    SettledAgrees(w, i);
    assert PeerOk(w.peers[i], Viewed(w).log, w.show);
    hide RequestOk, ShownOk, Replay, ViewedLog;
  }

  // Paragraphs that the server puts into a document without blocks leave the
  // empty one, that clients are shown there, after them.
  lemma InsertionDiverges(w: World, i: nat, pos: Option<int>, text: string)
    requires WorldOk(w) && LogOk(w.row) && i < |w.peers|
    requires var p := w.peers[i]; p.client.live && Settled(p.client) && p.inbox == []
    requires w.row.content == [] && w.show([]) == PARAGRAPH && Edits.Paragraphs(text) != []
    requires ShownAsIs(Tokens(Edits.Paragraphs(text)), w.show)
    ensures EditFor([], Insert(pos, text)).Some?
    ensures var edit := EditFor([], Insert(pos, text)).value;
            var doc := Tokens(edit.content);
            var written := Act(w, ServerWrite(StepsOperation([AsStep(edit.step)]), Some(doc), None));
            && |written.peers| == |w.peers|
            && var after := Act(written, Deliver(i));
            && |after.peers| == |w.peers| && LogOk(after.row) && after.row.content == doc
            && var c := after.peers[i].client;
            && c.live && Settled(c) && c.version == after.row.version
            && c.doc == doc + PARAGRAPH && c.doc != w.show(doc)
  {
    var doc := Tokens(Edits.Paragraphs(text));
    InsertedFirst(pos, text);
    FirstSteps(doc);
    hide EditFor, Edits.Paragraphs, Tokens, WorldOk, LogOk, Act;
    ServerStepsAgreeExactly(w, i, [Replace(0, 0, doc)], doc);
  }

  lemma InsertedFirst(pos: Option<int>, text: string)
    ensures var edit, nodes := EditFor([], Insert(pos, text)), Edits.Paragraphs(text);
            && edit.Some? && edit.value.content == nodes && AsStep(edit.value.step) == Replace(0, 0, Tokens(nodes))
  {
    hide Edits.Paragraphs, Tokens;
    var nodes := Edits.Paragraphs(text);
    assert [] + nodes + [] == nodes;
  }

  lemma FirstSteps(doc: Content)
    ensures ApplyAll([], [Replace(0, 0, doc)]) == Some(doc)
    ensures ApplyAll(PARAGRAPH, [Replace(0, 0, doc)]) == Some(doc + PARAGRAPH)
  {
    OneStep([], Replace(0, 0, doc));
    OneStep(PARAGRAPH, Replace(0, 0, doc));
    assert [] + doc + [] == doc && [] + doc + PARAGRAPH == doc + PARAGRAPH;
  }

  // ----- a run for each -----

  const TYPED: Step := Replace(1, 1, [Unit(0x61, [])])
  const WORD: Content := [Open(Paragraph, map[], []), Unit(0x61, []), Close]

  // A client opens a document and types a letter into its empty paragraph.
  const OPENED: seq<Action> := [Connect(0), Join(0), Deliver(0), Type(0, [TYPED], WORD)]

  function Begun(stored: Content): World {
    Start("", Some(stored), 1, WithParagraph)
  }

  function Typing(stored: Content): World {
    World(Created("", Some(stored)),
          [Peer(Client(1, "", WORD, Some(Batch([TYPED], WORD)), false, true, true),
                true, [], [], Request(0, [], []), false, [TYPED], 1)],
          [], WithParagraph)
  }

  lemma TypedApplies(content: Content)
    ensures ApplyAll(PARAGRAPH, [TYPED]) == Some(WORD)
    ensures ApplyAll(content, [TYPED]) == Some(WORD) <==> content == PARAGRAPH
  {
    OneStep(PARAGRAPH, TYPED);
    OneStep(content, TYPED);
    assert PARAGRAPH[..1] + [Unit(0x61, [])] + PARAGRAPH[1..] == WORD;
    if |content| >= 1 && content[..1] + [Unit(0x61, [])] + content[1..] == WORD {
      assert |content| == 2 && content[0] == WORD[0] && content[1..][0] == WORD[2];
      assert content == PARAGRAPH;
    }
  }

  lemma OpenedFirst(stored: Content)
    requires WithParagraph(stored) == PARAGRAPH
    ensures var w := Act(Act(Act(Begun(stored), Connect(0)), Join(0)), Deliver(0));
            Act(w, Type(0, [TYPED], WORD)) == Typing(stored)
    ensures var w := Act(Act(Begun(stored), Connect(0)), Join(0)); Allowed(w, Deliver(0))
  {
    var row := Created("", Some(stored));
    var w1 := World(row, [NEW_PEER.(client := NEW_PEER.client.(open := true))], [], WithParagraph);
    assert Act(Begun(stored), Connect(0)) == w1;
    var w2 := w1.(peers := [w1.peers[0].(joined := true, inbox := [Init(1, "", stored)])]);
    assert Act(w1, Join(0)) == w2;
    var w3 := w1.(peers := [Peer(Client(1, "", PARAGRAPH, None, false, true, true),
                                 true, [], [], Request(0, [], []), false, [], 1)]);
    assert Act(w2, Deliver(0)) == w3 by {
      assert [Init(1, "", stored)][1..] == [];
    }
    TypedApplies([]);
    assert [] + [TYPED] == [TYPED];
    assert Act(w3, Type(0, [TYPED], WORD)) == Typing(stored);
  }

  lemma Opened(stored: Content)
    requires WithParagraph(stored) == PARAGRAPH
    ensures Run(Begun(stored), OPENED) == Typing(stored) && AllowedRun(Begun(stored), OPENED)
    ensures WorldOk(Typing(stored))
  {
    hide Act, Typing, Begun, Allowed, WorldOk;
    OpenedFirst(stored);
    var w0 := Begun(stored);
    var first := [Connect(0), Join(0), Deliver(0)];
    var last := [Type(0, [TYPED], WORD)];
    assert OPENED == first + last;
    RunAppend(w0, first, last);
    Three(w0, Connect(0), Join(0), Deliver(0));
    One(Run(w0, first), last[0]);
    OpensAllowed(stored);
    BegunOk(stored);
    RunKeeps(w0, OPENED);
  }

  lemma BegunOk(stored: Content)
    ensures WorldOk(Begun(stored))
  {
    StartOk("", Some(stored), 1, WithParagraph);
  }

  lemma OpensAllowed(stored: Content)
    requires WithParagraph(stored) == PARAGRAPH
    ensures AllowedRun(Begun(stored), [Connect(0), Join(0), Deliver(0)])
    ensures forall w :: AllowedRun(w, [Type(0, [TYPED], WORD)])
  {
    OpenedFirst(stored);
    hide Act, Typing, Begun, WorldOk;
    assert [Connect(0), Join(0), Deliver(0)][1..] == [Join(0), Deliver(0)];
    assert [Join(0), Deliver(0)][1..] == [Deliver(0)] && [Deliver(0)][1..] == [];
  }

  // A new document has no blocks. The first letter typed into it is accepted,
  // and the log no longer replays to the head.
  lemma FirstLetterBreaksLog()
    ensures var actions := OPENED + [FlushTimer(0), ServeEdit(0)];
            var w := Run(Start("", None, 1, WithParagraph), actions);
            && AllowedRun(Start("", None, 1, WithParagraph), actions)
            && LogOk(Created("", None)) && w.row.version == 2 && w.row.content == WORD && !LogOk(w.row)
  {
    assert Start("", None, 1, WithParagraph) == Begun([]);
    Opened([]);
    var w0, w1 := Begun([]), Typing([]);
    hide Begun;
    var rest := [FlushTimer(0), ServeEdit(0)];
    RunAppend(w0, OPENED, rest);
    Two(w1, FlushTimer(0), ServeEdit(0));
    Sent(w1, 0);
    assert AllowedRun(w1, rest);
    Answered(Act(w1, FlushTimer(0)), 0, Request(1, [TYPED], WORD));
    CreatedOk("", None);
    TypedApplies([]);
    SeenEditKeepsLogExactly(w1.row, [TYPED], WORD, WithParagraph);
  }

  // The promise of `isSettled` fails: a client types, sends and loses the
  // connection, all as assumed, and is settled at version 1 with a letter that
  // version 1 does not have.
  lemma SilenceDiverges()
    ensures var actions := OPENED + [FlushTimer(0), Silence(0)];
            var w := Run(Begun(PARAGRAPH), actions);
            && AllowedRun(Begun(PARAGRAPH), actions)
            && |w.peers| == 1 && Settled(w.peers[0].client) && w.peers[0].client.version == 1
            && Known(w.row.log, 1) && w.peers[0].client.doc != ContentAt(w.row.log, 1)
  {
    Opened(PARAGRAPH);
    var w0, w1 := Begun(PARAGRAPH), Typing(PARAGRAPH);
    hide Begun;
    var rest := [FlushTimer(0), Silence(0)];
    RunAppend(w0, OPENED, rest);
    Two(w1, FlushTimer(0), Silence(0));
    Sent(w1, 0);
    assert AllowedRun(w1, rest);
    CreatedOk("", Some(PARAGRAPH));
    HeadKnown(w1.row);
  }

  // What is typed just before the connection closes goes out on the next one
  // before its init: a settled live client shows an empty paragraph at version
  // 2, which has the letter it typed.
  lemma FlushBeforeInitDiverges()
    ensures var actions := OPENED + [CloseEvent(0), Connect(0)] + [FlushTimer(0), Join(0), ServeEdit(0)];
            var w := Act(Act(Run(Begun(PARAGRAPH), actions), Deliver(0)), Deliver(0));
            && AllowedRun(Begun(PARAGRAPH), OPENED + [CloseEvent(0), Connect(0)])
            && |w.peers| == 1 && w.peers[0].client.live && Settled(w.peers[0].client)
            && w.peers[0].client.version == w.row.version
            && State(w.peers[0].client.title, w.peers[0].client.doc)
               != State(w.row.title, WithParagraph(w.row.content))
  {
    Opened(PARAGRAPH);
    var w0, w1 := Begun(PARAGRAPH), Typing(PARAGRAPH);
    hide Begun, Act, Typing, WorldOk, AllowedRun;
    var mid := [CloseEvent(0), Connect(0)];
    var early := [FlushTimer(0), Join(0), ServeEdit(0)];
    RunAppend(w0, OPENED + mid, early);
    RunAppend(w0, OPENED, mid);
    Reopened();
    RunKeeps(w1, mid);
    EarlyFlushAgreesExactly(Run(w1, mid), 0);
  }

  lemma Reopened()
    ensures var w1, mid := Typing(PARAGRAPH), [CloseEvent(0), Connect(0)];
            && AllowedRun(w1, mid)
            && Run(w1, mid) == w1.(peers := [w1.peers[0].(
                 joined := false, client := w1.peers[0].client.(open := true, live := false))])
  {
    var w1 := Typing(PARAGRAPH);
    Two(w1, CloseEvent(0), Connect(0));
    assert [CloseEvent(0), Connect(0)][1..] == [Connect(0)] && [Connect(0)][1..] == [];
  }

  // Another client's request over HTTP replaces the empty paragraph while the
  // letter waits: the log no longer replays to the head, and the client shows
  // other content than the server at the same version.
  lemma ReplaceUnderPendingDiverges(other: Content)
    requires other != PARAGRAPH && other != WORD
    ensures var write := ServerWrite(PatchOperation(None, Some(other)), Some(other), None);
            var actions := OPENED + [write] + [Deliver(0), FlushTimer(0), ServeEdit(0)];
            var served := Run(Begun(PARAGRAPH), actions);
            var w := Act(served, Deliver(0));
            && AllowedRun(Begun(PARAGRAPH), OPENED + [write])
            && !LogOk(served.row)
            && |w.peers| == 1 && w.peers[0].client.live && Settled(w.peers[0].client)
            && w.peers[0].client.version == w.row.version
            && w.peers[0].client.doc != WithParagraph(w.row.content)
  {
    Opened(PARAGRAPH);
    var w0, w1 := Begun(PARAGRAPH), Typing(PARAGRAPH);
    hide Begun, Act, WorldOk, Honest, LogOk, AllowedRun, ApplyAll;
    var write := ServerWrite(PatchOperation(None, Some(other)), Some(other), None);
    var last := [Deliver(0), FlushTimer(0), ServeEdit(0)];
    RunAppend(w0, OPENED + [write], last);
    RunAppend(w0, OPENED, [write]);
    One(w1, write);
    var w2 := Act(w1, write);
    ReplacedWhileTyping(other);
    TypedApplies(other);
    ReplaceUnderPendingExactly(w2, 0);
  }

  lemma ReplacedWhileTyping(other: Content)
    ensures var write := ServerWrite(PatchOperation(None, Some(other)), Some(other), None);
            var w1 := Typing(PARAGRAPH);
            var w := Act(w1, write);
            && AllowedRun(w1, [write]) && WorldOk(w) && LogOk(w.row) && w.show == WithParagraph
            && |w.peers| == 1 && w.row.content == other
            && w.peers[0] == w1.peers[0].(inbox := [Edited(2, PatchOperation(None, Some(other)))])
  {
    Opened(PARAGRAPH);
    var w1 := Typing(PARAGRAPH);
    CreatedOk("", Some(PARAGRAPH));
    PatchIsHonest(w1.row, None, Some(other));
    ChangeKeepsLog(w1.row, PatchOperation(None, Some(other)), Some(other), None);
    var write := ServerWrite(PatchOperation(None, Some(other)), Some(other), None);
    assert AllowedRun(w1, [write]);
    ActKeeps(w1, write);
    assert [] + [Edited(2, PatchOperation(None, Some(other)))] == [Edited(2, PatchOperation(None, Some(other)))];
    hide WorldOk, Honest, LogOk;
  }
}
