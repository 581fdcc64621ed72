// The server and any number of clients, as one transition system. A commit and
// its broadcast are one step, so are a client's init and its joining, and each
// socket delivers in order.
module Convergence {
  import opened Wrappers
  import opened DocumentStore
  import opened Socket
  import opened View
  import Seqs

  // A client, its socket's two directions, and an account of its edits: `sent`
  // went out last, an edit was `dropped` unacknowledged since the last init, and
  // the editor shows the server's version `shown` with the steps `top` applied.
  datatype Peer = Peer(
    client: Client, joined: bool, inbox: seq<Message>, outbox: seq<Request>,
    sent: Request, dropped: bool, top: seq<Step>, shown: nat)

  // `orphans` were sent on sockets now gone; the server may still read them.
  // All clients have the same editor.
  datatype World = World(row: Row, peers: seq<Peer>, orphans: seq<Request>, show: Editor)

  datatype Action =
    | Type(i: nat, steps: seq<Step>, doc: Content)
    | FlushTimer(i: nat)
    | Connect(i: nat)
    | CloseEvent(i: nat)
    | Silence(i: nat)
    | Join(i: nat)
    | Deliver(i: nat)
    | ServeEdit(i: nat)
    | ServeOrphan(k: nat)
    | ServerWrite(op: Operation, content: Option<Content>, title: Option<string>)

  const NEW_PEER := Peer(Client(0, "", [], None, false, false, false), false, [], [], Request(0, [], []), false, [], 0)

  // ----- one peer's steps -----

  function OnTheWire(p: Peer): seq<Step> {
    if p.client.awaiting then p.sent.steps else []
  }

  function PendingSteps(c: Client): seq<Step> {
    if c.pending.Some? then c.pending.value.steps else []
  }

  function Typed(p: Peer, steps: seq<Step>, doc: Content): Peer {
    p.(client := Queued(p.client, steps, doc), top := p.top + steps)
  }

  function Sending(p: Peer, effect: Effect): Peer {
    if effect.Send? then p.(outbox := p.outbox + [effect.request], sent := effect.request) else p
  }

  // The edit in flight was made before the version the client is at now.
  predicate Overtaken(p: Peer) {
    p.client.awaiting && p.sent.base < p.client.version
  }

  // The socket is gone, with what was on its way to the client.
  function Unplugged(p: Peer): Peer {
    p.(joined := false, inbox := [], outbox := [])
  }

  function Disconnected(p: Peer): Peer {
    Unplugged(p.(client := Dropped(p.client), dropped := p.dropped || p.client.awaiting))
  }

  // What is left on top once a message has been handled.
  function TopAfter(p: Peer, message: Message): seq<Step> {
    match message
    case Init(_, _, _) => []
    case Rejected(_, _) => []
    case Ack(_) => PendingSteps(p.client)
    case Edited(_, op) => if op.replace.Some? then [] else p.top
  }

  function Delivered(p: Peer, show: Editor): Peer
    requires p.inbox != []
  {
    var message := p.inbox[0];
    var (c, effect) := Handled(p.client, message, show);
    var q := p.(client := c, inbox := p.inbox[1..]);
    if effect.Reconnect? then
      Unplugged(q.(dropped := p.dropped || !Settled(p.client)))
    else
      Sending(q.(dropped := p.dropped && !message.Init?, top := TopAfter(p, message), shown := c.version), effect)
  }

  // ----- commits -----

  function Heard(p: Peer, message: Message): Peer {
    if p.joined then p.(inbox := p.inbox + [message]) else p
  }

  // Everyone on the document hears of a commit but its author, who is answered.
  function Broadcast(peers: seq<Peer>, message: Message, author: Option<nat>, answer: Message): (r: seq<Peer>)
    ensures |r| == |peers|
  {
    seq(|peers|, i requires 0 <= i < |peers| =>
      Heard(peers[i], if author == Some(i) then answer else message))
  }

  function Committed(w: World, op: Operation, content: Option<Content>, title: Option<string>, author: Option<nat>)
      : World
  {
    var row := Changed(w.row, op, content, title);
    w.(row := row, peers := Broadcast(w.peers, Edited(row.version, op), author, Ack(row.version)))
  }

  function Served(w: World, request: Request, author: Option<nat>): World {
    if request.base == w.row.version then
      Committed(w, StepsOperation(request.steps), Some(request.doc), None, author)
    else if author.Some? && author.value < |w.peers| then
      w.(peers := w.peers[author.value :=
           Heard(w.peers[author.value], Rejected(w.row.version, w.row.content))])
    else w
  }

  function Removed<T>(s: seq<T>, k: nat): seq<T>
    requires k < |s|
  {
    s[..k] + s[k + 1..]
  }

  function With(w: World, i: nat, p: Peer): World
    requires i < |w.peers|
  {
    w.(peers := w.peers[i := p])
  }

  // A step that is not enabled changes nothing. What is typed leads to a
  // document that the editor would show as it is.
  function Act(w: World, a: Action): World {
    match a
    case Type(i, steps, doc) =>
      if i < |w.peers| && ApplyAll(w.peers[i].client.doc, steps) == Some(doc) && ShownAsIs(doc, w.show) then
        With(w, i, Typed(w.peers[i], steps, doc))
      else w
    case FlushTimer(i) =>
      if i < |w.peers| then
        var (c, effect) := Flushed(w.peers[i].client);
        With(w, i, Sending(w.peers[i].(client := c), effect))
      else w
    case Connect(i) =>
      if i < |w.peers| then
        var p := Disconnected(w.peers[i]);
        With(w, i, p.(client := p.client.(open := true))).(orphans := w.orphans + w.peers[i].outbox)
      else w
    case CloseEvent(i) =>
      if i < |w.peers| then
        var p := w.peers[i];
        With(w, i, Unplugged(p.(client := p.client.(open := false, live := false))))
          .(orphans := w.orphans + p.outbox)
      else w
    case Silence(i) =>
      if i < |w.peers| then
        With(w, i, Disconnected(w.peers[i])).(orphans := w.orphans + w.peers[i].outbox)
      else w
    case Join(i) =>
      if i < |w.peers| && w.peers[i].client.open && !w.peers[i].joined then
        With(w, i, w.peers[i].(joined := true,
                               inbox := [Init(w.row.version, w.row.title, w.row.content)]))
      else w
    case Deliver(i) =>
      if i < |w.peers| && w.peers[i].inbox != [] then
        var p := Delivered(w.peers[i], w.show);
        With(w, i, p).(orphans := if p.client.open then w.orphans else w.orphans + w.peers[i].outbox)
      else w
    case ServeEdit(i) =>
      if i < |w.peers| && w.peers[i].joined && w.peers[i].outbox != [] then
        var p := w.peers[i];
        Served(With(w, i, p.(outbox := p.outbox[1..])), p.outbox[0], Some(i))
      else w
    case ServeOrphan(k) =>
      if k < |w.orphans| then
        Served(w.(orphans := Removed(w.orphans, k)), w.orphans[k], None)
      else w
    case ServerWrite(op, content, title) => Committed(w, op, content, title, None)
  }

  // A whole document has come for a client whose own words wait to be sent.
  predicate ReplacesPending(p: Peer) {
    && p.inbox != [] && p.inbox[0].Edited? && p.inbox[0].operation.replace.Some?
    && p.client.pending.Some? && !p.client.awaiting
  }

  // What is assumed of a step: writes from outside are honest, with steps only
  // between documents shown as they are; nothing is sent on a socket before its
  // init has been handled, and no replacement arrives in the quarter of a
  // second that words wait with nothing in flight.
  predicate Allowed(w: World, a: Action) {
    match a
    case FlushTimer(i) => i < |w.peers| && w.peers[i].client.open ==> w.peers[i].client.live
    case Deliver(i) => i < |w.peers| ==> !ReplacesPending(w.peers[i])
    case ServerWrite(op, content, title) => Honest(w.row, op, content, title) && InView(w.row, op, content, w.show)
    case _ => true
  }

  function Run(w: World, actions: seq<Action>): World
    decreases |actions|
  {
    if actions == [] then w else Run(Act(w, actions[0]), actions[1..])
  }

  predicate AllowedRun(w: World, actions: seq<Action>)
    decreases |actions|
  {
    actions == [] || (Allowed(w, actions[0]) && AllowedRun(Act(w, actions[0]), actions[1..]))
  }

  lemma {:induction false} RunAppend(w: World, a: seq<Action>, b: seq<Action>)
    ensures Run(w, a + b) == Run(Run(w, a), b)
    ensures AllowedRun(w, a + b) <==> AllowedRun(w, a) && AllowedRun(Run(w, a), b)
    decreases |a|
  {
    hide Act, Allowed;
    if a == [] {
      assert a + b == b;
    } else {
      RunAppend(Act(w, a[0]), a[1..], b);
      Seqs.TailOfConcat(a, b);
    }
  }

  // ----- the invariant -----

  predicate Known(log: seq<Change>, version: nat) {
    1 <= version <= |log| && At(log, version).Some?
  }

  function ContentAt(log: seq<Change>, version: nat): Content
    requires Known(log, version)
  {
    At(log, version).value.content
  }

  // The logs here are as clients view them.

  // The inbox takes a client from `version` to the head, one version at a
  // time; of an edit on the wire that was read it holds exactly one answer, and
  // it is accepted only at the version it was made at.
  ghost predicate Chain(inbox: seq<Message>, version: nat, log: seq<Change>, reply: Option<Request>, show: Editor)
    decreases |inbox|
  {
    if inbox == [] then version == |log| && reply.None?
    else match inbox[0]
      case Init(_, _, _) => false
      case Edited(v, op) =>
        && v == version + 1 <= |log| && log[version].operation == ViewedOp(op, show)
        && Chain(inbox[1..], v, log, reply, show)
      case Ack(v) =>
        && v == version + 1 <= |log| && reply.Some? && reply.value.base == version
        && log[version].operation == StepsOperation(reply.value.steps)
        && Chain(inbox[1..], v, log, None, show)
      case Rejected(v, content) =>
        && v == version && Known(log, v) && show(content) == ContentAt(log, v) && reply.Some?
        && Chain(inbox[1..], v, log, None, show)
  }

  predicate RequestOk(r: Request, log: seq<Change>, show: Editor) {
    Known(log, r.base) && ApplyAll(ContentAt(log, r.base), r.steps) == Some(r.doc) && ShownAsIs(r.doc, show)
  }

  ghost predicate ChannelOk(p: Peer, log: seq<Change>, show: Editor) {
    var c := p.client;
    if !c.open then !p.joined && !c.live && p.inbox == [] && p.outbox == []
    else if !p.joined then !c.live && !c.awaiting && p.inbox == [] && p.outbox == []
    else if !c.live then
      && !c.awaiting && p.outbox == [] && p.inbox != [] && p.inbox[0].Init?
      && Known(log, p.inbox[0].version)
      && At(log, p.inbox[0].version).value == State(p.inbox[0].title, show(p.inbox[0].content))
      && Chain(p.inbox[1..], p.inbox[0].version, log, None, show)
    else if p.outbox != [] then
      && c.awaiting && |p.outbox| == 1 && p.outbox[0] == p.sent
      && Chain(p.inbox, c.version, log, None, show)
    else Chain(p.inbox, c.version, log, if c.awaiting then Some(p.sent) else None, show)
  }

  // What the editor shows. With nothing dropped, it is the client's version
  // under what was sent and what is waiting, unless the edit in flight was
  // overtaken; that one can only be rejected, and then all of it goes.
  ghost predicate ShownOk(p: Peer, log: seq<Change>) {
    var c := p.client;
    && (c.version >= 1 ==>
          && Known(log, p.shown) && c.version <= |log|
          && ApplyAll(ContentAt(log, p.shown), p.top) == Some(c.doc)
          && (!p.dropped ==> p.shown == c.version && At(log, p.shown).value.title == c.title))
    && (!p.dropped && !Overtaken(p) ==> p.top == OnTheWire(p) + PendingSteps(c))
    && (c.live ==> c.version >= 1 && !p.dropped && (c.awaiting ==> p.sent.base <= c.version))
    && (c.live && !Overtaken(p) && c.pending.Some? ==> c.pending.value.doc == c.doc)
  }

  ghost predicate PeerOk(p: Peer, log: seq<Change>, show: Editor) {
    && ChannelOk(p, log, show)
    && ShownOk(p, log)
    && (p.client.pending.Some? ==> ShownAsIs(p.client.pending.value.doc, show))
    && forall k :: 0 <= k < |p.outbox| ==> RequestOk(p.outbox[k], log, show)
  }

  function Viewed(w: World): Row {
    ViewedRow(w.row, w.show)
  }

  ghost predicate WorldOk(w: World) {
    && LogOk(Viewed(w))
    && (forall i :: 0 <= i < |w.peers| ==> PeerOk(w.peers[i], Viewed(w).log, w.show))
    && (forall k :: 0 <= k < |w.orphans| ==> RequestOk(w.orphans[k], Viewed(w).log, w.show))
  }

  // ----- the log under the clients -----

  lemma AtStable(log: seq<Change>, change: Change, version: nat)
    requires version <= |log|
    ensures At(log + [change], version) == At(log, version)
    ensures Known(log, version) ==> Known(log + [change], version)
  {
    assert (log + [change])[..version] == log[..version];
  }

  lemma {:induction false} PrefixReplays(log: seq<Change>, version: nat)
    requires Replay(log).Some? && version <= |log|
    ensures At(log, version).Some?
    decreases |log|
  {
    hide Perform;
    if version == |log| {
      assert log[..version] == log;
    } else {
      PrefixReplays(log[..|log| - 1], version);
      assert log[..|log| - 1][..version] == log[..version];
    }
  }

  lemma NextVersion(log: seq<Change>, version: nat)
    requires Replay(log).Some? && version < |log|
    ensures At(log, version).Some? && At(log, version + 1).Some?
    ensures At(log, version + 1) == Perform(At(log, version).value, log[version].operation)
  {
    hide Perform;
    PrefixReplays(log, version);
    PrefixReplays(log, version + 1);
    assert log[..version + 1][..version] == log[..version];
  }

  lemma HeadKnown(row: Row)
    requires LogOk(row)
    ensures Known(row.log, row.version) && row.version == |row.log|
    ensures ContentAt(row.log, row.version) == row.content
    ensures At(row.log, row.version).value == State(row.title, row.content)
  {
    AtHead(row);
  }

  // ----- messages joining an inbox -----

  lemma {:induction false} ChainEdited(inbox: seq<Message>, version: nat, log: seq<Change>, change: Change,
                                       op: Operation, reply: Option<Request>, show: Editor)
    requires Chain(inbox, version, log, reply, show) && change.operation == ViewedOp(op, show)
    ensures Chain(inbox + [Edited(|log| + 1, op)], version, log + [change], reply, show)
    decreases |inbox|
  {
    hide ViewedOp;
    var m := Edited(|log| + 1, op);
    if inbox == [] {
      assert [m][1..] == [] && [] + [m] == [m];
    } else {
      assert (inbox + [m])[1..] == inbox[1..] + [m];
      match inbox[0]
      case Edited(v, _) => ChainEdited(inbox[1..], v, log, change, op, reply, show);
      case Ack(v) => ChainEdited(inbox[1..], v, log, change, op, None, show);
      case Rejected(v, content) =>
        AtStable(log, change, v);
        ChainEdited(inbox[1..], v, log, change, op, None, show);
    }
  }

  lemma {:induction false} ChainAck(inbox: seq<Message>, version: nat, log: seq<Change>, change: Change,
                                    sent: Request, show: Editor)
    requires Chain(inbox, version, log, None, show)
    requires change.operation == StepsOperation(sent.steps) && sent.base == |log|
    ensures Chain(inbox + [Ack(|log| + 1)], version, log + [change], Some(sent), show)
    decreases |inbox|
  {
    var m := Ack(|log| + 1);
    if inbox == [] {
      assert [m][1..] == [] && [] + [m] == [m];
    } else {
      assert (inbox + [m])[1..] == inbox[1..] + [m];
      ChainAck(inbox[1..], version + 1, log, change, sent, show);
    }
  }

  lemma {:induction false} ChainRejected(inbox: seq<Message>, version: nat, log: seq<Change>, content: Content,
                                         sent: Request, show: Editor)
    requires Chain(inbox, version, log, None, show)
    requires Known(log, |log|) && show(content) == ContentAt(log, |log|)
    ensures Chain(inbox + [Rejected(|log|, content)], version, log, Some(sent), show)
    decreases |inbox|
  {
    var m := Rejected(|log|, content);
    if inbox == [] {
      assert [m][1..] == [] && [] + [m] == [m];
    } else {
      assert (inbox + [m])[1..] == inbox[1..] + [m];
      ChainRejected(inbox[1..], version + 1, log, content, sent, show);
    }
  }

  lemma RequestGrows(r: Request, log: seq<Change>, change: Change, show: Editor)
    requires RequestOk(r, log, show)
    ensures RequestOk(r, log + [change], show)
  {
    AtStable(log, change, r.base);
  }

  lemma ShownGrows(p: Peer, log: seq<Change>, change: Change)
    requires ShownOk(p, log)
    ensures ShownOk(p, log + [change])
  {
    hide ApplyAll;
    if p.client.version >= 1 {
      AtStable(log, change, p.shown);
    }
  }

  lemma ChannelGrows(p: Peer, log: seq<Change>, change: Change, op: Operation, show: Editor)
    requires ChannelOk(p, log, show) && change.operation == ViewedOp(op, show)
    ensures ChannelOk(Heard(p, Edited(|log| + 1, op)), log + [change], show)
  {
    hide Chain, Replay, ViewedOp;
    var m := Edited(|log| + 1, op);
    if p.joined && !p.client.live {
      AtStable(log, change, p.inbox[0].version);
      ChainEdited(p.inbox[1..], p.inbox[0].version, log, change, op, None, show);
      assert (p.inbox + [m])[1..] == p.inbox[1..] + [m];
    } else if p.joined {
      ChainEdited(p.inbox, p.client.version, log, change, op,
                  if p.outbox == [] && p.client.awaiting then Some(p.sent) else None, show);
    }
  }

  // A commit leaves every client but its author as it was, one message richer.
  lemma HeardOk(p: Peer, log: seq<Change>, change: Change, op: Operation, show: Editor)
    requires PeerOk(p, log, show) && change.operation == ViewedOp(op, show)
    ensures PeerOk(Heard(p, Edited(|log| + 1, op)), log + [change], show)
  {
    hide ChannelOk, ShownOk, RequestOk, ViewedOp;
    var q := Heard(p, Edited(|log| + 1, op));
    ChannelGrows(p, log, change, op, show);
    ShownGrows(p, log, change);
    ShownIgnoresChannel(p, q, log + [change]);
    forall k | 0 <= k < |q.outbox|
      ensures RequestOk(q.outbox[k], log + [change], show)
    {
      RequestGrows(p.outbox[k], log, change, show);
    }
  }

  lemma ShownIgnoresChannel(p: Peer, q: Peer, log: seq<Change>)
    requires ShownOk(p, log)
    requires q.client == p.client && q.sent == p.sent && q.dropped == p.dropped && q.top == p.top && q.shown == p.shown
    ensures ShownOk(q, log)
  {
    hide ApplyAll;
  }

  // The server has read the edit of a client and answers it.
  lemma AnsweredOk(p: Peer, log: seq<Change>, change: Change, show: Editor)
    requires PeerOk(p, log, show) && p.outbox != []
    requires change.operation == StepsOperation(p.outbox[0].steps) && p.outbox[0].base == |log|
    ensures PeerOk(Heard(p.(outbox := p.outbox[1..]), Ack(|log| + 1)), log + [change], show)
  {
    hide Chain, ShownOk, RequestOk;
    ShownGrows(p, log, change);
    ShownIgnoresChannel(p, Heard(p.(outbox := p.outbox[1..]), Ack(|log| + 1)), log + [change]);
    ChainAck(p.inbox, p.client.version, log, change, p.sent, show);
  }

  lemma RefusedOk(p: Peer, log: seq<Change>, content: Content, show: Editor)
    requires PeerOk(p, log, show) && p.outbox != [] && Known(log, |log|) && show(content) == ContentAt(log, |log|)
    ensures PeerOk(Heard(p.(outbox := p.outbox[1..]), Rejected(|log|, content)), log, show)
  {
    hide Chain, ShownOk, RequestOk;
    ShownIgnoresChannel(p, Heard(p.(outbox := p.outbox[1..]), Rejected(|log|, content)), log);
    ChainRejected(p.inbox, p.client.version, log, content, p.sent, show);
  }

  // ----- a client handling a message -----

  // Anything but an init comes to a live client.
  lemma LiveFacts(p: Peer, log: seq<Change>, show: Editor)
    requires PeerOk(p, log, show) && p.inbox != [] && !p.inbox[0].Init?
    ensures p.client.live
    ensures p.client.open && p.joined
    ensures Known(log, p.client.version) && p.shown == p.client.version && !p.dropped
    ensures ApplyAll(ContentAt(log, p.client.version), p.top) == Some(p.client.doc)
    ensures At(log, p.client.version).value.title == p.client.title
    ensures Chain(p.inbox, p.client.version, log,
                  if p.outbox == [] && p.client.awaiting then Some(p.sent) else None, show)
    ensures p.outbox != [] ==> p.client.awaiting
  {
    hide Chain, ApplyAll, RequestOk;
  }

  lemma NothingLocal(content: Content, steps: seq<Step>)
    requires steps == []
    ensures ApplyAll(content, steps) == Some(content)
  {
  }

  lemma InitOk(p: Peer, log: seq<Change>, show: Editor)
    requires PeerOk(p, log, show) && p.inbox != [] && p.inbox[0].Init?
    ensures PeerOk(Delivered(p, show), log, show)
  {
    hide RequestOk, Replay;
    NothingLocal(show(p.inbox[0].content), []);
  }

  lemma RejectedOk(p: Peer, log: seq<Change>, show: Editor)
    requires PeerOk(p, log, show) && p.inbox != [] && p.inbox[0].Rejected?
    ensures PeerOk(Delivered(p, show), log, show)
  {
    LiveFacts(p, log, show);
    NothingLocal(show(p.inbox[0].content), []);
    hide RequestOk, Replay, LogOk, ApplyAll;
  }

  // An edit that is accepted was not overtaken.
  lemma AckOk(p: Peer, log: seq<Change>, show: Editor)
    requires PeerOk(p, log, show) && p.inbox != [] && p.inbox[0].Ack? && Replay(log).Some?
    ensures PeerOk(Delivered(p, show), log, show)
  {
    LiveFacts(p, log, show);
    var v := p.client.version;
    NextVersion(log, v);
    assert !Overtaken(p) && p.top == p.sent.steps + PendingSteps(p.client);
    ApplyAllConcat(ContentAt(log, v), p.sent.steps, PendingSteps(p.client));
    hide Replay, ApplyAll;
    var q := Delivered(p, show);
    assert q.top == PendingSteps(p.client) && q.shown == v + 1;
    if p.client.pending.Some? {
      assert q.outbox == [Request(v + 1, p.client.pending.value.steps, p.client.doc)];
    }
  }

  // A commit heard of is the next version.
  lemma EditedFacts(p: Peer, log: seq<Change>, show: Editor)
    requires PeerOk(p, log, show) && p.inbox != [] && p.inbox[0].Edited?
    ensures p.client.version < |log| && p.inbox[0].version == p.client.version + 1
    ensures log[p.client.version].operation == ViewedOp(p.inbox[0].operation, show)
    ensures Chain(p.inbox[1..], p.client.version + 1, log,
                  if p.outbox == [] && p.client.awaiting then Some(p.sent) else None, show)
  {
    LiveFacts(p, log, show);
    hide RequestOk, ShownOk, ApplyAll, ViewedOp;
  }

  // A peer's steps while something local is outstanding: the client starts over.
  lemma ConflictOk(p: Peer, log: seq<Change>, show: Editor)
    requires PeerOk(p, log, show) && p.inbox != [] && p.inbox[0].Edited?
    requires var op := p.inbox[0].operation; op.replace.None? && op.steps.Some? && !Settled(p.client)
    ensures PeerOk(Delivered(p, show), log, show)
  {
    LiveFacts(p, log, show);
    hide Replay, RequestOk, ApplyAll;
  }

  lemma TitleOk(p: Peer, log: seq<Change>, show: Editor)
    requires PeerOk(p, log, show) && p.inbox != [] && p.inbox[0].Edited? && Replay(log).Some?
    requires var op := p.inbox[0].operation; op.replace.None? && op.steps.None?
    ensures PeerOk(Delivered(p, show), log, show)
  {
    hide Chain, Replay, RequestOk, ApplyAll;
    LiveFacts(p, log, show);
    EditedFacts(p, log, show);
    NextVersion(log, p.client.version);
  }

  // A whole document, with nothing outstanding or with an edit in flight, which
  // it overtakes.
  lemma ReplaceOk(p: Peer, log: seq<Change>, show: Editor)
    requires PeerOk(p, log, show) && p.inbox != [] && p.inbox[0].Edited? && Replay(log).Some?
    requires p.inbox[0].operation.replace.Some? && !ReplacesPending(p)
    ensures PeerOk(Delivered(p, show), log, show)
  {
    hide Chain, Replay, RequestOk, ApplyAll;
    LiveFacts(p, log, show);
    EditedFacts(p, log, show);
    NextVersion(log, p.client.version);
    NothingLocal(show(p.inbox[0].operation.replace.value), []);
  }

  // A peer's steps with nothing outstanding.
  lemma StepsOk(p: Peer, log: seq<Change>, show: Editor)
    requires PeerOk(p, log, show) && p.inbox != [] && p.inbox[0].Edited? && Replay(log).Some?
    requires var op := p.inbox[0].operation; op.replace.None? && op.steps.Some?
    requires Settled(p.client)
    ensures PeerOk(Delivered(p, show), log, show)
  {
    hide Chain, Replay, RequestOk, ApplyAll;
    StepsReplay(p, log, show);
    EditedFacts(p, log, show);
    NothingLocal(ContentAt(log, p.client.version + 1), []);
  }

  lemma StepsReplay(p: Peer, log: seq<Change>, show: Editor)
    requires PeerOk(p, log, show) && p.inbox != [] && p.inbox[0].Edited? && Replay(log).Some?
    requires var op := p.inbox[0].operation; op.replace.None? && op.steps.Some?
    requires Settled(p.client)
    ensures p.top == [] && p.client.version < |log| && Known(log, p.client.version + 1)
    ensures p.client.live && p.client.open && p.joined && !p.dropped
    ensures var op, next := p.inbox[0].operation, At(log, p.client.version + 1).value;
            && ApplyAll(p.client.doc, op.steps.value) == Some(next.content)
            && next.title == Titled(p.client, op.title).title
  {
    hide Chain, Replay, RequestOk, ApplyAll;
    LiveFacts(p, log, show);
    EditedFacts(p, log, show);
    NextVersion(log, p.client.version);
    NothingLocal(ContentAt(log, p.client.version), p.top);
  }

  lemma EditedOk(p: Peer, log: seq<Change>, show: Editor)
    requires PeerOk(p, log, show) && p.inbox != [] && p.inbox[0].Edited? && Replay(log).Some? && !ReplacesPending(p)
    ensures PeerOk(Delivered(p, show), log, show)
  {
    hide Replay, PeerOk, ApplyAll, Delivered, ReplacesPending;
    var op := p.inbox[0].operation;
    if op.replace.Some? {
      ReplaceOk(p, log, show);
    } else if op.steps.None? {
      TitleOk(p, log, show);
    } else if !Settled(p.client) {
      ConflictOk(p, log, show);
    } else {
      StepsOk(p, log, show);
    }
  }

  lemma DeliveredOk(p: Peer, log: seq<Change>, show: Editor)
    requires PeerOk(p, log, show) && p.inbox != [] && Replay(log).Some? && !ReplacesPending(p)
    ensures PeerOk(Delivered(p, show), log, show)
  {
    hide PeerOk, Delivered, Replay, ReplacesPending;
    match p.inbox[0]
    case Init(_, _, _) => InitOk(p, log, show);
    case Ack(_) => AckOk(p, log, show);
    case Edited(_, _) => EditedOk(p, log, show);
    case Rejected(_, _) => RejectedOk(p, log, show);
  }

  // ----- a client's own steps -----

  lemma TypeOk(p: Peer, log: seq<Change>, steps: seq<Step>, doc: Content, show: Editor)
    requires PeerOk(p, log, show) && ApplyAll(p.client.doc, steps) == Some(doc) && ShownAsIs(doc, show)
    ensures PeerOk(Typed(p, steps, doc), log, show)
  {
    hide Chain, RequestOk, Replay, ApplyAll;
    Seqs.Assoc(OnTheWire(p), PendingSteps(p.client), steps);
    if p.client.version >= 1 {
      ApplyAllConcat(ContentAt(log, p.shown), p.top, steps);
    }
  }

  lemma FlushOk(p: Peer, log: seq<Change>, show: Editor)
    requires PeerOk(p, log, show) && (p.client.open ==> p.client.live)
    ensures var (c, effect) := Flushed(p.client); PeerOk(Sending(p.(client := c), effect), log, show)
  {
    hide Chain, Replay, ApplyAll;
    var (c, effect) := Flushed(p.client);
    if effect.Send? {
      assert p.top == effect.request.steps;
    }
  }

  lemma DisconnectOk(p: Peer, log: seq<Change>, show: Editor)
    requires PeerOk(p, log, show)
    ensures PeerOk(Disconnected(p), log, show)
    ensures PeerOk(Disconnected(p).(client := Disconnected(p).client.(open := true)), log, show)
    ensures PeerOk(Unplugged(p.(client := p.client.(open := false, live := false))), log, show)
  {
    hide Chain, RequestOk, Replay, ApplyAll;
  }

  lemma JoinOk(p: Peer, row: Row, show: Editor)
    requires var viewed := ViewedRow(row, show); PeerOk(p, viewed.log, show) && LogOk(viewed)
    requires p.client.open && !p.joined
    ensures PeerOk(p.(joined := true, inbox := [Init(row.version, row.title, row.content)]),
                   ViewedRow(row, show).log, show)
  {
    HeadKnown(ViewedRow(row, show));
    hide RequestOk, Replay, ApplyAll, LogOk, ViewedLog;
    var q := p.(joined := true, inbox := [Init(row.version, row.title, row.content)]);
    assert q.inbox[1..] == [];
    ShownIgnoresChannel(p, q, ViewedRow(row, show).log);
  }

  lemma FreshPeerOk(log: seq<Change>, show: Editor)
    ensures PeerOk(NEW_PEER, log, show)
  {
  }

  // ----- the whole system -----

  // The row and the requests under way, after a commit.
  lemma RowOk(w: World, op: Operation, content: Option<Content>, title: Option<string>)
    requires WorldOk(w) && Honest(Viewed(w), ViewedOp(op, w.show), ViewedContent(content, w.show), title)
    ensures var row := ViewedRow(Changed(w.row, op, content, title), w.show);
            && |w.row.log| == w.row.version
            && row.log == Viewed(w).log + [Change(w.row.version, w.row.version + 1, ViewedOp(op, w.show))]
            && LogOk(row)
            && forall k :: 0 <= k < |w.orphans| ==> RequestOk(w.orphans[k], row.log, w.show)
  {
    hide PeerOk, RequestOk, Honest, ViewedOp, ViewedContent, ViewedLog;
    ViewedChanged(w.row, op, content, title, w.show);
    ChangeKeepsLog(Viewed(w), ViewedOp(op, w.show), ViewedContent(content, w.show), title);
    var change := Change(w.row.version, w.row.version + 1, ViewedOp(op, w.show));
    forall k | 0 <= k < |w.orphans|
      ensures RequestOk(w.orphans[k], Viewed(w).log + [change], w.show)
    {
      RequestGrows(w.orphans[k], Viewed(w).log, change, w.show);
    }
  }

  lemma CommitOk(w: World, op: Operation, content: Option<Content>, title: Option<string>)
    requires WorldOk(w) && Honest(Viewed(w), ViewedOp(op, w.show), ViewedContent(content, w.show), title)
    ensures WorldOk(Committed(w, op, content, title, None))
  {
    hide PeerOk, RequestOk, Honest, ViewedOp, ViewedContent, ViewedLog, LogOk;
    RowOk(w, op, content, title);
    var log := Viewed(w).log;
    var change := Change(w.row.version, w.row.version + 1, ViewedOp(op, w.show));
    forall i | 0 <= i < |w.peers|
      ensures PeerOk(Heard(w.peers[i], Edited(w.row.version + 1, op)), log + [change], w.show)
    {
      HeardOk(w.peers[i], log, change, op, w.show);
    }
  }

  // A request that is not stale is honest: its client showed the head.
  lemma RequestHonest(viewed: Row, r: Request, show: Editor)
    requires LogOk(viewed) && RequestOk(r, viewed.log, show) && r.base == viewed.version
    ensures var op := StepsOperation(r.steps);
            Honest(viewed, ViewedOp(op, show), ViewedContent(Some(r.doc), show), None)
  {
    HeadKnown(viewed);
    ViewedSteps(r.steps, show);
    StepsHonest(viewed, r.steps, r.doc);
  }

  lemma ServeEditOk(w: World, i: nat)
    requires WorldOk(w) && i < |w.peers| && w.peers[i].outbox != [] && w.peers[i].joined
    ensures WorldOk(Act(w, ServeEdit(i)))
  {
    hide PeerOk, RequestOk, Honest, LogOk, ViewedLog, ViewedOp, ViewedContent;
    var p, r, log := w.peers[i], w.peers[i].outbox[0], Viewed(w).log;
    var op := StepsOperation(r.steps);
    assert RequestOk(r, log, w.show) by {
      FirstRequest(p, log, w.show);
    }
    HeadKnown(Viewed(w));
    if r.base == w.row.version {
      RequestHonest(Viewed(w), r, w.show);
      RowOk(w, op, Some(r.doc), None);
      ViewedSteps(r.steps, w.show);
      var change := Change(w.row.version, w.row.version + 1, op);
      AnsweredOk(p, log, change, w.show);
      forall j | 0 <= j < |w.peers| && j != i
        ensures PeerOk(Heard(w.peers[j], Edited(w.row.version + 1, op)), log + [change], w.show)
      {
        HeardOk(w.peers[j], log, change, op, w.show);
      }
    } else {
      RefusedOk(p, log, w.row.content, w.show);
    }
  }

  lemma FirstRequest(p: Peer, log: seq<Change>, show: Editor)
    requires PeerOk(p, log, show) && p.outbox != []
    ensures RequestOk(p.outbox[0], log, show)
  {
  }

  lemma ServeOrphanOk(w: World, k: nat)
    requires WorldOk(w) && k < |w.orphans|
    ensures WorldOk(Act(w, ServeOrphan(k)))
  {
    hide PeerOk, RequestOk, Honest, LogOk, ViewedLog, ViewedOp, ViewedContent;
    var r := w.orphans[k];
    var w' := w.(orphans := Removed(w.orphans, k));
    if r.base == w.row.version {
      RequestHonest(Viewed(w), r, w.show);
      CommitOk(w', StepsOperation(r.steps), Some(r.doc), None);
    }
  }

  // One peer changes, its unread requests becoming orphans or not.
  lemma PeerChanges(w: World, i: nat, p: Peer, orphans: seq<Request>)
    requires WorldOk(w) && i < |w.peers| && PeerOk(p, Viewed(w).log, w.show)
    requires orphans == [] || orphans == w.peers[i].outbox
    ensures WorldOk(With(w, i, p).(orphans := w.orphans + orphans))
    ensures WorldOk(With(w, i, p))
  {
    assert PeerOk(w.peers[i], Viewed(w).log, w.show);
    hide LogOk, ChannelOk, ShownOk, RequestOk, ViewedLog;
  }

  lemma ActKeeps(w: World, a: Action)
    requires WorldOk(w) && Allowed(w, a)
    ensures WorldOk(Act(w, a))
  {
    hide PeerOk, RequestOk, Honest, LogOk, InView, ReplacesPending, Disconnected, Delivered, Flushed,
         Typed, Committed, Served, ViewedRow, ViewedOp, ViewedContent;
    match a
    case Type(i, steps, doc) =>
      if i < |w.peers| && ApplyAll(w.peers[i].client.doc, steps) == Some(doc) && ShownAsIs(doc, w.show) {
        TypeOk(w.peers[i], Viewed(w).log, steps, doc, w.show);
        PeerChanges(w, i, Typed(w.peers[i], steps, doc), []);
      }
    case FlushTimer(i) =>
      if i < |w.peers| {
        var (c, effect) := Flushed(w.peers[i].client);
        FlushOk(w.peers[i], Viewed(w).log, w.show);
        PeerChanges(w, i, Sending(w.peers[i].(client := c), effect), []);
      }
    case Connect(i) =>
      if i < |w.peers| {
        var p := Disconnected(w.peers[i]);
        DisconnectOk(w.peers[i], Viewed(w).log, w.show);
        PeerChanges(w, i, p.(client := p.client.(open := true)), w.peers[i].outbox);
      }
    case CloseEvent(i) =>
      if i < |w.peers| {
        var p := w.peers[i];
        DisconnectOk(p, Viewed(w).log, w.show);
        PeerChanges(w, i, Unplugged(p.(client := p.client.(open := false, live := false))), p.outbox);
      }
    case Silence(i) =>
      if i < |w.peers| {
        DisconnectOk(w.peers[i], Viewed(w).log, w.show);
        PeerChanges(w, i, Disconnected(w.peers[i]), w.peers[i].outbox);
      }
    case Join(i) =>
      if i < |w.peers| && w.peers[i].client.open && !w.peers[i].joined {
        JoinOk(w.peers[i], w.row, w.show);
        PeerChanges(w, i, w.peers[i].(joined := true,
                                      inbox := [Init(w.row.version, w.row.title, w.row.content)]), []);
      }
    case Deliver(i) =>
      if i < |w.peers| && w.peers[i].inbox != [] {
        LogReplays(Viewed(w));
        DeliveredOk(w.peers[i], Viewed(w).log, w.show);
        PeerChanges(w, i, Delivered(w.peers[i], w.show), w.peers[i].outbox);
      }
    case ServeEdit(i) =>
      if i < |w.peers| && w.peers[i].joined && w.peers[i].outbox != [] {
        ServeEditOk(w, i);
      }
    case ServeOrphan(k) =>
      if k < |w.orphans| {
        ServeOrphanOk(w, k);
      }
    case ServerWrite(op, content, title) =>
      ViewedHonest(w.row, op, content, title, w.show);
      CommitOk(w, op, content, title);
  }

  lemma LogReplays(row: Row)
    requires LogOk(row)
    ensures Replay(row.log).Some?
  {
  }

  lemma {:induction false} RunKeeps(w: World, actions: seq<Action>)
    requires WorldOk(w) && AllowedRun(w, actions)
    ensures WorldOk(Run(w, actions))
    decreases |actions|
  {
    hide WorldOk, Allowed, Act;
    if actions != [] {
      ActKeeps(w, actions[0]);
      RunKeeps(Act(w, actions[0]), actions[1..]);
    }
  }

  function Start(title: string, content: Option<Content>, n: nat, show: Editor): World {
    World(Created(title, content), seq(n, i => NEW_PEER), [], show)
  }

  lemma StartOk(title: string, content: Option<Content>, n: nat, show: Editor)
    ensures WorldOk(Start(title, content, n, show))
  {
    ViewedCreated(title, content, show);
    FreshPeerOk(ViewedRow(Created(title, content), show).log, show);
    hide PeerOk, LogOk, ViewedRow;
  }

  // What `isSettled` and `currentVersion` are read together for: the editor
  // shows the document of that version, and a client that is connected and has
  // read everything shows the head.
  predicate Agrees(p: Peer, row: Row) {
    && Known(row.log, p.client.version)
    && At(row.log, p.client.version).value == State(p.client.title, p.client.doc)
    && (p.client.live && p.inbox == [] ==>
          State(p.client.title, p.client.doc) == State(row.title, row.content))
  }

  // In every reachable state the log, as clients view it, replays to what they
  // show of the head, and a settled client that has dropped no edit since its
  // init agrees with it, connected or not. A connected client has dropped none.
  lemma SettledClientsAgree(title: string, content: Option<Content>, n: nat, show: Editor, actions: seq<Action>, i: nat)
    requires AllowedRun(Start(title, content, n, show), actions)
    requires i < |Run(Start(title, content, n, show), actions).peers|
    ensures var w := Run(Start(title, content, n, show), actions);
            var p := w.peers[i];
            && LogOk(ViewedRow(w.row, show))
            && (p.client.live ==> p.client.version >= 1 && !p.dropped)
            && (Settled(p.client) && p.client.version >= 1 && !p.dropped ==> Agrees(p, ViewedRow(w.row, show)))
  {
    var w0 := Start(title, content, n, show);
    StartOk(title, content, n, show);
    RunKeeps(w0, actions);
    SameEditor(w0, actions);
    hide Run, Start;
    SettledAgrees(Run(w0, actions), i);
  }

  lemma {:induction false} SameEditor(w: World, actions: seq<Action>)
    ensures Run(w, actions).show == w.show
    decreases |actions|
  {
    if actions != [] {
      SameEditor(Act(w, actions[0]), actions[1..]);
      hide Delivered, Flushed, Typed, Disconnected, Broadcast;
    }
  }

  lemma SettledAgrees(w: World, i: nat)
    requires WorldOk(w) && i < |w.peers|
    ensures var p := w.peers[i];
            && LogOk(Viewed(w))
            && (p.client.live ==> p.client.version >= 1 && !p.dropped)
            && (Settled(p.client) && p.client.version >= 1 && !p.dropped ==> Agrees(p, Viewed(w)))
  {
    var p := w.peers[i];
    assert PeerOk(p, Viewed(w).log, w.show);
    hide Replay, RequestOk, ViewedLog;
    if Settled(p.client) && p.client.version >= 1 && !p.dropped {
      assert p.top == [];
      NothingLocal(ContentAt(Viewed(w).log, p.shown), p.top);
      HeadKnown(Viewed(w));
    }
  }

  // ----- when the server's own log replays, too -----

  // No edit is accepted on a document that clients are shown as another.
  predicate SeesAsIs(w: World, a: Action) {
    match a
    case ServeEdit(i) =>
      i < |w.peers| && w.peers[i].outbox != [] && w.peers[i].outbox[0].base == w.row.version ==>
        ShownAsIs(w.row.content, w.show)
    case ServeOrphan(k) =>
      k < |w.orphans| && w.orphans[k].base == w.row.version ==> ShownAsIs(w.row.content, w.show)
    case _ => true
  }

  predicate RunSeesAsIs(w: World, actions: seq<Action>)
    decreases |actions|
  {
    actions == [] || (SeesAsIs(w, actions[0]) && RunSeesAsIs(Act(w, actions[0]), actions[1..]))
  }

  lemma ServedKeepsLog(w: World, r: Request, author: Option<nat>)
    requires LogOk(w.row) && LogOk(Viewed(w)) && RequestOk(r, Viewed(w).log, w.show)
    requires r.base == w.row.version ==> ShownAsIs(w.row.content, w.show)
    ensures LogOk(Served(w, r, author).row)
  {
    if r.base == w.row.version {
      HeadKnown(Viewed(w));
      hide LogOk, ApplyAll, Broadcast, ViewedLog;
      StepsHonest(w.row, r.steps, r.doc);
      ChangeKeepsLog(w.row, StepsOperation(r.steps), Some(r.doc), None);
    }
  }

  lemma ActKeepsLog(w: World, a: Action)
    requires WorldOk(w) && Allowed(w, a) && SeesAsIs(w, a) && LogOk(w.row)
    ensures LogOk(Act(w, a).row)
  {
    hide LogOk, PeerOk, RequestOk, Honest, InView, Viewed, Served, Delivered, Flushed, Typed, Disconnected, Broadcast;
    match a
    case ServeEdit(i) =>
      if i < |w.peers| && w.peers[i].joined && w.peers[i].outbox != [] {
        var p := w.peers[i];
        assert RequestOk(p.outbox[0], Viewed(w).log, w.show) by {
          FirstRequest(p, Viewed(w).log, w.show);
        }
        var w' := With(w, i, p.(outbox := p.outbox[1..]));
        assert Viewed(w') == Viewed(w) by {
          SameView(w, w');
        }
        ServedKeepsLog(w', p.outbox[0], Some(i));
      }
    case ServeOrphan(k) =>
      if k < |w.orphans| {
        var w' := w.(orphans := Removed(w.orphans, k));
        assert Viewed(w') == Viewed(w) by {
          SameView(w, w');
        }
        ServedKeepsLog(w', w.orphans[k], None);
      }
    case ServerWrite(op, content, title) => ChangeKeepsLog(w.row, op, content, title);
    case _ =>
  }

  lemma SameView(w: World, v: World)
    requires v.row == w.row && v.show == w.show
    ensures Viewed(v) == Viewed(w)
  {
  }

  // The server's log replays to its head over every run in which no edit is
  // accepted on a document that clients are shown as another.
  lemma {:induction false} LogKeepsReplaying(w: World, actions: seq<Action>)
    requires WorldOk(w) && LogOk(w.row) && AllowedRun(w, actions) && RunSeesAsIs(w, actions)
    ensures LogOk(Run(w, actions).row)
    decreases |actions|
  {
    hide WorldOk, LogOk, Allowed, SeesAsIs, Act;
    if actions != [] {
      ActKeeps(w, actions[0]);
      ActKeepsLog(w, actions[0]);
      LogKeepsReplaying(Act(w, actions[0]), actions[1..]);
    }
  }

  // ----- when the server's documents are shown as they are -----

  // Whole documents written from outside are shown as they are.
  predicate WritesPlain(a: Action, show: Editor) {
    a.ServerWrite? ==>
      && (a.op.replace.Some? ==> ShownAsIs(a.op.replace.value, show))
      && (a.content.Some? ==> ShownAsIs(a.content.value, show))
  }

  lemma ActKeepsPlain(w: World, a: Action)
    requires WorldOk(w) && Plain(w.row, w.show) && WritesPlain(a, w.show)
    ensures Plain(Act(w, a).row, w.show) && SeesAsIs(w, a)
  {
    hide LogOk, ChannelOk, ShownOk, Known, Delivered, Flushed, Typed, Disconnected, Broadcast, ViewedLog;
    match a
    case ServeEdit(i) =>
      if i < |w.peers| && w.peers[i].joined && w.peers[i].outbox != [] {
        FirstRequest(w.peers[i], Viewed(w).log, w.show);
      }
    case _ =>
  }

  lemma {:induction false} RunKeepsPlain(w: World, actions: seq<Action>)
    requires WorldOk(w) && AllowedRun(w, actions) && Plain(w.row, w.show)
    requires forall k :: 0 <= k < |actions| ==> WritesPlain(actions[k], w.show)
    ensures Plain(Run(w, actions).row, w.show) && RunSeesAsIs(w, actions)
    decreases |actions|
  {
    hide WorldOk, Allowed, SeesAsIs, Act, Plain, WritesPlain;
    if actions != [] {
      ActKeeps(w, actions[0]);
      ActKeepsPlain(w, actions[0]);
      SameEditor(w, actions[..1]);
      assert actions[..1] == [actions[0]] && [actions[0]][1..] == [];
      RunKeepsPlain(Act(w, actions[0]), actions[1..]);
    }
  }

  // Created with, and replaced by, documents shown as they are, a document's
  // log replays to its head, and settled clients show the server's own document
  // at their version.
  lemma PlainClientsAgree(title: string, content: Content, n: nat, show: Editor, actions: seq<Action>, i: nat)
    requires AllowedRun(Start(title, Some(content), n, show), actions)
    requires ShownAsIs(content, show) && forall k :: 0 <= k < |actions| ==> WritesPlain(actions[k], show)
    requires i < |Run(Start(title, Some(content), n, show), actions).peers|
    ensures var w := Run(Start(title, Some(content), n, show), actions);
            var p := w.peers[i];
            && LogOk(w.row)
            && (Settled(p.client) && p.client.version >= 1 && !p.dropped ==> Agrees(p, w.row))
  {
    var w0 := Start(title, Some(content), n, show);
    StartOk(title, Some(content), n, show);
    SettledClientsAgree(title, Some(content), n, show, actions, i);
    RunKeepsPlain(w0, actions);
    SameEditor(w0, actions);
    PlainIsViewed(Run(w0, actions).row, show);
  }
}
