// The client's end of one document: edits go out one at a time, peers' steps
// are replayed only when nothing local is outstanding.
module Socket {
  import opened Wrappers
  import opened DocumentStore

  datatype Batch = Batch(steps: seq<Step>, doc: Content)

  // What the server sends that touches the document.
  datatype Message =
    | Init(version: nat, title: string, content: Content)
    | Ack(version: nat)
    | Edited(version: nat, operation: Operation)
    | Rejected(version: nat, content: Content)

  datatype Request = Request(base: nat, steps: seq<Step>, doc: Content)

  // `open`: the socket is OPEN; `live`: its init has been handled. `doc` and
  // `title` are what the editor shows.
  datatype Client = Client(
    version: nat, title: string, doc: Content,
    pending: Option<Batch>, awaiting: bool,
    open: bool, live: bool)

  // What a handler does besides changing the client's own state.
  datatype Effect = Nothing | Send(request: Request) | Reconnect

  function Queued(c: Client, steps: seq<Step>, doc: Content): Client {
    c.(pending := Some(Batch((if c.pending.Some? then c.pending.value.steps else []) + steps, doc)), doc := doc)
  }

  // Sends the pending batch, unless one is on the wire or there is no socket.
  function Flushed(c: Client): (Client, Effect) {
    if c.awaiting || c.pending.None? || !c.open then (c, Nothing)
    else (c.(pending := None, awaiting := true),
          Send(Request(c.version, c.pending.value.steps, c.pending.value.doc)))
  }

  // `dropSocket`: nothing is waited for any more; what was typed stays pending.
  function Dropped(c: Client): Client {
    c.(open := false, live := false, awaiting := false)
  }

  function Resynced(c: Client): (Client, Effect) {
    (Dropped(c.(pending := None)), Reconnect)
  }

  function Titled(c: Client, title: Option<string>): Client {
    if title.Some? then c.(title := title.value) else c
  }

  function Handled(c: Client, message: Message, show: Editor): (Client, Effect) {
    match message
    case Init(version, title, content) =>
      (c.(version := version, title := title, doc := show(content), pending := None, awaiting := false, live := true),
       Nothing)
    case Ack(version) => Flushed(c.(awaiting := false, version := version))
    case Edited(version, op) =>
      var d := Titled(c.(version := version), op.title);
      if op.replace.Some? then (d.(doc := show(op.replace.value)), Nothing)
      else if op.steps.None? then (d, Nothing)
      else if d.pending.Some? || d.awaiting then Resynced(d)
      else if ApplyAll(d.doc, op.steps.value).None? then Resynced(d)
      else (d.(doc := ApplyAll(d.doc, op.steps.value).value), Nothing)
    case Rejected(version, content) =>
      (c.(awaiting := false, pending := None, version := version, doc := show(content)), Nothing)
  }

  // Every local edit has been acknowledged.
  predicate Settled(c: Client) {
    c.pending.None? && !c.awaiting
  }

  // The hook itself: refs that every handler changes.
  class DocumentSocket {
    const show: Editor
    var version: nat
    var title: string
    var doc: Content
    var pending: Option<Batch>
    var awaiting: bool
    var open: bool
    var live: bool
    var generation: nat  // bumped per connect, so a replaced socket is ignored

    ghost function Current(): Client
      reads this
    {
      Client(version, title, doc, pending, awaiting, open, live)
    }

    constructor (show: Editor)
      ensures this.show == show
      ensures Current() == Client(0, "", [], None, false, false, false)
    {
      this.show := show;
      version, title, doc, pending := 0, "", [], None;
      awaiting, open, live, generation := false, false, false, 0;
    }

    method QueueEdit(steps: seq<Step>, doc: Content)
      modifies this
      ensures Current() == Queued(old(Current()), steps, doc) && generation == old(generation)
      ensures this.doc == doc && pending.Some? && pending.value.doc == doc
      ensures pending.value.steps == (if old(pending).Some? then old(pending).value.steps else []) + steps
    {
      pending := Some(Batch((if pending.Some? then pending.value.steps else []) + steps, doc));
      this.doc := doc;
    }

    method Flush() returns (effect: Effect)
      modifies this
      ensures (Current(), effect) == Flushed(old(Current())) && generation == old(generation)
      ensures if old(pending.Some? && !awaiting && open)
              then && effect == Send(Request(version, old(pending).value.steps, old(pending).value.doc))
                   && pending.None? && awaiting
              else effect == Nothing && pending == old(pending) && awaiting == old(awaiting)
      ensures version == old(version) && doc == old(doc)
    {
      if awaiting || pending.None? {
        return Nothing;
      }
      if !open {
        return Nothing;
      }
      var batch := pending.value;
      pending := None;
      awaiting := true;
      return Send(Request(version, batch.steps, batch.doc));
    }

    method DropSocket()
      modifies this
      ensures Current() == Dropped(old(Current())) && generation == old(generation)
      ensures !open && !live && !awaiting && pending == old(pending) && doc == old(doc) && version == old(version)
    {
      open, live, awaiting := false, false, false;
    }

    method Resync() returns (effect: Effect)
      modifies this
      ensures (Current(), effect) == Resynced(old(Current())) && generation == old(generation)
    {
      pending := None;
      DropSocket();
      return Reconnect;
    }

    // Opens the next socket; replies to earlier ones are ignored from here on.
    method Connect() returns (attempt: nat)
      modifies this
      ensures Current() == Dropped(old(Current())).(open := true)
      ensures attempt == generation == old(generation) + 1
    {
      DropSocket();
      generation := generation + 1;
      open := true;
      return generation;
    }

    method OnMessage(attempt: nat, message: Message) returns (effect: Effect)
      modifies this
      ensures generation == old(generation)
      ensures attempt != generation ==> Current() == old(Current()) && effect == Nothing
      ensures attempt == generation ==> (Current(), effect) == Handled(old(Current()), message, show)
    {
      if attempt != generation {
        return Nothing;
      }
      effect := Handle(message);
    }

    // An init or a rejection leaves nothing local. An ack sends what was typed
    // while the edit was on the wire. A whole document is shown, and nothing
    // else about it changes; steps are replayed if nothing local is outstanding
    // and they apply, and otherwise the client lets go of all it has and
    // reconnects.
    method Handle(message: Message) returns (effect: Effect)
      modifies this
      ensures message.Init? ==>
                && version == message.version && title == message.title && doc == show(message.content)
                && pending.None? && !awaiting && live && open == old(open) && effect == Nothing
      ensures message.Ack? && old(pending.Some? && open) ==>
                && version == message.version && doc == old(doc) && pending.None? && awaiting
                && effect == Send(Request(message.version, old(pending).value.steps, old(pending).value.doc))
      ensures message.Ack? && !old(pending.Some? && open) ==>
                && version == message.version && doc == old(doc)
                && pending == old(pending) && !awaiting && effect == Nothing
      ensures message.Rejected? ==>
                && version == message.version && doc == show(message.content)
                && pending.None? && !awaiting && effect == Nothing
      ensures message.Edited? ==>
                version == message.version
                && title == if message.operation.title.Some? then message.operation.title.value else old(title)
      ensures message.Edited? && message.operation.replace.Some? ==>
                && doc == show(message.operation.replace.value)
                && pending == old(pending) && awaiting == old(awaiting) && effect == Nothing
      ensures message.Edited? && message.operation.replace.None? && message.operation.steps.None? ==>
                doc == old(doc) && pending == old(pending) && awaiting == old(awaiting) && effect == Nothing
      ensures message.Edited? && message.operation.replace.None? && message.operation.steps.Some? ==>
                var replayed := ApplyAll(old(doc), message.operation.steps.value);
                if old(pending.None? && !awaiting) && replayed.Some?
                then doc == replayed.value && pending.None? && !awaiting && effect == Nothing
                else doc == old(doc) && pending.None? && !awaiting && !open && !live && effect == Reconnect
      ensures (Current(), effect) == Handled(old(Current()), message, show) && generation == old(generation)
    {
      effect := Nothing;
      match message {
        case Init(v, t, content) =>
          version, title, pending, awaiting, live := v, t, None, false, true;
          doc := show(content);
        case Ack(v) =>
          awaiting := false;
          version := v;
          effect := Flush();
        case Edited(v, op) =>
          version := v;
          if op.title.Some? {
            title := op.title.value;
          }
          if op.replace.Some? {
            doc := show(op.replace.value);
            return;
          }
          if op.steps.None? {
            return;
          }
          if pending.Some? || awaiting {
            effect := Resync();
            return;
          }
          var replayed := ApplyAll(doc, op.steps.value);
          if replayed.None? {
            effect := Resync();
            return;
          }
          doc := replayed.value;
        case Rejected(v, content) =>
          awaiting, pending, version := false, None, v;
          doc := show(content);
      }
    }

    method IsSettled() returns (settled: bool)
      ensures settled == Settled(Current())
    {
      return pending.None? && !awaiting;
    }
  }
}
