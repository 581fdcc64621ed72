// One generation from its first token to the last reader that hears of its end.
module AiStream {
  import opened Wrappers
  import opened AiQueries

  // An entry of the generation's buffer; its id is its place.
  datatype Entry =
    | Token(text: string)
    | Done(response: string)
    | Error(code: string)
    | Stopped

  const BATCH: nat := 500

  // ----- the buffer -----

  // At most a batch of the entries after the one last seen.
  function ReadAfter(entries: seq<Entry>, after: nat): seq<Entry>
    requires after <= |entries|
  {
    if |entries| - after <= BATCH then entries[after..] else entries[after..after + BATCH]
  }

  function TerminalEvent(outcome: Outcome): Entry {
    match outcome.status
    case Completed => Done(if outcome.response.Some? then outcome.response.value else "")
    case Cancelled => Stopped
    case _ => Error(if outcome.error.Some? then outcome.error.value else "ai.failed")
  }

  function TerminalFromRow(row: Row): Entry {
    match row.status
    case Completed => Done(if row.response.Some? then row.response.value else "")
    case Cancelled => Stopped
    case _ => Error(if row.error.Some? then row.error.value else "ai.failed")
  }

  // ----- the runner -----

  // What the runner meets next: a look at the control keys and the clock, or
  // something from the provider. A piece may fail to reach the buffer.
  datatype Item =
    | Check(cancelled: bool, reading: bool, overdue: bool)
    | Piece(text: string, stored: bool)
    | Reported(usage: Usage)
    | Refused(code: string)
    | Raised

  datatype Runner =
    | Relaying(produced: seq<string>)
    | Recording(produced: seq<string>, outcome: Outcome)
    | Publishing(outcome: Outcome)
    | Gone

  function Join(texts: seq<string>): string {
    if texts == [] then "" else Join(texts[..|texts| - 1]) + texts[|texts| - 1]
  }

  function FailedWith(code: string): Outcome {
    Outcome(Failed, None, Some(code), None)
  }

  function Relayed(produced: seq<string>, item: Item): Runner {
    match item
    case Check(cancelled, reading, overdue) =>
      if cancelled || !reading then Recording(produced, Outcome(Cancelled, None, None, None))
      else if overdue then Recording(produced, FailedWith("ai.timeout"))
      else Relaying(produced)
    case Piece(text, stored) =>
      if stored then Relaying(produced + [text]) else Recording(produced + [text], FailedWith("ai.failed"))
    case Reported(usage) => Recording(produced, Outcome(Completed, Some(Join(produced)), None, Some(usage)))
    case Refused(code) => Recording(produced, FailedWith(code))
    case Raised => Recording(produced, FailedWith("ai.failed"))
  }

  function Stored(item: Item): seq<Entry> {
    if item.Piece? && item.stored then [Token(item.text)] else []
  }

  // Usage is estimated where the provider reported none.
  function WithUsage(outcome: Outcome, produced: seq<string>, estimate: Usage): Outcome {
    if outcome.usage.Some? || (outcome.status.Failed? && produced == []) then outcome
    else outcome.(usage := Some(estimate))
  }

  // What is published: the outcome, unless the row did not take it.
  function Published(outcome: Outcome, raised: bool, recorded: bool): Outcome {
    if raised then FailedWith("server.error") else if !recorded then FailedWith("ai.timeout") else outcome
  }

  class Buffer {
    var entries: seq<Entry>

    constructor ()
      ensures entries == []
    {
      entries := [];
    }

    method Append(entry: Entry)
      modifies this
      ensures entries == old(entries) + [entry]
    {
      entries := entries + [entry];
    }

    // What follows the entry last seen, without a gap: all of it, or a batch.
    method Read(after: nat) returns (batch: seq<Entry>)
      requires after <= |entries|
      ensures batch == ReadAfter(entries, after)
      ensures entries[..after] + batch <= entries
      ensures |batch| <= BATCH && (|batch| < BATCH ==> entries[..after] + batch == entries)
    {
      batch := if |entries| - after <= BATCH then entries[after..] else entries[after..after + BATCH];
    }
  }

  // ----- the system: the row, the buffer, the runner and one reader -----

  datatype Follower =
    | Away
    | Live(pending: seq<Entry>)      // sent by a loop that will read again
    | LastRead                       // about to read once more
    | Closing(pending: seq<Entry>)   // the row's end follows, unless an end is among these
    | Ending(event: Entry)           // the row's end, on its way

  // What the reader got, the place of the last entry it knows, and whether it
  // has heard of the end.
  datatype Reader = Reader(got: seq<Entry>, last: nat, over: bool, follower: Follower)

  // `log` is all the buffer ever held, and `kept` whether it still does.
  datatype World = World(row: Row, log: seq<Entry>, kept: bool, runner: Runner, reader: Reader)

  datatype Act =
    | Relay(item: Item)
    | Shutdown
    | Record(estimate: Usage, raised: bool, committed: bool, now: nat)
    | Publish(lost: bool)
    | Crash
    | Expire(now: nat)                // by a creator, or another reader's end
    | Abandon(now: nat)
    | Forget
    | Connect
    | Read
    | RunnerDead
    | Deliver
    | End(now: nat)
    | Drop

  function Entries(w: World): seq<Entry>
    requires w.reader.last <= |w.log|
  {
    if w.kept then ReadAfter(w.log, w.reader.last) else []
  }

  function EndedRow(row: Row, outcome: Outcome, now: nat): Row {
    if row.status.Streaming? then Ended(row, outcome, now) else row
  }

  function RunnerStep(w: World, act: Act): World {
    match (act, w.runner)
    case (Relay(item), Relaying(produced)) =>
      w.(runner := Relayed(produced, item), log := w.log + Stored(item))
    case (Shutdown, Relaying(produced)) => w.(runner := Recording(produced, FailedWith("ai.interrupted")))
    case (Record(estimate, raised, committed, now), Recording(produced, outcome)) =>
      var final := WithUsage(outcome, produced, estimate);
      w.(row := if raised && !committed then w.row else EndedRow(w.row, final, now),
         runner := Publishing(Published(final, raised, w.row.status.Streaming?)))
    case (Publish(lost), Publishing(outcome)) =>
      w.(log := if lost then w.log else w.log + [TerminalEvent(outcome)], runner := Gone)
    case (Crash, _) => w.(runner := Gone)
    case _ => w
  }

  function ReaderStep(w: World, act: Act): World {
    var r := w.reader;
    match (act, r.follower)
    case (Connect, Away) =>
      if r.over then w
      else w.(reader := r.(follower := if w.row.status.Streaming? then Live([]) else LastRead))
    case (Read, Live(pending)) =>
      if pending == [] && r.last <= |w.log| then w.(reader := r.(follower := Live(Entries(w)))) else w
    case (Read, LastRead) =>
      if r.last <= |w.log| then w.(reader := r.(follower := Closing(Entries(w)))) else w
    case (RunnerDead, Live(pending)) => if pending == [] then w.(reader := r.(follower := LastRead)) else w
    case (Deliver, Live(pending)) =>
      if pending == [] then w
      else if pending[0].Token? then w.(reader := Reader(r.got + [pending[0]], r.last + 1, false, Live(pending[1..])))
      else w.(reader := Reader(r.got + [pending[0]], r.last + 1, true, Away))
    case (Deliver, Closing(pending)) =>
      if pending == [] then w
      else if pending[0].Token? then w.(reader := Reader(r.got + [pending[0]], r.last + 1, false, Closing(pending[1..])))
      else w.(reader := Reader(r.got + [pending[0]], r.last + 1, true, Away))
    case (End(now), Closing(pending)) =>
      if pending != [] then w
      else
        var row := EndedRow(w.row, FailedWith("ai.interrupted"), now);
        w.(row := row, reader := r.(follower := Ending(TerminalFromRow(row))))
    case (Deliver, Ending(event)) => w.(reader := Reader(r.got + [event], r.last, true, Away))
    case (Drop, _) => w.(reader := r.(follower := Away))
    case _ => w
  }

  function Step(w: World, act: Act): World {
    match act
    case Relay(_) => RunnerStep(w, act)
    case Shutdown => RunnerStep(w, act)
    case Record(_, _, _, _) => RunnerStep(w, act)
    case Publish(_) => RunnerStep(w, act)
    case Crash => RunnerStep(w, act)
    case Expire(now) => if w.row.status.Streaming? then w.(row := TimedOut(w.row, now)) else w
    case Abandon(now) => w.(row := EndedRow(w.row, FailedWith("ai.interrupted"), now))
    case Forget => if w.runner.Gone? then w.(kept := false) else w
    case _ => ReaderStep(w, act)
  }

  function Start(createdAt: nat): World {
    World(NewRow(createdAt), [], true, Relaying([]), Reader([], 0, false, Away))
  }

  function Run(w: World, acts: seq<Act>): World {
    if acts == [] then w else Step(Run(w, acts[..|acts| - 1]), acts[|acts| - 1])
  }

  // ----- the runner's loop, as a run of its steps -----

  function Relays(items: seq<Item>): (acts: seq<Act>)
    ensures |acts| == |items|
  {
    seq(|items|, i requires 0 <= i < |items| => Relay(items[i]))
  }

  // It meets no end only when its worker shuts down.
  function RelayActs(items: seq<Item>): seq<Act> {
    Relays(items) + [Shutdown]
  }

  function AsTokens(texts: seq<string>): seq<Entry> {
    seq(|texts|, i requires 0 <= i < |texts| => Token(texts[i]))
  }

  lemma OneMoreToken(texts: seq<string>, text: string)
    ensures AsTokens(texts + [text]) == AsTokens(texts) + [Token(text)]
  {
  }

  lemma RelaysNext(w: World, items: seq<Item>, n: nat)
    requires n < |items|
    ensures Run(w, Relays(items[..n + 1])) == Step(Run(w, Relays(items[..n])), Relay(items[n]))
  {
    hide Step;
    assert Relays(items[..n + 1])[..n] == Relays(items[..n]);
  }

  // Once it has an outcome, what it would meet changes nothing.
  lemma {:induction false} RelaysOver(w: World, items: seq<Item>, n: nat, m: nat)
    requires n <= m <= |items| && Run(w, Relays(items[..n])).runner.Recording?
    ensures Run(w, Relays(items[..m])) == Run(w, Relays(items[..n]))
    decreases m
  {
    if n < m {
      RelaysOver(w, items, n, m - 1);
      RelaysNext(w, items, m - 1);
    }
  }

  lemma RelayEnds(w: World, items: seq<Item>, n: nat)
    requires n <= |items|
    ensures Run(w, Relays(items[..n])).runner.Recording? ==> Run(w, RelayActs(items)) == Run(w, Relays(items[..n]))
    ensures n == |items| ==> Run(w, RelayActs(items)) == Step(Run(w, Relays(items[..n])), Shutdown)
  {
    assert RelayActs(items)[..|items|] == Relays(items);
    assert items[..|items|] == items;
    if Run(w, Relays(items[..n])).runner.Recording? {
      RelaysOver(w, items, n, |items|);
    }
  }

  ghost predicate Ran(w: World, items: seq<Item>, n: nat, runner: Runner, log: seq<Entry>) {
    n <= |items| && Run(w, Relays(items[..n])) == w.(runner := runner, log := log)
  }

  lemma NoneRan(w: World, items: seq<Item>)
    ensures Ran(w, items, 0, w.runner, w.log)
  {
    assert Relays(items[..0]) == [];
  }

  lemma OneRan(w: World, items: seq<Item>, n: nat, produced: seq<string>, log: seq<Entry>)
    requires n < |items| && Ran(w, items, n, Relaying(produced), log)
    ensures Ran(w, items, n + 1, Relayed(produced, items[n]), log + Stored(items[n]))
  {
    RelaysNext(w, items, n);
    hide Run, Relays, Relayed;
  }

  lemma RanOut(w: World, items: seq<Item>, n: nat, runner: Runner, log: seq<Entry>)
    requires Ran(w, items, n, runner, log)
    ensures runner.Recording? ==> Run(w, RelayActs(items)) == w.(runner := runner, log := log)
    ensures n == |items| && runner.Relaying? ==>
              Run(w, RelayActs(items))
              == w.(runner := Recording(runner.produced, FailedWith("ai.interrupted")), log := log)
  {
    RelayEnds(w, items, n);
    hide Run, RelayActs, Relays;
  }

  predicate Buffered(before: seq<Entry>, entries: seq<Entry>, produced: seq<string>) {
    entries == before + AsTokens(produced)
  }

  lemma NoneBuffered(entries: seq<Entry>)
    ensures Buffered(entries, entries, [])
  {
  }

  lemma NothingMore(entries: seq<Entry>)
    ensures entries + [] == entries
  {
  }

  lemma OneBuffered(before: seq<Entry>, entries: seq<Entry>, produced: seq<string>, text: string)
    requires Buffered(before, entries, produced)
    ensures Buffered(before, entries + [Token(text)], produced + [text])
    ensures (produced + [text])[..|produced|] == produced
  {
    OneMoreToken(produced, text);
    assert entries + [Token(text)] == before + (AsTokens(produced) + [Token(text)]);
  }

  predicate Passes(item: Item) {
    || (item.Check? && !item.cancelled && item.reading && !item.overdue)
    || (item.Piece? && item.stored)
  }

  predicate Fails(outcome: Outcome, code: string) {
    outcome.status.Failed? && outcome.error == Some(code) && outcome.response.None? && outcome.usage.None?
  }

  // How a generation ends at the first item it does not pass.
  predicate EndsAt(item: Item, produced: seq<string>, outcome: Outcome) {
    match item
    case Check(cancelled, reading, _) =>
      if reading && !cancelled then Fails(outcome, "ai.timeout")
      else outcome.status.Cancelled? && outcome.usage.None?
    case Piece(text, _) => Fails(outcome, "ai.failed") && produced != [] && produced[|produced| - 1] == text
    case Reported(usage) =>
      outcome.status.Completed? && outcome.response == Some(Join(produced)) && outcome.usage == Some(usage)
    case Refused(code) => Fails(outcome, code)
    case Raised => Fails(outcome, "ai.failed")
  }

  class GenerationRunner {
    const buffer: Buffer
    var produced: seq<string>

    constructor (buffer: Buffer)
      ensures this.buffer == buffer && produced == []
    {
      this.buffer := buffer;
      produced := [];
    }

    // Whatever else the system's state `w` holds, the loop is a run of the
    // runner's steps. What it put in the buffer is what it was given, but for a
    // piece that failed to get there; an answer is all of it.
    // The first item it does not pass, the one numbered `n`, says how it ends.
    method Relay(items: seq<Item>, ghost w: World) returns (outcome: Outcome, ghost n: nat)
      requires produced == [] && w.runner == Relaying([]) && w.log == buffer.entries
      modifies this, buffer
      ensures Run(w, RelayActs(items)) == w.(runner := Recording(produced, outcome), log := buffer.entries)
      ensures || Buffered(old(buffer.entries), buffer.entries, produced)
              || (produced != [] && Buffered(old(buffer.entries), buffer.entries, produced[..|produced| - 1]))
      ensures outcome.status.Completed? ==>
                outcome.response == Some(Join(produced)) && Buffered(old(buffer.entries), buffer.entries, produced)
      ensures n <= |items| && forall k :: 0 <= k < n ==> Passes(items[k])
      ensures if n == |items| then Fails(outcome, "ai.interrupted")
              else !Passes(items[n]) && EndsAt(items[n], produced, outcome)
    {
      hide Join, Run, RelayActs, Relays, AsTokens, Ran, Buffered;
      NoneRan(w, items);
      NoneBuffered(buffer.entries);
      for i := 0 to |items|
        invariant Ran(w, items, i, Relaying(produced), buffer.entries)
        invariant Buffered(old(buffer.entries), buffer.entries, produced)
        invariant forall k :: 0 <= k < i ==> Passes(items[k])
      {
        n := i;
        OneRan(w, items, i, produced, buffer.entries);
        RanOut(w, items, i + 1, Relayed(produced, items[i]), buffer.entries + Stored(items[i]));
        NothingMore(buffer.entries);
        match items[i]
        case Check(cancelled, reading, overdue) =>
          if cancelled || !reading {
            outcome := Outcome(Cancelled, None, None, None);
            return;
          }
          if overdue {
            outcome := FailedWith("ai.timeout");
            return;
          }
        case Reported(usage) =>
          outcome := Outcome(Completed, Some(Join(produced)), None, Some(usage));
          return;
        case Refused(code) =>
          outcome := FailedWith(code);
          return;
        case Raised =>
          outcome := FailedWith("ai.failed");
          return;
        case Piece(text, stored) =>
          OneBuffered(old(buffer.entries), buffer.entries, produced, text);
          produced := produced + [text];
          if !stored {
            outcome := FailedWith("ai.failed");
            return;
          }
          buffer.Append(Token(text));
      }
      n := |items|;
      RanOut(w, items, n, Relaying(produced), buffer.entries);
      outcome := FailedWith("ai.interrupted");
    }

    // The row first, then the terminal event.
    method Finish(workspace: Workspace, id: nat, outcome: Outcome, estimate: Usage, raised: bool, committed: bool)
      modifies buffer, workspace`rows
      ensures var final := WithUsage(outcome, produced, estimate);
              var streaming := id < |old(workspace.rows)| && old(workspace.rows)[id].status.Streaming?;
              && workspace.rows == (if raised && !committed then old(workspace.rows)
                                    else Finished(old(workspace.rows), id, final, workspace.now))
              && buffer.entries == old(buffer.entries) + [TerminalEvent(Published(final, raised, streaming))]
      ensures |buffer.entries| == |old(buffer.entries)| + 1
      ensures var event := buffer.entries[|old(buffer.entries)|];
              var streaming := id < |old(workspace.rows)| && old(workspace.rows)[id].status.Streaming?;
              && (raised ==> event == Error("server.error"))
              && (!raised && !streaming ==> event == Error("ai.timeout"))
              && (!raised && streaming && !outcome.status.Streaming? ==>
                    && (event.Stopped? <==> outcome.status.Cancelled?)
                    && (event.Error? <==> outcome.status.Failed?)
                    && (event.Done? <==> outcome.status.Completed?)
                    && (event.Error? && outcome.error.Some? ==> event.code == outcome.error.value)
                    && (event.Done? && outcome.response.Some? ==> event.response == outcome.response.value))
      ensures var streaming := id < |old(workspace.rows)| && old(workspace.rows)[id].status.Streaming?;
              streaming && (!raised || committed) && outcome.usage.None? ==>
                workspace.rows[id].usage == if outcome.status.Failed? && produced == [] then None else Some(estimate)
      ensures var streaming := id < |old(workspace.rows)| && old(workspace.rows)[id].status.Streaming?;
              streaming && (!raised || committed) && outcome.usage.Some? ==> workspace.rows[id].usage == outcome.usage
    {
      var final := WithUsage(outcome, produced, estimate);
      var recorded := false;
      if !raised || committed {
        recorded := workspace.Finish(id, final);
      }
      buffer.Append(TerminalEvent(Published(final, raised, recorded)));
    }
  }
}
