// What holds of a generation in every reachable state.
module AiStreamLaws {
  import opened Wrappers
  import opened AiQueries
  import opened AiStream

  // The texts of the tokens among some entries.
  function Texts(entries: seq<Entry>): seq<string> {
    if entries == [] then []
    else
      var last := entries[|entries| - 1];
      Texts(entries[..|entries| - 1]) + if last.Token? then [last.text] else []
  }

  lemma TextsMore(entries: seq<Entry>, e: Entry)
    ensures Texts(entries + [e]) == Texts(entries) + if e.Token? then [e.text] else []
  {
    assert (entries + [e])[..|entries|] == entries;
  }

  // Joined, texts keep their order.
  lemma {:induction false} JoinInOrder(a: seq<string>, b: seq<string>)
    ensures Join(a + b) == Join(a) + Join(b)
    ensures forall text: string :: Join([text]) == text
    decreases |b|
  {
    if b == [] {
      assert a + b == a;
    } else {
      var last := |b| - 1;
      JoinInOrder(a, b[..last]);
      assert (a + b)[..|a + b| - 1] == a + b[..last];
    }
    forall text: string
      ensures Join([text]) == text
    {
      assert [text][..0] == [];
    }
  }

  // Tokens, and at most one end after them.
  predicate EndsOnce(entries: seq<Entry>) {
    forall i :: 0 <= i < |entries| - 1 ==> entries[i].Token?
  }

  predicate AllTokens(entries: seq<Entry>) {
    forall i :: 0 <= i < |entries| ==> entries[i].Token?
  }

  // The answer is what was buffered, joined.
  predicate Answers(outcome: Outcome, log: seq<Entry>) {
    outcome.status.Completed? ==> outcome.response == Some(Join(Texts(log)))
  }

  // Why a reader may be told of an error: the row failed so, the runner's end
  // could not be recorded, or the row had ended before.
  predicate Accounted(row: Row, code: string) {
    || (row.status.Failed? && row.error == Some(code))
    || code == "server.error"
    || (code == "ai.timeout" && !row.status.Streaming?)
  }

  // What an end tells of the row.
  predicate TellsEnd(row: Row, event: Entry) {
    && (event.Done? ==> row.status.Completed? && row.response == Some(event.response))
    && (event.Stopped? ==> row.status.Cancelled?)
    && (event.Error? ==> Accounted(row, event.code))
  }

  // A published end tells of the row's own, a completed row holds what was
  // buffered, and a failed one says why.
  predicate TellsTruly(row: Row, log: seq<Entry>) {
    && EndsOnce(log)
    && (log != [] ==> TellsEnd(row, log[|log| - 1]))
    && (row.status.Completed? ==> row.response == Some(Join(Texts(log))))
    && (row.status.Failed? ==> row.error.Some?)
  }

  predicate SaysWhy(outcome: Outcome) {
    outcome.status.Failed? ==> outcome.error.Some?
  }

  predicate RunnerOk(row: Row, log: seq<Entry>, runner: Runner) {
    match runner
    case Relaying(produced) => AllTokens(log) && Texts(log) == produced && !row.status.Completed?
    case Recording(produced, outcome) =>
      && AllTokens(log) && Answers(outcome, log) && !row.status.Completed?
      && !outcome.status.Streaming? && SaysWhy(outcome)
    case Publishing(outcome) =>
      && AllTokens(log) && Answers(outcome, log) && !outcome.status.Streaming? && SaysWhy(outcome)
      && (outcome.status.Completed? ==> row.status.Completed? && row.response == outcome.response)
      && (outcome.status.Cancelled? ==> row.status.Cancelled?)
      && (outcome.status.Failed? ==> Accounted(row, outcome.error.value))
    case Gone => true
  }

  predicate Heard(row: Row, log: seq<Entry>, r: Reader) {
    && r.last <= |log|
    && (!r.over ==> r.got == log[..r.last] && AllTokens(r.got))
    && (r.over ==> r.follower.Away?)
    && (r.over ==>
          || (r.got == log[..r.last] && r.got != [] && !r.got[|r.got| - 1].Token?)
          || (AllTokens(log[..r.last]) && r.got == log[..r.last] + [TerminalFromRow(row)] && !row.status.Streaming?))
  }

  predicate OnTheWay(row: Row, log: seq<Entry>, r: Reader)
    requires r.last <= |log|
  {
    match r.follower
    case Live(pending) => r.last + |pending| <= |log| && pending == log[r.last..r.last + |pending|]
    case Closing(pending) => r.last + |pending| <= |log| && pending == log[r.last..r.last + |pending|]
    case Ending(event) => !row.status.Streaming? && event == TerminalFromRow(row)
    case _ => true
  }

  predicate Inv(w: World) {
    TellsTruly(w.row, w.log) && RunnerOk(w.row, w.log, w.runner) && Heard(w.row, w.log, w.reader) && OnTheWay(w.row, w.log, w.reader)
  }

  // A row ends once: whatever happens then, it stays as it is.
  lemma RowEndsOnce(w: World, act: Act)
    ensures !w.row.status.Streaming? ==> Step(w, act).row == w.row
  {
  }

  // The log only grows, and a row that ended stays: the reader's part holds on.
  lemma ReaderUndisturbed(w: World, v: World)
    requires Inv(w) && v.reader == w.reader && w.log <= v.log
    requires !w.row.status.Streaming? ==> v.row == w.row
    ensures Heard(v.row, v.log, v.reader) && OnTheWay(v.row, v.log, v.reader)
  {
    var r := w.reader;
    assert v.log[..r.last] == w.log[..r.last];
    match r.follower
    case Live(pending) => assert v.log[r.last..r.last + |pending|] == w.log[r.last..r.last + |pending|];
    case Closing(pending) => assert v.log[r.last..r.last + |pending|] == w.log[r.last..r.last + |pending|];
    case _ =>
  }

  lemma RelayKeeps(w: World, item: Item)
    requires Inv(w) && w.runner.Relaying?
    ensures TellsTruly(RunnerStep(w, Relay(item)).row, RunnerStep(w, Relay(item)).log)
    ensures var v := RunnerStep(w, Relay(item)); RunnerOk(v.row, v.log, v.runner)
  {
    hide Texts, Join;
    if item.Piece? && item.stored {
      TextsMore(w.log, Token(item.text));
    } else {
      assert w.log + [] == w.log;
    }
  }

  lemma PublishKeeps(w: World, lost: bool)
    requires Inv(w) && w.runner.Publishing?
    ensures TellsTruly(RunnerStep(w, Publish(lost)).row, RunnerStep(w, Publish(lost)).log)
  {
    hide Texts, Join;
    var event := TerminalEvent(w.runner.outcome);
    TextsMore(w.log, event);
    var log := w.log + [event];
    assert log[|log| - 1] == event && Texts(w.log) + [] == Texts(w.log);
    assert EndsOnce(log);
  }

  lemma RecordKeeps(w: World, act: Act)
    requires Inv(w) && act.Record? && w.runner.Recording?
    ensures TellsTruly(RunnerStep(w, act).row, RunnerStep(w, act).log)
    ensures var v := RunnerStep(w, act); RunnerOk(v.row, v.log, v.runner)
  {
    hide Texts, Join, Heard, OnTheWay;
  }

  lemma RunnerKeeps(w: World, act: Act)
    requires Inv(w)
    ensures Inv(RunnerStep(w, act))
  {
    RowStays(w, act);
    ReaderUndisturbed(w, RunnerStep(w, act));
    hide Texts, Join, Heard, OnTheWay, TellsTruly, Accounted;
    match (act, w.runner) {
      case (Relay(item), Relaying(produced)) => RelayKeeps(w, item);
      case (Record(_, _, _, _), Recording(_, _)) => RecordKeeps(w, act);
      case (Publish(lost), Publishing(outcome)) => PublishKeeps(w, lost);
      case _ =>
    }
  }

  lemma RowStays(w: World, act: Act)
    ensures var v := RunnerStep(w, act);
            v.reader == w.reader && w.log <= v.log && (!w.row.status.Streaming? ==> v.row == w.row)
  {
  }

  // What is read is what comes next.
  lemma ReadIsNext(w: World)
    requires w.reader.last <= |w.log|
    ensures var batch := Entries(w); var last := w.reader.last;
            last + |batch| <= |w.log| && batch == w.log[last..last + |batch|]
  {
  }

  lemma Delivered(row: Row, log: seq<Entry>, r: Reader, pending: seq<Entry>, next: Follower)
    requires Heard(row, log, r) && !r.over && EndsOnce(log) && pending != []
    requires r.last + |pending| <= |log| && pending == log[r.last..r.last + |pending|]
    requires next == if pending[0].Token? then
                       (if r.follower.Live? then Live(pending[1..]) else Closing(pending[1..])) else Away
    ensures var after := Reader(r.got + [pending[0]], r.last + 1, !pending[0].Token?, next);
            Heard(row, log, after) && OnTheWay(row, log, after)
  {
    assert pending[0] == log[r.last];
    assert log[..r.last + 1] == log[..r.last] + [pending[0]];
    assert pending[1..] == log[r.last + 1..r.last + |pending|];
  }

  lemma ReaderKeeps(w: World, act: Act)
    requires Inv(w) && !act.End?
    ensures Inv(ReaderStep(w, act))
  {
    hide Texts, Join, RunnerOk;
    var r := w.reader;
    match (act, r.follower) {
      case (Read, _) => ReadIsNext(w);
      case (Deliver, Live(pending)) =>
        if pending != [] {
          Delivered(w.row, w.log, r, pending, if pending[0].Token? then Live(pending[1..]) else Away);
        }
      case (Deliver, Closing(pending)) =>
        if pending != [] {
          Delivered(w.row, w.log, r, pending, if pending[0].Token? then Closing(pending[1..]) else Away);
        }
      case _ =>
    }
  }

  lemma EndKeeps(w: World, now: nat)
    requires Inv(w)
    ensures Inv(ReaderStep(w, End(now)))
  {
    hide Texts, Join;
  }

  lemma StepKeeps(w: World, act: Act)
    requires Inv(w)
    ensures Inv(Step(w, act))
  {
    match act {
      case Relay(_) => RunnerKeeps(w, act);
      case Shutdown => RunnerKeeps(w, act);
      case Record(_, _, _, _) => RunnerKeeps(w, act);
      case Publish(_) => RunnerKeeps(w, act);
      case Crash => RunnerKeeps(w, act);
      case Expire(now) => ReaderUndisturbed(w, Step(w, act));
      case Abandon(now) => ReaderUndisturbed(w, Step(w, act));
      case Forget =>
      case End(now) => EndKeeps(w, now);
      case _ => ReaderKeeps(w, act);
    }
  }

  lemma {:induction false} RunKeeps(createdAt: nat, acts: seq<Act>)
    ensures Inv(Run(Start(createdAt), acts))
    decreases |acts|
  {
    if acts != [] {
      hide Inv, Step;
      RunKeeps(createdAt, acts[..|acts| - 1]);
      StepKeeps(Run(Start(createdAt), acts[..|acts| - 1]), acts[|acts| - 1]);
    }
  }

  // ----- what a reader hears -----

  // Over any reconnects, a reader gets the first tokens of the generation, each
  // once and in order, and then at most one end.
  lemma GapFree(createdAt: nat, acts: seq<Act>)
    ensures var w := Run(Start(createdAt), acts);
            && EndsOnce(w.reader.got)
            && Texts(w.reader.got) <= Texts(w.log)
            && (w.reader.over <==> w.reader.got != [] && !w.reader.got[|w.reader.got| - 1].Token?)
            && w.reader.last <= |w.log| && w.log[..w.reader.last] <= w.reader.got
            && |w.reader.got| <= w.reader.last + 1
  {
    RunKeeps(createdAt, acts);
    var w := Run(Start(createdAt), acts);
    var r := w.reader;
    TextsOfPrefix(w.log, r.last);
    TextsMore(w.log[..r.last], TerminalFromRow(w.row));
    hide Run, Texts, Join;
  }

  lemma {:induction false} TextsOfPrefix(entries: seq<Entry>, n: nat)
    requires n <= |entries|
    ensures Texts(entries[..n]) <= Texts(entries)
    decreases |entries|
  {
    if n < |entries| {
      var front := entries[..|entries| - 1];
      TextsOfPrefix(front, n);
      assert front[..n] == entries[..n];
    } else {
      assert entries[..n] == entries;
    }
  }

  // A reader told the answer can apply it: the row has ended with that very
  // answer, for good, and it is the buffered tokens joined.
  lemma DoneMeansCompleted(createdAt: nat, acts: seq<Act>, more: seq<Act>)
    requires var r := Run(Start(createdAt), acts).reader; r.got != [] && r.got[|r.got| - 1].Done?
    ensures var r := Run(Start(createdAt), acts).reader;
            var row := Run(Run(Start(createdAt), acts), more).row;
            && row.status.Completed? && row.response == Some(r.got[|r.got| - 1].response)
            && r.got[|r.got| - 1].response == Join(Texts(Run(Start(createdAt), acts).log))
  {
    RunKeeps(createdAt, acts);
    var w := Run(Start(createdAt), acts);
    RowStaysEnded(w, more);
    hide Run, Texts, Join;
    var r := w.reader;
    if r.got == w.log[..r.last] {
      assert r.last == |w.log|;
    }
  }

  // A reader told that the generation was stopped finds its row cancelled, for
  // good.
  lemma StoppedMeansCancelled(createdAt: nat, acts: seq<Act>, more: seq<Act>)
    requires var r := Run(Start(createdAt), acts).reader; r.got != [] && r.got[|r.got| - 1].Stopped?
    ensures Run(Run(Start(createdAt), acts), more).row.status.Cancelled?
  {
    RunKeeps(createdAt, acts);
    var w := Run(Start(createdAt), acts);
    RowStaysEnded(w, more);
    hide Run, Texts, Join;
    var r := w.reader;
    if r.got == w.log[..r.last] {
      assert r.last == |w.log|;
    }
  }

  // One told of an error finds the row failed with that very code, unless the
  // runner could not record its end or came after the row's.
  lemma ErrorsAccounted(createdAt: nat, acts: seq<Act>)
    requires var r := Run(Start(createdAt), acts).reader; r.got != [] && r.got[|r.got| - 1].Error?
    ensures var w := Run(Start(createdAt), acts); Accounted(w.row, w.reader.got[|w.reader.got| - 1].code)
  {
    RunKeeps(createdAt, acts);
    var w := Run(Start(createdAt), acts);
    hide Run, Texts, Join;
    var r := w.reader;
    if r.got == w.log[..r.last] {
      assert r.last == |w.log|;
    }
  }

  // A reader that missed the buffer's end is told the row's: its answer, that it
  // was stopped, or the code it failed with.
  lemma RowsEndExactly(createdAt: nat, acts: seq<Act>, more: seq<Act>)
    requires var r := Run(Start(createdAt), acts).reader; |r.got| > r.last
    ensures var r := Run(Start(createdAt), acts).reader;
            var event := r.got[|r.got| - 1];
            var row := Run(Run(Start(createdAt), acts), more).row;
            && (event.Done? <==> row.status.Completed?)
            && (event.Stopped? <==> row.status.Cancelled?)
            && (event.Error? <==> row.status.Failed?)
            && (event.Done? ==> row.response == Some(event.response))
            && (event.Error? ==> row.error == Some(event.code))
  {
    RunKeeps(createdAt, acts);
    RowStaysEnded(Run(Start(createdAt), acts), more);
    hide Run, Texts, Join;
  }

  lemma {:induction false} RowStaysEnded(w: World, acts: seq<Act>)
    ensures !w.row.status.Streaming? ==> Run(w, acts).row == w.row
    decreases |acts|
  {
    hide Step;
    if acts != [] {
      RowStaysEnded(w, acts[..|acts| - 1]);
      RowEndsOnce(Run(w, acts[..|acts| - 1]), acts[|acts| - 1]);
    }
  }

  // ----- a reader hears of the end -----

  lemma {:induction false} RunConcat(w: World, a: seq<Act>, b: seq<Act>)
    ensures Run(w, a + b) == Run(Run(w, a), b)
    decreases |b|
  {
    hide Step;
    if b == [] {
      assert a + b == a;
    } else {
      var n := |b| - 1;
      RunConcat(w, a, b[..n]);
      assert (a + b)[..|a + b| - 1] == a + b[..n];
    }
  }

  lemma RunOne(w: World, act: Act)
    ensures Run(w, [act]) == Step(w, act)
  {
    hide Step;
    assert [act][..0] == [];
  }

  predicate ByReader(acts: seq<Act>) {
    forall i :: 0 <= i < |acts| ==>
      acts[i].Connect? || acts[i].Read? || acts[i].RunnerDead? || acts[i].Deliver? || acts[i].End? || acts[i].Drop?
  }

  lemma {:induction false} ClosesOut(w: World, now: nat) returns (more: seq<Act>)
    requires Inv(w) && !w.reader.over && w.reader.follower.Closing?
    ensures ByReader(more) && Run(w, more).reader.over
    decreases |w.reader.follower.pending|
  {
    hide Inv, Run;
    if w.reader.follower.pending == [] {
      var v := Step(w, End(now));
      more := [End(now)] + [Deliver];
      RunConcat(w, [End(now)], [Deliver]);
      RunOne(w, End(now));
      RunOne(v, Deliver);
    } else {
      var v := Step(w, Deliver);
      RunOne(w, Deliver);
      if v.reader.over {
        more := [Deliver];
      } else {
        StepKeeps(w, Deliver);
        var rest := ClosesOut(v, now);
        more := [Deliver] + rest;
        RunConcat(w, [Deliver], rest);
      }
    }
  }

  lemma Four(w: World, a: Act, b: Act, c: Act, d: Act)
    ensures Run(w, [a] + [b] + [c] + [d]) == Step(Step(Step(Step(w, a), b), c), d)
    ensures Inv(w) ==> Inv(Run(w, [a] + [b] + [c] + [d]))
  {
    hide Step, Run, Inv;
    var w1 := Step(w, a);
    var w2 := Step(w1, b);
    var w3 := Step(w2, c);
    RunConcat(w, [a] + [b] + [c], [d]);
    RunConcat(w, [a] + [b], [c]);
    RunConcat(w, [a], [b]);
    RunOne(w, a);
    RunOne(w1, b);
    RunOne(w2, c);
    RunOne(w3, d);
    if Inv(w) {
      StepKeeps(w, a);
      StepKeeps(w1, b);
      StepKeeps(w2, c);
      StepKeeps(w3, d);
    }
  }

  predicate AboutToRead(w: World) {
    !w.reader.over && (w.reader.follower == Live([]) || w.reader.follower.LastRead?)
  }

  lemma DropsAndConnects(w: World)
    requires !w.reader.over
    ensures AboutToRead(Step(Step(w, Drop), Connect))
  {
  }

  lemma ReadsOnceMore(w: World)
    requires AboutToRead(w) && w.reader.last <= |w.log|
    ensures var v := Step(Step(w, RunnerDead), Read); !v.reader.over && v.reader.follower.Closing?
  {
    hide Entries;
  }

  lemma Reconnects(w: World) returns (acts: seq<Act>)
    requires Inv(w) && !w.reader.over
    ensures ByReader(acts)
    ensures var v := Run(w, acts); Inv(v) && !v.reader.over && v.reader.follower.Closing?
  {
    hide Inv, Run, Step, AboutToRead;
    Four(w, Drop, Connect, RunnerDead, Read);
    DropsAndConnects(w);
    StepKeeps(w, Drop);
    StepKeeps(Step(w, Drop), Connect);
    LastKnown(Step(Step(w, Drop), Connect));
    ReadsOnceMore(Step(Step(w, Drop), Connect));
    acts := [Drop] + [Connect] + [RunnerDead] + [Read];
  }

  lemma LastKnown(w: World)
    requires Inv(w)
    ensures w.reader.last <= |w.log|
  {
  }

  // Once the runner is gone, however it went and whatever is left of the buffer,
  // a reader that has not heard of the end does by reconnecting and reading on.
  lemma EndIsHeard(createdAt: nat, acts: seq<Act>, now: nat) returns (more: seq<Act>)
    requires Run(Start(createdAt), acts).runner.Gone? && !Run(Start(createdAt), acts).reader.over
    ensures ByReader(more) && Run(Run(Start(createdAt), acts), more).reader.over
  {
    RunKeeps(createdAt, acts);
    var w := Run(Start(createdAt), acts);
    hide Inv, Run, ByReader;
    var first := Reconnects(w);
    var rest := ClosesOut(Run(w, first), now);
    more := first + rest;
    RunConcat(w, first, rest);
    BothByReader(first, rest);
  }

  lemma BothByReader(a: seq<Act>, b: seq<Act>)
    requires ByReader(a) && ByReader(b)
    ensures ByReader(a + b)
  {
  }
}
