// However the printed stream is cut, the client reads exactly its complete events.
module EventStreamLaws {
  import opened Wrappers
  import opened EventStream
  import Seqs

  // ----- cutting does not matter -----

  lemma BoundaryStays(a: string, b: string)
    requires Boundary(a).Some?
    ensures Boundary(a + b) == Boundary(a)
  {
    var i, j := Boundary(a).value, Boundary(a + b);
    assert (a + b)[i] == a[i] && (a + b)[i + 1] == a[i + 1];
    assert j.Some? && j.value <= i;
    assert (a + b)[j.value] == a[j.value] && (a + b)[j.value + 1] == a[j.value + 1];
  }

  // Draining as text arrives emits what draining all of it at once would.
  lemma {:induction false} DrainTwice(a: string, b: string)
    ensures var first := Drain(a);
            var second := Drain(first.rest + b);
            Drain(a + b) == Drained(first.events + second.events, second.rest)
    decreases |a|
  {
    hide BlockEvent, LinesOf, Boundary;
    if Boundary(a).None? {
      assert [] + Drain(a + b).events == Drain(a + b).events;
    } else {
      var i := Boundary(a).value;
      BoundaryStays(a, b);
      assert (a + b)[..i] == a[..i] && (a + b)[i + 2..] == a[i + 2..] + b;
      DrainTwice(a[i + 2..], b);
      var later := Drain(a[i + 2..]);
      Seqs.Assoc(BlockEvent(LinesOf(a[..i])), later.events, Drain(later.rest + b).events);
    }
  }

  predicate CutsLineEnd(a: string, b: string) {
    a != "" && b != "" && a[|a| - 1] == '\r' && b[0] == '\n'
  }

  // Line ends are unified piece by piece exactly when no cut falls inside one.
  lemma {:induction false} UnifyPieces(a: string, b: string)
    ensures Unify(a + b) == Unify(a) + Unify(b) <==> !CutsLineEnd(a, b)
    ensures |Unify(a + b)| == |Unify(a)| + |Unify(b)| - (if CutsLineEnd(a, b) then 1 else 0)
    decreases |a|
  {
    if a == "" {
      assert a + b == b;
    } else if |a| >= 2 && a[0] == '\r' && a[1] == '\n' {
      assert (a + b)[2..] == a[2..] + b;
      UnifyPieces(a[2..], b);
      Seqs.Assoc("\n", Unify(a[2..]), Unify(b));
      SamePrefix("\n", Unify(a[2..] + b), Unify(a[2..]) + Unify(b));
      assert a[2..] == "" ==> !CutsLineEnd(a, b);
    } else if a[1..] == "" && CutsLineEnd(a, b) {
      assert (a + b)[2..] == b[1..];
      assert b == [b[0]] + b[1..];
      assert Unify(a) == [a[0]] + Unify(a[1..]) && Unify(a[1..]) == "";
      UnifyNewline(b);
    } else {
      assert (a + b)[1..] == a[1..] + b && (a + b)[0] == a[0];
      UnifyPieces(a[1..], b);
      assert Unify(a + b) == [a[0]] + Unify(a[1..] + b);
      Seqs.Assoc([a[0]], Unify(a[1..]), Unify(b));
      SamePrefix([a[0]], Unify(a[1..] + b), Unify(a[1..]) + Unify(b));
    }
  }

  lemma UnifyNewline(b: string)
    requires b != "" && b[0] == '\n'
    ensures Unify(b) == "\n" + Unify(b[1..])
  {
  }

  lemma SamePrefix(p: string, a: string, b: string)
    ensures p + a == p + b <==> a == b
  {
    Seqs.PrefixOfConcat(p, a);
    Seqs.PrefixOfConcat(p, b);
  }

  function Concat(chunks: seq<string>): string {
    if chunks == [] then "" else Concat(chunks[..|chunks| - 1]) + chunks[|chunks| - 1]
  }

  // No cut of the stream falls inside a line end.
  predicate CleanCuts(chunks: seq<string>)
  {
    chunks == [] ||
    (CleanCuts(chunks[..|chunks| - 1]) && !CutsLineEnd(Concat(chunks[..|chunks| - 1]), chunks[|chunks| - 1]))
  }

  lemma {:induction false} ReceivedAtOnce(chunks: seq<string>)
    requires CleanCuts(chunks)
    ensures Received(chunks) == Drain(Unify(Concat(chunks)))
    decreases |chunks|
  {
    hide Drain, Unify, BlockEvent;
    if chunks == [] {
      NothingDrained();
    } else {
      var front, last := chunks[..|chunks| - 1], chunks[|chunks| - 1];
      ReceivedAtOnce(front);
      UnifyPieces(Concat(front), last);
      DrainTwice(Unify(Concat(front)), Unify(last));
    }
  }

  lemma NothingDrained()
    ensures Drain(Unify("")) == Drained([], "")
  {
  }

  // ----- what the server prints -----

  predicate OneLine(s: string) {
    forall i :: 0 <= i < |s| ==> s[i] != '\n' && s[i] != '\r'
  }

  predicate Printable(event: Option<Event>) {
    event.Some? ==> OneLine(event.value.id) && OneLine(event.value.kind) && OneLine(event.value.data)
  }

  function BlockLines(event: Option<Event>): seq<string> {
    match event
    case None => [": keepalive"]
    case Some(e) => EventLines(e)
  }

  function EmittedBy(event: Option<Event>): seq<Emitted> {
    match event
    case None => []
    case Some(e) => [Emitted(e.kind, e.data, if e.id == "" then None else Some(e.id))]
  }

  function AllEmitted(events: seq<Option<Event>>): seq<Emitted> {
    if events == [] then [] else AllEmitted(events[..|events| - 1]) + EmittedBy(events[|events| - 1])
  }

  predicate FullLines(lines: seq<string>) {
    lines != [] && forall i :: 0 <= i < |lines| ==> lines[i] != "" && OneLine(lines[i])
  }

  predicate NoBlankLine(s: string) {
    forall i :: 0 <= i < |s| - 1 ==> !(s[i] == '\n' && s[i + 1] == '\n')
  }

  // ----- lines -----

  lemma {:induction false} OneLineOnly(line: string)
    requires OneLine(line)
    ensures LinesOf(line) == [line]
    decreases |line|
  {
    if line != "" {
      OneLineOnly(line[1..]);
      assert [line[0]] + line[1..] == line;
    }
  }

  lemma {:induction false} LineThen(line: string, rest: string)
    requires OneLine(line)
    ensures LinesOf(line + "\n" + rest) == [line] + LinesOf(rest)
    decreases |line|
  {
    var s := line + "\n" + rest;
    if line == "" {
      assert s[1..] == rest;
    } else {
      LineThen(line[1..], rest);
      assert s[1..] == line[1..] + "\n" + rest;
      assert [line[0]] + line[1..] == line;
    }
  }

  lemma {:induction false} LinesOfJoin(lines: seq<string>)
    requires FullLines(lines)
    ensures LinesOf(Join(lines)) == lines
    decreases |lines|
  {
    hide LinesOf;
    if |lines| == 1 {
      OneLineOnly(lines[0]);
    } else {
      LinesOfJoin(lines[1..]);
      LineThen(lines[0], Join(lines[1..]));
      assert [lines[0]] + lines[1..] == lines;
    }
  }

  lemma {:induction false} JoinHasNoBlank(lines: seq<string>)
    requires FullLines(lines)
    ensures var s := Join(lines);
            s != "" && NoBlankLine(s) && s[0] != '\n' && s[|s| - 1] != '\n' && forall i :: 0 <= i < |s| ==> s[i] != '\r'
    decreases |lines|
  {
    if |lines| > 1 {
      JoinHasNoBlank(lines[1..]);
      var line, rest := lines[0], Join(lines[1..]);
      var s := line + "\n" + rest;
      assert forall i :: 0 <= i < |line| ==> s[i] == line[i];
      assert s[|line|] == '\n';
      assert forall i :: 0 <= i < |rest| ==> s[|line| + 1 + i] == rest[i];
    }
  }

  lemma OneLineConcat(a: string, b: string)
    requires OneLine(a) && OneLine(b)
    ensures OneLine(a + b)
  {
  }

  lemma EventPrints(event: Option<Event>)
    requires Printable(event)
    ensures FullLines(BlockLines(event)) && Sse(event) == Join(BlockLines(event)) + "\n\n"
  {
    match event
    case None =>
      assert OneLine(": keepalive");
    case Some(e) =>
      assert OneLine("event: ") && OneLine("data: ") && OneLine("id: ");
      OneLineConcat("id: ", e.id);
      OneLineConcat("event: ", e.kind);
      OneLineConcat("data: ", e.data);
      hide OneLine;
  }

  lemma {:induction false} FieldSkips(lines: seq<string>, line: string, name: string)
    requires line != "" && name != "" && line[0] != name[0]
    ensures Field(lines + [line], name) == Field(lines, name)
  {
    assert (lines + [line])[..|lines|] == lines;
  }

  lemma FieldFound(lines: seq<string>, name: string, value: string)
    ensures Field(lines + [name + value], name) == Some(value)
  {
    assert (name + value)[|name|..] == value;
  }

  lemma EventReads(event: Option<Event>)
    ensures BlockEvent(BlockLines(event)) == EmittedBy(event)
  {
    match event
    case None =>
      assert [] + [": keepalive"] == [": keepalive"];
      FieldSkips([], ": keepalive", "data: ");
      hide Field;
    case Some(e) =>
      var id, kind, data := "id: " + e.id, "event: " + e.kind, "data: " + e.data;
      var first := if e.id == "" then [] else [id];
      assert EventLines(e) == first + [kind] + [data];
      FieldFound(first + [kind], "data: ", e.data);
      FieldSkips(first + [kind], data, "event: ");
      FieldFound(first, "event: ", e.kind);
      FieldSkips(first + [kind], data, "id: ");
      FieldSkips(first, kind, "id: ");
      if e.id != "" {
        assert [] + [id] == [id];
        FieldFound([], "id: ", e.id);
      }
      assert Field([], "id: ") == None;
      hide Field;
  }

  // An event printed whole is read whole; cut short, it is not read at all.
  lemma WholeEvent(event: Option<Event>, rest: string)
    requires Printable(event)
    ensures var later := Drain(rest);
            Drain(Sse(event) + rest) == Drained(EmittedBy(event) + later.events, later.rest)
  {
    EventPrints(event);
    EventReads(event);
    var lines := BlockLines(event);
    var block, s := Join(lines), Sse(event) + rest;
    JoinHasNoBlank(lines);
    LinesOfJoin(lines);
    BoundaryIsEnd(block, rest);
    assert s == block + "\n\n" + rest;
    assert s[..|block|] == block && s[|block| + 2..] == rest;
  }

  lemma BoundaryIsEnd(block: string, rest: string)
    requires block != "" && NoBlankLine(block) && block[|block| - 1] != '\n'
    ensures Boundary(block + "\n\n" + rest) == Some(|block|)
  {
    var s := block + "\n\n" + rest;
    var b := Boundary(s);
    assert s[|block|] == '\n' && s[|block| + 1] == '\n';
    assert forall i :: 0 <= i < |block| ==> s[i] == block[i];
  }

  lemma PartOfEvent(event: Option<Event>, n: nat)
    requires Printable(event) && n < |Sse(event)|
    ensures Drain(Sse(event)[..n]) == Drained([], Sse(event)[..n])
  {
    EventPrints(event);
    var block := Join(BlockLines(event));
    JoinHasNoBlank(BlockLines(event));
    var s := (block + "\n\n")[..n];
    assert forall i :: 0 <= i < n ==> s[i] == if i < |block| then block[i] else '\n';
    NothingMore(s);
  }

  // ----- whatever the pieces -----

  lemma NoReturns(s: string)
    requires forall i :: 0 <= i < |s| ==> s[i] != '\r'
    ensures Unify(s) == s
    decreases |s|
  {
    if s != "" {
      NoReturns(s[1..]);
      assert [s[0]] + s[1..] == s;
    }
  }

  lemma {:induction false} PrintedHasNoReturns(events: seq<Option<Event>>)
    requires forall i :: 0 <= i < |events| ==> Printable(events[i])
    ensures forall i :: 0 <= i < |Printed(events)| ==> Printed(events)[i] != '\r'
    decreases |events|
  {
    if events != [] {
      PrintedHasNoReturns(events[..|events| - 1]);
      var last := events[|events| - 1];
      EventPrints(last);
      JoinHasNoBlank(BlockLines(last));
    }
  }

  lemma {:induction false} DrainPrinted(events: seq<Option<Event>>)
    requires forall i :: 0 <= i < |events| ==> Printable(events[i])
    ensures Drain(Printed(events)) == Drained(AllEmitted(events), "")
    decreases |events|
  {
    hide Drain, Sse;
    if events == [] {
      NothingMore("");
    } else {
      var front, last := events[..|events| - 1], events[|events| - 1];
      DrainPrinted(front);
      DrainTwice(Printed(front), Sse(last));
      WholeEvent(last, "");
      NothingMore("");
      assert "" + Sse(last) == Sse(last) && Sse(last) + "" == Sse(last);
      assert EmittedBy(last) + [] == EmittedBy(last);
    }
  }

  // How many of the events the first `n` characters hold whole.
  function Complete(events: seq<Option<Event>>, n: nat): (k: nat)
    ensures k <= |events|
  {
    if events == [] then 0
    else if |Printed(events)| <= n then |events|
    else Complete(events[..|events| - 1], n)
  }

  lemma {:induction false} CompletePrefix(events: seq<Option<Event>>, n: nat)
    requires n <= |Printed(events)|
    ensures var k := Complete(events, n);
            && |Printed(events[..k])| <= n && Printed(events[..k]) <= Printed(events)
            && (k < |events| ==>
                  && n < |Printed(events[..k])| + |Sse(events[k])|
                  && Printed(events[..k]) + Sse(events[k]) <= Printed(events))
    decreases |events|
  {
    hide Sse;
    if events != [] {
      var front, last := events[..|events| - 1], events[|events| - 1];
      assert events[..|events|] == events;
      if |Printed(events)| > n {
        if n >= |Printed(front)| {
          CompleteAll(front, n);
          assert front[..|front|] == front;
        } else {
          CompletePrefix(front, n);
          var k := Complete(front, n);
          assert front[..k] == events[..k];
        }
      }
    }
  }

  lemma {:induction false} CompleteAll(events: seq<Option<Event>>, n: nat)
    requires |Printed(events)| <= n
    ensures Complete(events, n) == |events|
  {
  }

  lemma {:induction false} NoCutInside(chunks: seq<string>)
    requires forall i :: 0 <= i < |Concat(chunks)| ==> Concat(chunks)[i] != '\r'
    ensures CleanCuts(chunks)
    decreases |chunks|
  {
    if chunks != [] {
      var front := chunks[..|chunks| - 1];
      assert forall i :: 0 <= i < |Concat(front)| ==> Concat(front)[i] == Concat(chunks)[i];
      NoCutInside(front);
    }
  }

  // What has arrived after the last complete event is held back.
  lemma DrainPart(events: seq<Option<Event>>, k: nat, n: nat)
    requires forall i :: 0 <= i < |events| ==> Printable(events[i])
    requires k < |events| && n < |Sse(events[k])|
    ensures Drain(Printed(events[..k]) + Sse(events[k])[..n]) == Drained(AllEmitted(events[..k]), Sse(events[k])[..n])
  {
    hide Drain, Sse, Printed, AllEmitted;
    var whole, part := Printed(events[..k]), Sse(events[k])[..n];
    DrainPrinted(events[..k]);
    DrainTwice(whole, part);
    assert "" + part == part;
    PartOfEvent(events[k], n);
    assert AllEmitted(events[..k]) + [] == AllEmitted(events[..k]);
  }

  lemma DrainArrived(events: seq<Option<Event>>, n: nat)
    requires forall i :: 0 <= i < |events| ==> Printable(events[i])
    requires n <= |Printed(events)|
    ensures Drain(Printed(events)[..n]).events == AllEmitted(events[..Complete(events, n)])
  {
    CompletePrefix(events, n);
    hide Drain, Sse, Complete, Printed, AllEmitted;
    var k := Complete(events, n);
    var whole := Printed(events[..k]);
    if k < |events| {
      var more := whole + Sse(events[k]);
      assert Printed(events)[..n] == more[..n] == whole + Sse(events[k])[..n - |whole|];
      DrainPart(events, k, n - |whole|);
    } else {
      assert events[..k] == events;
      assert Printed(events)[..n] == Printed(events);
      DrainPrinted(events);
    }
  }

  // The client has read, of any printed stream that has arrived in any pieces
  // as far as any place, exactly the events complete by then, in order.
  lemma ReadsWhatIsComplete(events: seq<Option<Event>>, chunks: seq<string>, n: nat)
    requires forall i :: 0 <= i < |events| ==> Printable(events[i])
    requires n <= |Printed(events)| && Concat(chunks) == Printed(events)[..n]
    ensures Received(chunks).events == AllEmitted(events[..Complete(events, n)])
  {
    PrintedHasNoReturns(events);
    hide Drain, Sse, Received, Complete, CleanCuts, AllEmitted, Printed;
    NoReturns(Concat(chunks));
    NoCutInside(chunks);
    ReceivedAtOnce(chunks);
    DrainArrived(events, n);
  }

  lemma UnifiedEnds(x: string)
    requires x != "" && OneLine(x)
    ensures Unify(x + "\r\n\r") == x + "\n\r"
    ensures Unify(x + "\r\n\r\n") == x + "\n\n"
    ensures Unify("\n") == "\n"
  {
    NoReturns(x);
    NoReturns("\n");
    assert "\r\n\r"[2..] == "\r" && "\r\n\r\n"[2..] == "\r\n" && "\r\n"[2..] == "" && "\r"[1..] == "";
    assert Unify("\r\n\r") == "\n\r" && Unify("\r\n\r\n") == "\n\n";
    hide Unify;
    UnifyPieces(x, "\r\n\r");
    UnifyPieces(x, "\r\n\r\n");
  }

  lemma OneChunk(chunk: string)
    ensures Received([chunk]) == Drain(Unify(chunk))
  {
    hide Drain, Unify;
    assert [chunk][..0] == [] && "" + Unify(chunk) == Unify(chunk);
    assert [] + Drain(Unify(chunk)).events == Drain(Unify(chunk)).events;
  }

  lemma TwoChunks(a: string, b: string)
    ensures var first := Drain(Unify(a));
            Received([a, b]).events == first.events + Drain(first.rest + Unify(b)).events
  {
    hide Drain, Unify;
    assert [a, b][..1] == [a];
    OneChunk(a);
  }

  lemma NoBoundary(x: string, tail: string)
    requires x != "" && OneLine(x) && |tail| <= 3 && NoBlankLine(tail)
    ensures Drain(x + tail) == Drained([], x + tail)
  {
    var s := x + tail;
    assert forall i :: 0 <= i < |s| ==> s[i] == if i < |x| then x[i] else tail[i - |x|];
    NothingMore(s);
  }

  lemma OneBlock(x: string)
    requires x != "" && OneLine(x)
    ensures Drain(x + "\n\n").events == BlockEvent([x])
  {
    hide LinesOf, BlockEvent;
    BoundaryIsEnd(x, "");
    OneLineOnly(x);
    var s := x + "\n\n";
    assert s + "" == s && s[..|x|] == x && s[|x| + 2..] == "";
    DrainStep(s);
    NothingMore("");
    assert BlockEvent([x]) + [] == BlockEvent([x]);
  }

  // A cut inside a line end holds back an event that has fully arrived.
  lemma CutLineEndHoldsBack(x: string)
    requires x != "" && OneLine(x)
    ensures var a, b := x + "\r\n\r", "\n";
            CutsLineEnd(a, b) && Received([a, b]).events == [] && Received([a + b]).events == BlockEvent([x])
  {
    hide Drain, Unify, Received, LinesOf, BlockEvent;
    var a, b := x + "\r\n\r", "\n";
    UnifiedEnds(x);
    Seqs.Assoc(x, "\r\n\r", "\n");
    Seqs.Assoc(x, "\n\r", "\n");
    assert "\r\n\r" + "\n" == "\r\n\r\n" && "\n\r" + "\n" == "\n\r\n";
    TwoChunks(a, b);
    OneChunk(a + b);
    NoBoundary(x, "\n\r");
    NoBoundary(x, "\n\r\n");
    OneBlock(x);
  }
}
