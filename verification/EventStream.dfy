// Server-sent events: how the server prints them and how the client reads them
// back from whatever pieces the network makes of the stream.
module EventStream {
  import opened Wrappers
  import Seqs

  // `data` is JSON, which has no line break in it.
  datatype Event = Event(id: string, kind: string, data: string)

  datatype Emitted = Emitted(kind: string, data: string, id: Option<string>)

  // ----- the printer -----

  function Join(lines: seq<string>): string
    requires lines != []
  {
    if |lines| == 1 then lines[0] else lines[0] + "\n" + Join(lines[1..])
  }

  function EventLines(e: Event): (lines: seq<string>)
    ensures lines != []
  {
    (if e.id == "" then [] else ["id: " + e.id]) + ["event: " + e.kind, "data: " + e.data]
  }

  function Sse(event: Option<Event>): string {
    match event
    case None => ": keepalive\n\n"
    case Some(e) => Join(EventLines(e)) + "\n\n"
  }

  function Printed(events: seq<Option<Event>>): string {
    if events == [] then "" else Printed(events[..|events| - 1]) + Sse(events[|events| - 1])
  }

  // ----- the reader -----

  // Where the first blank line ends an event.
  function Boundary(s: string): (r: Option<nat>)
    ensures r.Some? ==> r.value + 2 <= |s| && s[r.value] == '\n' && s[r.value + 1] == '\n'
    ensures r.Some? ==> forall i :: 0 <= i < r.value ==> !(s[i] == '\n' && s[i + 1] == '\n')
    ensures r.None? ==> forall i :: 0 <= i < |s| - 1 ==> !(s[i] == '\n' && s[i + 1] == '\n')
  {
    if |s| < 2 then None
    else if s[0] == '\n' && s[1] == '\n' then Some(0)
    else
      match Boundary(s[1..])
      case None => None
      case Some(i) => Some(i + 1)
  }

  function LinesOf(s: string): (lines: seq<string>)
    ensures lines != []
  {
    if s == "" then [""]
    else
      var rest := LinesOf(s[1..]);
      if s[0] == '\n' then [""] + rest else [[s[0]] + rest[0]] + rest[1..]
  }

  // What follows a field's name on the last line that names it.
  function Field(lines: seq<string>, name: string): Option<string> {
    if lines == [] then None
    else
      var last := lines[|lines| - 1];
      if name <= last then Some(last[|name|..]) else Field(lines[..|lines| - 1], name)
  }

  predicate NoneAfter(lines: seq<string>, name: string, i: int) {
    forall k :: i < k < |lines| && k >= 0 ==> !(name <= lines[k])
  }

  // The lines are between the newlines, and the last to name a field counts.
  lemma {:induction false} LinesAreAll(s: string)
    ensures Join(LinesOf(s)) == s
    ensures forall i :: 0 <= i < |LinesOf(s)| ==> '\n' !in LinesOf(s)[i]
    decreases |s|
  {
    if s != "" {
      LinesAreAll(s[1..]);
      var rest := LinesOf(s[1..]);
      if s[0] == '\n' {
        assert ([""] + rest)[1..] == rest;
      } else {
        assert ([[s[0]] + rest[0]] + rest[1..])[1..] == rest[1..];
        FirstLonger(s[0], rest);
      }
    }
  }

  lemma FirstLonger(c: char, rest: seq<string>)
    requires rest != []
    ensures Join([[c] + rest[0]] + rest[1..]) == [c] + Join(rest)
  {
    if |rest| > 1 {
      assert ([[c] + rest[0]] + rest[1..])[1..] == rest[1..];
    }
  }

  lemma {:induction false} LastFieldCounts(lines: seq<string>, name: string)
    ensures Field(lines, name).None? <==> forall i :: 0 <= i < |lines| ==> !(name <= lines[i])
    ensures Field(lines, name).Some? ==>
              exists i :: 0 <= i < |lines| && name + Field(lines, name).value == lines[i] && NoneAfter(lines, name, i)
    decreases |lines|
  {
    if lines != [] {
      var n := |lines| - 1;
      LastFieldCounts(lines[..n], name);
      if name <= lines[n] {
        assert name + lines[n][|name|..] == lines[n] && NoneAfter(lines, name, n);
      } else if Field(lines[..n], name).Some? {
        var i :| 0 <= i < n && name + Field(lines[..n], name).value == lines[..n][i] && NoneAfter(lines[..n], name, i);
        LaterDoes(lines, name, i);
      } else {
        assert forall i :: 0 <= i < n ==> lines[..n][i] == lines[i];
      }
    }
  }

  lemma LaterDoes(lines: seq<string>, name: string, i: int)
    requires lines != [] && NoneAfter(lines[..|lines| - 1], name, i) && !(name <= lines[|lines| - 1])
    ensures NoneAfter(lines, name, i)
  {
    assert forall k :: 0 <= k < |lines| - 1 ==> lines[..|lines| - 1][k] == lines[k];
  }

  function BlockEvent(lines: seq<string>): seq<Emitted> {
    match Field(lines, "data: ")
    case None => []
    case Some(data) =>
      var kind := Field(lines, "event: ");
      [Emitted(if kind.Some? then kind.value else "message", data, Field(lines, "id: "))]
  }

  datatype Drained = Drained(events: seq<Emitted>, rest: string)

  // The events complete in a buffer, and what is left of it.
  function Drain(buffer: string): Drained
    decreases |buffer|
  {
    match Boundary(buffer)
    case None => Drained([], buffer)
    case Some(i) =>
      var later := Drain(buffer[i + 2..]);
      Drained(BlockEvent(LinesOf(buffer[..i])) + later.events, later.rest)
  }

  function Unify(s: string): string {
    if s == "" then ""
    else if |s| >= 2 && s[0] == '\r' && s[1] == '\n' then "\n" + Unify(s[2..])
    else [s[0]] + Unify(s[1..])
  }

  function Received(chunks: seq<string>): Drained {
    if chunks == [] then Drained([], "")
    else
      var before := Received(chunks[..|chunks| - 1]);
      var now := Drain(before.rest + Unify(chunks[|chunks| - 1]));
      Drained(before.events + now.events, now.rest)
  }

  method ReadBlock(block: string) returns (events: seq<Emitted>)
    ensures events == BlockEvent(LinesOf(block))
    ensures |events| <= 1
    ensures events == [] <==> Field(LinesOf(block), "data: ").None?
    ensures events != [] ==>
              && Some(events[0].data) == Field(LinesOf(block), "data: ")
              && events[0].id == Field(LinesOf(block), "id: ")
              && var kind := Field(LinesOf(block), "event: ");
                 if kind.Some? then events[0].kind == kind.value else events[0].kind == "message"
  {
    var lines := LinesOf(block);
    var kind, data, id := "message", None, None;
    for i := 0 to |lines|
      invariant data == Field(lines[..i], "data: ") && id == Field(lines[..i], "id: ")
      invariant kind == match Field(lines[..i], "event: ") { case None => "message" case Some(k) => k }
    {
      var line := lines[i];
      assert lines[..i + 1][..i] == lines[..i];
      assert "event: "[0] == 'e' && "data: "[0] == 'd' && "id: "[0] == 'i';
      if "event: " <= line {
        kind := line[7..];
      } else if "data: " <= line {
        data := Some(line[6..]);
      } else if "id: " <= line {
        id := Some(line[4..]);
      }
    }
    assert lines[..|lines|] == lines;
    events := if data.Some? then [Emitted(kind, data.value, id)] else [];
  }

  lemma DrainStep(buffer: string)
    requires Boundary(buffer).Some?
    ensures var i := Boundary(buffer).value;
            var later := Drain(buffer[i + 2..]);
            Drain(buffer) == Drained(BlockEvent(LinesOf(buffer[..i])) + later.events, later.rest)
  {
  }

  method DrainBuffer(whole: string) returns (events: seq<Emitted>, buffer: string)
    ensures Drain(whole) == Drained(events, buffer)
  {
    hide Drain, BlockEvent, LinesOf;
    events, buffer := [], whole;
    var boundary := Boundary(buffer);
    assert [] + Drain(whole).events == Drain(whole).events;
    while boundary.Some?
      invariant boundary == Boundary(buffer)
      invariant Drain(whole) == Drained(events + Drain(buffer).events, Drain(buffer).rest)
      decreases |buffer|
    {
      DrainStep(buffer);
      var block := buffer[..boundary.value];
      buffer := buffer[boundary.value + 2..];
      boundary := Boundary(buffer);
      var more := ReadBlock(block);
      Seqs.Assoc(events, more, Drain(buffer).events);
      events := events + more;
    }
    NothingMore(buffer);
    assert events + [] == events;
  }

  lemma NothingMore(buffer: string)
    requires Boundary(buffer).None?
    ensures Drain(buffer) == Drained([], buffer)
  {
  }

  method StreamQuery(chunks: seq<string>) returns (emitted: seq<Emitted>)
    ensures emitted == Received(chunks).events
  {
    hide Drain, Unify;
    emitted := [];
    var buffer := "";
    for k := 0 to |chunks|
      invariant Received(chunks[..k]) == Drained(emitted, buffer)
    {
      assert chunks[..k + 1][..k] == chunks[..k];
      var more;
      more, buffer := DrainBuffer(buffer + Unify(chunks[k]));
      emitted := emitted + more;
    }
    assert chunks[..|chunks|] == chunks;
  }
}
