// A workspace's generations: how one is admitted, how its row ends, and what a
// day can cost.
module AiQueries {
  import opened Wrappers

  datatype Status = Streaming | Completed | Failed | Cancelled

  datatype Usage = Usage(prompt: nat, completion: nat)

  datatype Outcome = Outcome(status: Status, response: Option<string>, error: Option<string>, usage: Option<Usage>)

  datatype Row = Row(createdAt: nat, status: Status, response: Option<string>, error: Option<string>,
                     usage: Option<Usage>, completedAt: Option<nat>)

  // A cap or a limit of zero or less is off.
  datatype Settings = Settings(cap: int, dailyLimit: int, timeout: nat)

  const SECONDS_PER_DAY: nat := 86400

  function DayStart(now: nat): (start: nat)
    ensures start <= now < start + SECONDS_PER_DAY
  {
    now - now % SECONDS_PER_DAY
  }

  // ----- one row -----

  function Tokens(row: Row): nat {
    if row.usage.None? then 0 else row.usage.value.prompt + row.usage.value.completion
  }

  // What a sum over the rows counts.
  datatype Measure =
    | UsedSince(start: nat)
    | UsedOn(start: nat)
    | Running
    | Weight(start: nat, most: nat) // what it has cost since then, or may yet

  function Value(row: Row, m: Measure): nat {
    match m
    case UsedSince(start) => if row.completedAt.Some? && row.completedAt.value >= start then Tokens(row) else 0
    case UsedOn(start) =>
      if row.completedAt.Some? && start <= row.completedAt.value < start + SECONDS_PER_DAY then Tokens(row) else 0
    case Running => if row.status.Streaming? then 1 else 0
    case Weight(start, most) =>
      if row.status.Streaming? then most
      else if row.completedAt.Some? && row.completedAt.value >= start then Tokens(row)
      else 0
  }

  function Ended(row: Row, outcome: Outcome, now: nat): Row {
    Row(row.createdAt, outcome.status, outcome.response, outcome.error, outcome.usage, Some(now))
  }

  predicate Overdue(row: Row, now: nat, timeout: nat) {
    row.status.Streaming? && row.createdAt + timeout < now
  }

  function TimedOut(row: Row, now: nat): Row {
    row.(status := Failed, error := Some("ai.timeout"), completedAt := Some(now))
  }

  // ----- all rows -----

  function Total(rows: seq<Row>, m: Measure): nat {
    if rows == [] then 0 else Total(rows[..|rows| - 1], m) + Value(rows[|rows| - 1], m)
  }

  function Used(rows: seq<Row>, now: nat): nat {
    Total(rows, UsedSince(DayStart(now)))
  }

  // Compare and set: only a streaming row ends.
  function Finished(rows: seq<Row>, id: nat, outcome: Outcome, now: nat): seq<Row> {
    if id < |rows| && rows[id].status.Streaming? then rows[id := Ended(rows[id], outcome, now)] else rows
  }

  function Expired(rows: seq<Row>, ids: set<nat>, now: nat): (expired: seq<Row>)
    ensures |expired| == |rows|
  {
    seq(|rows|, i requires 0 <= i < |rows| => if i in ids then TimedOut(rows[i], now) else rows[i])
  }

  function OverdueIds(rows: seq<Row>, now: nat, timeout: nat): set<nat> {
    set i: nat | i < |rows| && Overdue(rows[i], now, timeout)
  }

  function NewRow(now: nat): Row {
    Row(now, Streaming, None, None, None, None)
  }

  datatype Admission = Admitted | TooMany(running: nat) | OverBudget(used: nat, limit: int, needed: nat)

  function Admit(settings: Settings, used: nat, running: nat, estimate: nat): Admission {
    if 0 < settings.cap <= running then TooMany(running)
    else if settings.dailyLimit > 0 && used + estimate > settings.dailyLimit then
      OverBudget(used, settings.dailyLimit, estimate)
    else Admitted
  }

  // ----- the workspace -----

  class Workspace {
    const settings: Settings
    var rows: seq<Row>
    var now: nat

    constructor (settings: Settings, now: nat)
      ensures this.settings == settings && rows == [] && this.now == now
    {
      this.settings := settings;
      rows, this.now := [], now;
    }

    method Finish(id: nat, outcome: Outcome) returns (recorded: bool)
      modifies this`rows
      ensures rows == Finished(old(rows), id, outcome, now)
      ensures recorded <==> id < |old(rows)| && old(rows)[id].status.Streaming?
      ensures |rows| == |old(rows)|
      ensures forall k: nat :: k < |rows| && !(recorded && k == id) ==> rows[k] == old(rows)[k]
      ensures recorded ==>
                && rows[id].createdAt == old(rows)[id].createdAt && rows[id].completedAt == Some(now)
                && rows[id].status == outcome.status && rows[id].response == outcome.response
                && rows[id].error == outcome.error && rows[id].usage == outcome.usage
    {
      recorded := id < |rows| && rows[id].status.Streaming?;
      if recorded {
        rows := rows[id := Ended(rows[id], outcome, now)];
      }
    }

    method ExpireAbandoned()
      modifies this`rows
      ensures rows == Expired(old(rows), OverdueIds(old(rows), now, settings.timeout), now)
      ensures |rows| == |old(rows)|
      ensures forall k: nat :: k < |rows| ==>
                var row := old(rows)[k];
                rows[k] == if row.status == Streaming && row.createdAt + settings.timeout < now
                           then Row(row.createdAt, Failed, row.response, Some("ai.timeout"), row.usage, Some(now))
                           else row
    {
      ghost var ids := OverdueIds(rows, now, settings.timeout);
      var expired := [];
      for i := 0 to |rows|
        invariant |expired| == i && rows == old(rows)
        invariant forall k :: 0 <= k < i ==> expired[k] == if k in ids then TimedOut(rows[k], now) else rows[k]
      {
        expired := expired + [if Overdue(rows[i], now, settings.timeout) then TimedOut(rows[i], now) else rows[i]];
      }
      rows := expired;
    }

    method GetUsage() returns (used: nat, running: nat)
      ensures used == Used(rows, now) && running == Total(rows, Running)
    {
      used, running := 0, 0;
      var start := DayStart(now);
      for i := 0 to |rows|
        invariant used == Total(rows[..i], UsedSince(start))
        invariant running == Total(rows[..i], Running)
      {
        assert rows[..i + 1][..i] == rows[..i];
        used := used + Value(rows[i], UsedSince(start));
        running := running + Value(rows[i], Running);
      }
      assert rows[..|rows|] == rows;
    }

    // Under the workspace's lock. A refusal takes the expiry back with it.
    method CreateQuery(estimate: nat) returns (admission: Admission)
      modifies this`rows
      ensures var expired := Expired(old(rows), OverdueIds(old(rows), now, settings.timeout), now);
              && admission == Admit(settings, Used(expired, now), Total(expired, Running), estimate)
              && rows == if admission.Admitted? then expired + [NewRow(now)] else old(rows)
      ensures var expired := Expired(old(rows), OverdueIds(old(rows), now, settings.timeout), now);
              var used, running := Used(expired, now), Total(expired, Running);
              var full := settings.cap > 0 && running >= settings.cap;
              && (admission == TooMany(running) <==> full)
              && (admission.OverBudget? <==> !full && settings.dailyLimit > 0 && used + estimate > settings.dailyLimit)
              && (admission.OverBudget? ==> admission == OverBudget(used, settings.dailyLimit, estimate))
              && (settings.cap <= 0 && settings.dailyLimit <= 0 ==> admission.Admitted?)
      ensures admission.Admitted? ==>
                |rows| == |old(rows)| + 1 && rows[|old(rows)|] == Row(now, Streaming, None, None, None, None)
    {
      var before := rows;
      ExpireAbandoned();
      var used, running := GetUsage();
      if 0 < settings.cap <= running {
        admission := TooMany(running);
        rows := before;
      } else if settings.dailyLimit > 0 && used + estimate > settings.dailyLimit {
        admission := OverBudget(used, settings.dailyLimit, estimate);
        rows := before;
      } else {
        admission := Admitted;
        rows := rows + [NewRow(now)];
      }
    }
  }
}
