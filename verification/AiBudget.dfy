// What a workspace's generations can cost in a day, over every run.
module AiBudget {
  import opened Wrappers
  import opened AiQueries

  // A creator holds the workspace's lock from `Lock` to `Decide`; generations
  // may end meanwhile, but for those it is expiring.
  datatype Turn =
    | Idle
    | Locked(ids: set<nat>)
    | Summed(ids: set<nat>, used: nat)

  datatype State = State(rows: seq<Row>, now: nat, turn: Turn)

  datatype Act =
    | Lock
    | Sum
    | Decide(estimate: nat)
    | Create(estimate: nat)
    | Answer(response: string)
    | End(id: nat, outcome: Outcome)
    | Tick(seconds: nat)

  function Expiring(turn: Turn): set<nat> {
    if turn.Idle? then {} else turn.ids
  }

  function Decided(settings: Settings, s: State, estimate: nat): State
    requires s.turn.Summed?
  {
    var expired := Expired(s.rows, s.turn.ids, s.now);
    var rows := if Admit(settings, s.turn.used, Total(expired, Running), estimate).Admitted? then expired + [NewRow(s.now)]
                else s.rows;
    State(rows, s.now, Idle)
  }

  function Step(settings: Settings, s: State, act: Act): State {
    match act
    case Lock =>
      if s.turn.Idle? then s.(turn := Locked(OverdueIds(s.rows, s.now, settings.timeout))) else s
    case Sum =>
      if s.turn.Locked? then
        s.(turn := Summed(s.turn.ids, Used(Expired(s.rows, s.turn.ids, s.now), s.now)))
      else s
    case Decide(estimate) =>
      if s.turn.Summed? then Decided(settings, s, estimate) else s
    case Create(estimate) =>
      if s.turn.Idle? then
        var ids := OverdueIds(s.rows, s.now, settings.timeout);
        Decided(settings, s.(turn := Summed(ids, Used(Expired(s.rows, ids, s.now), s.now))), estimate)
      else s
    case Answer(response) =>
      s.(rows := s.rows + [Row(s.now, Completed, Some(response), None, Some(Usage(0, 0)), Some(s.now))])
    case End(id, outcome) =>
      if id in Expiring(s.turn) || outcome.status.Streaming? then s
      else s.(rows := Finished(s.rows, id, outcome, s.now))
    case Tick(seconds) => s.(now := s.now + seconds)
  }

  function Run(settings: Settings, s: State, acts: seq<Act>): State {
    if acts == [] then s else Step(settings, Run(settings, s, acts[..|acts| - 1]), acts[|acts| - 1])
  }

  // No generation records more than `most` tokens.
  predicate Modest(act: Act, most: nat) {
    act.End? && act.outcome.usage.Some? ==> act.outcome.usage.value.prompt + act.outcome.usage.value.completion <= most
  }

  // No admission is asked for less than `least`; a prompt is never empty.
  predicate Sized(act: Act, least: nat) {
    && (act.Decide? ==> act.estimate >= least)
    && (act.Create? ==> act.estimate >= least)
  }

  predicate RowOk(row: Row, now: nat, most: nat) {
    && (row.status.Streaming? ==> row.usage.None? && row.completedAt.None?)
    && (!row.status.Streaming? ==> row.completedAt.Some? && row.completedAt.value <= now)
    && Tokens(row) <= most
  }

  // ----- sums -----

  lemma {:induction false} TotalUpdate(rows: seq<Row>, id: nat, row: Row, m: Measure)
    requires id < |rows|
    ensures Total(rows[id := row], m) + Value(rows[id], m) == Total(rows, m) + Value(row, m)
    decreases |rows|
  {
    hide Value;
    var n := |rows| - 1;
    if id < n {
      TotalUpdate(rows[..n], id, row, m);
      assert rows[id := row][..n] == rows[..n][id := row];
    } else {
      assert rows[id := row][..n] == rows[..n];
    }
  }

  lemma TotalMore(rows: seq<Row>, row: Row, m: Measure)
    ensures Total(rows + [row], m) == Total(rows, m) + Value(row, m)
  {
    assert (rows + [row])[..|rows|] == rows;
  }

  lemma {:induction false} TotalBelow(a: seq<Row>, b: seq<Row>, m: Measure, n: Measure)
    requires |a| == |b| && forall i :: 0 <= i < |a| ==> Value(a[i], m) <= Value(b[i], n)
    ensures Total(a, m) <= Total(b, n)
    decreases |a|
  {
    hide Value;
    if a != [] {
      TotalBelow(a[..|a| - 1], b[..|a| - 1], m, n);
    }
  }

  // A generation that ends counts for the tokens of its prompt and its answer
  // till midnight, and no longer as running.
  lemma EndCounts(rows: seq<Row>, id: nat, outcome: Outcome, now: nat, later: nat)
    requires id < |rows| && rows[id].status.Streaming? && rows[id].completedAt.None? && now <= later
    requires !outcome.status.Streaming?
    ensures var after := Finished(rows, id, outcome, now);
            && Total(after, Running) == Total(rows, Running) - 1
            && Used(after, later)
               == Used(rows, later)
                  + if outcome.usage.None? || now < DayStart(later) then 0
                    else outcome.usage.value.prompt + outcome.usage.value.completion
  {
    TotalUpdate(rows, id, Ended(rows[id], outcome, now), Running);
    TotalUpdate(rows, id, Ended(rows[id], outcome, now), UsedSince(DayStart(later)));
    hide Total;
  }

  lemma Times(count: nat, one: nat, most: nat)
    requires one <= 1
    ensures (count + one) * most == count * most + if one == 1 then most else 0
  {
  }

  // A time past which nothing has ended leaves only what is running.
  lemma {:induction false} OnlyRunning(rows: seq<Row>, start: nat, most: nat)
    requires forall i :: 0 <= i < |rows| ==> !rows[i].status.Streaming? ==> Value(rows[i], UsedSince(start)) == 0
    ensures Total(rows, Weight(start, most)) == Total(rows, Running) * most
    decreases |rows|
  {
    if rows != [] {
      var n := |rows| - 1;
      OnlyRunning(rows[..n], start, most);
      Times(Total(rows[..n], Running), Value(rows[n], Running), most);
    }
  }

  lemma {:induction false} WeightSplits(rows: seq<Row>, start: nat, most: nat)
    requires forall i :: 0 <= i < |rows| ==> rows[i].status.Streaming? ==> rows[i].completedAt.None?
    ensures Total(rows, Weight(start, most)) == Total(rows, UsedSince(start)) + Total(rows, Running) * most
    decreases |rows|
  {
    if rows != [] {
      var n := |rows| - 1;
      WeightSplits(rows[..n], start, most);
      Times(Total(rows[..n], Running), Value(rows[n], Running), most);
    }
  }

  lemma CapTimes(running: nat, cap: nat, most: nat)
    requires running <= cap
    ensures running * most <= cap * most
  {
  }

  // ----- the invariant -----

  // What a day has cost and what is running may yet cost it stay within `bound`.
  ghost predicate Inv(settings: Settings, s: State, most: nat, bound: int) {
    && (forall i :: 0 <= i < |s.rows| ==> RowOk(s.rows[i], s.now, most))
    && Total(s.rows, Running) <= settings.cap
    && Total(s.rows, Weight(DayStart(s.now), most)) <= bound
    && PastDays(s.rows, DayStart(s.now), bound)
    && (forall i :: i in Expiring(s.turn) ==> i < |s.rows| && s.rows[i].status.Streaming?)
    && (s.turn.Summed? ==>
          Total(s.rows, Weight(DayStart(s.now), most)) <= s.turn.used + settings.cap * most)
  }

  // What was read as used is still no less than what is.
  ghost predicate Counted(s: State) {
    s.turn.Summed? ==> Used(s.rows, s.now) <= s.turn.used
  }

  ghost predicate PastDays(rows: seq<Row>, today: nat, bound: int) {
    forall start: nat :: start % SECONDS_PER_DAY == 0 && start < today ==> Total(rows, UsedOn(start)) <= bound
  }

  lemma EndKeeps(settings: Settings, s: State, most: nat, bound: int, id: nat, outcome: Outcome)
    requires Inv(settings, s, most, bound) && Modest(End(id, outcome), most)
    ensures Inv(settings, Step(settings, s, End(id, outcome)), most, bound)
  {
    var after := Step(settings, s, End(id, outcome));
    if after.rows != s.rows {
      var row := Ended(s.rows[id], outcome, s.now);
      hide Total;
      TotalUpdate(s.rows, id, row, Running);
      TotalUpdate(s.rows, id, row, Weight(DayStart(s.now), most));
      forall start: nat | start % SECONDS_PER_DAY == 0 && start < DayStart(s.now)
        ensures Total(after.rows, UsedOn(start)) <= bound
      {
        TotalUpdate(s.rows, id, row, UsedOn(start));
        DaysApart(start, s.now);
      }
    }
  }

  lemma DaysApart(start: nat, now: nat)
    requires start % SECONDS_PER_DAY == 0 && start < DayStart(now)
    ensures start + SECONDS_PER_DAY <= DayStart(now)
  {
  }

  lemma TickKeeps(settings: Settings, s: State, most: nat, bound: int, seconds: nat)
    requires Inv(settings, s, most, bound) && settings.cap > 0 && bound >= settings.cap * most
    ensures Inv(settings, Step(settings, s, Tick(seconds)), most, bound)
  {
    hide Total, DayStart;
    var after := Step(settings, s, Tick(seconds));
    var today, then' := DayStart(after.now), DayStart(s.now);
    if today != then' {
      DayTurns(s.now, seconds);
      OnlyRunning(s.rows, today, most);
      CapTimes(Total(s.rows, Running), settings.cap, most);
      forall start: nat | start % SECONDS_PER_DAY == 0 && start < today
        ensures Total(s.rows, UsedOn(start)) <= bound
      {
        if start >= then' {
          TotalBelow(s.rows, s.rows, UsedOn(start), Weight(then', most));
        }
      }
    }
  }

  lemma DayTurns(now: nat, seconds: nat)
    requires DayStart(now) != DayStart(now + seconds)
    ensures now < DayStart(now + seconds)
  {
  }

  lemma AnswerKeeps(settings: Settings, s: State, most: nat, bound: int, response: string)
    requires Inv(settings, s, most, bound)
    ensures Inv(settings, Step(settings, s, Answer(response)), most, bound)
  {
    hide Total;
    var row := Row(s.now, Completed, Some(response), None, Some(Usage(0, 0)), Some(s.now));
    TotalMore(s.rows, row, Running);
    TotalMore(s.rows, row, Weight(DayStart(s.now), most));
    forall start: nat | start % SECONDS_PER_DAY == 0 && start < DayStart(s.now)
      ensures Total(s.rows + [row], UsedOn(start)) <= bound
    {
      TotalMore(s.rows, row, UsedOn(start));
    }
  }

  // Expiring frees slots and costs nothing.
  lemma ExpiryFrees(s: State, ids: set<nat>, m: Measure, most: nat)
    requires forall i :: i in ids ==> i < |s.rows| && s.rows[i].status.Streaming?
    requires forall i :: 0 <= i < |s.rows| ==> RowOk(s.rows[i], s.now, most)
    ensures Total(Expired(s.rows, ids, s.now), m) <= Total(s.rows, m)
    ensures m.UsedSince? ==> Total(Expired(s.rows, ids, s.now), m) == Total(s.rows, m)
  {
    TotalBelow(Expired(s.rows, ids, s.now), s.rows, m, m);
    if m.UsedSince? {
      TotalBelow(s.rows, Expired(s.rows, ids, s.now), m, m);
    }
  }

  lemma SumKeeps(settings: Settings, s: State, most: nat, bound: int)
    requires Inv(settings, s, most, bound) && settings.cap > 0
    ensures Inv(settings, Step(settings, s, Sum), most, bound)
  {
    if s.turn.Locked? {
      hide Total;
      var start := DayStart(s.now);
      InvRows(settings, s, most, bound);
      ExpiryFrees(s, s.turn.ids, UsedSince(start), most);
      WeightSplits(s.rows, start, most);
      CapTimes(Total(s.rows, Running), settings.cap, most);
    }
  }

  lemma ExpiredOk(s: State, ids: set<nat>, most: nat)
    requires forall i :: i in ids ==> i < |s.rows| && s.rows[i].status.Streaming?
    requires forall i :: 0 <= i < |s.rows| ==> RowOk(s.rows[i], s.now, most)
    ensures var rows := Expired(s.rows, ids, s.now) + [NewRow(s.now)];
            forall i :: 0 <= i < |rows| ==> RowOk(rows[i], s.now, most)
  {
  }

  // What an admission adds to the exposure, given what its reads were worth.
  lemma DecidedKeeps(settings: Settings, s: State, most: nat, bound: int, estimate: nat)
    requires Inv(settings, s, most, bound) && s.turn.Summed? && settings.cap > 0 && settings.dailyLimit > 0
    requires var expired := Expired(s.rows, s.turn.ids, s.now);
             Admit(settings, s.turn.used, Total(expired, Running), estimate).Admitted? ==>
               Total(expired, Weight(DayStart(s.now), most)) + most <= bound
    ensures Inv(settings, Decided(settings, s, estimate), most, bound)
  {
    hide Total;
    var expired := Expired(s.rows, s.turn.ids, s.now);
    var after := Decided(settings, s, estimate);
    if Admit(settings, s.turn.used, Total(expired, Running), estimate).Admitted? {
      ExpiredOk(s, s.turn.ids, most);
      TotalMore(expired, NewRow(s.now), Running);
      TotalMore(expired, NewRow(s.now), Weight(DayStart(s.now), most));
      forall start: nat | start % SECONDS_PER_DAY == 0 && start < DayStart(s.now)
        ensures Total(after.rows, UsedOn(start)) <= bound
      {
        TotalMore(expired, NewRow(s.now), UsedOn(start));
        ExpiryFrees(s, s.turn.ids, UsedOn(start), most);
      }
    }
  }

  // The reads may be stale by what ended between them.
  lemma DecideKeeps(settings: Settings, s: State, most: nat, bound: int, least: nat, estimate: nat)
    requires Inv(settings, s, most, bound) && settings.cap > 0 && settings.dailyLimit > 0
    requires estimate >= least && bound >= settings.dailyLimit - least + (settings.cap + 1) * most
    ensures Inv(settings, Step(settings, s, Decide(estimate)), most, bound)
  {
    if s.turn.Summed? {
      hide Total, DayStart, Expired, Inv;
      InvRows(settings, s, most, bound);
      ExpiryFrees(s, s.turn.ids, Weight(DayStart(s.now), most), most);
      OneMore(settings.cap, most);
      DecidedKeeps(settings, s, most, bound, estimate);
    }
  }

  lemma OneMore(cap: nat, most: nat)
    ensures (cap + 1) * most == cap * most + most
  {
  }

  // What was read as used is no less than what is: then a slot is free for what
  // is admitted.
  lemma DecideAtOnce(settings: Settings, s: State, most: nat, bound: int, least: nat, estimate: nat)
    requires Inv(settings, s, most, bound) && settings.cap > 0 && settings.dailyLimit > 0
    requires s.turn.Summed? && Counted(s)
    requires estimate >= least && bound >= settings.dailyLimit - least + settings.cap * most
    ensures Inv(settings, Decided(settings, s, estimate), most, bound)
  {
    hide Total, DayStart, Inv, Expired;
    InvRows(settings, s, most, bound);
    var start := DayStart(s.now);
    var expired := Expired(s.rows, s.turn.ids, s.now);
    ExpiryFrees(s, s.turn.ids, UsedSince(start), most);
    ExpiredOk(s, s.turn.ids, most);
    var rows := expired + [NewRow(s.now)];
    assert forall i :: 0 <= i < |expired| ==> expired[i] == rows[i];
    WeightSplits(expired, start, most);
    var running := Total(expired, Running);
    if Admit(settings, s.turn.used, running, estimate).Admitted? {
      OneMore(running, most);
      CapTimes(running + 1, settings.cap, most);
    }
    DecidedKeeps(settings, s, most, bound, estimate);
  }

  // Done at once, what was read is what there is.
  lemma CreateKeeps(settings: Settings, s: State, most: nat, bound: int, least: nat, estimate: nat)
    requires Inv(settings, s, most, bound) && settings.cap > 0 && settings.dailyLimit > 0
    requires estimate >= least && bound >= settings.dailyLimit - least + settings.cap * most
    ensures Inv(settings, Step(settings, s, Create(estimate)), most, bound)
  {
    if s.turn.Idle? {
      hide Total, DayStart, Inv;
      var ids := OverdueIds(s.rows, s.now, settings.timeout);
      var locked := s.(turn := Locked(ids));
      LockKeeps(settings, s, most, bound);
      SumKeeps(settings, locked, most, bound);
      SumCounts(settings, locked, most, bound);
      DecideAtOnce(settings, Step(settings, locked, Sum), most, bound, least, estimate);
    }
  }

  lemma InvRows(settings: Settings, s: State, most: nat, bound: int)
    requires Inv(settings, s, most, bound)
    ensures forall i :: 0 <= i < |s.rows| ==> RowOk(s.rows[i], s.now, most)
    ensures !s.turn.Idle? ==> forall i :: i in s.turn.ids ==> i < |s.rows| && s.rows[i].status.Streaming?
    ensures s.turn.Summed? ==> Total(s.rows, Weight(DayStart(s.now), most)) <= s.turn.used + settings.cap * most
  {
    hide Total;
    if !s.turn.Idle? {
      forall i | i in s.turn.ids
        ensures i < |s.rows| && s.rows[i].status.Streaming?
      {
        assert i in Expiring(s.turn);
      }
    }
  }

  lemma LockKeeps(settings: Settings, s: State, most: nat, bound: int)
    requires Inv(settings, s, most, bound)
    ensures Inv(settings, Step(settings, s, Lock), most, bound)
  {
    hide Total;
  }

  // ----- what was read stays good while nothing ends -----

  lemma SumCounts(settings: Settings, s: State, most: nat, bound: int)
    requires Inv(settings, s, most, bound)
    ensures Counted(Step(settings, s, Sum)) || s.turn.Summed?
  {
    if s.turn.Locked? {
      hide Total;
      InvRows(settings, s, most, bound);
      ExpiryFrees(s, s.turn.ids, UsedSince(DayStart(s.now)), most);
    }
  }

  // An end that takes effect between the two reads of an admission.
  predicate Interferes(settings: Settings, s: State, act: Act) {
    act.End? && s.turn.Summed? && Step(settings, s, act).rows != s.rows
  }

  lemma StaysCounted(settings: Settings, s: State, act: Act, most: nat, bound: int)
    requires Inv(settings, s, most, bound) && Counted(s) && !Interferes(settings, s, act)
    ensures Counted(Step(settings, s, act))
  {
    hide Total, DayStart, Inv;
    match act
    case Sum => SumCounts(settings, s, most, bound);
    case Answer(response) =>
      TotalMore(s.rows, Row(s.now, Completed, Some(response), None, Some(Usage(0, 0)), Some(s.now)),
                UsedSince(DayStart(s.now)));
    case Tick(seconds) => LaterCounts(s.rows, s.now, seconds);
    case _ =>
  }

  lemma LaterCounts(rows: seq<Row>, now: nat, seconds: nat)
    ensures Used(rows, now + seconds) <= Used(rows, now)
  {
    LaterDay(now, seconds);
    hide DayStart;
    TotalBelow(rows, rows, UsedSince(DayStart(now + seconds)), UsedSince(DayStart(now)));
  }

  lemma LaterDay(now: nat, seconds: nat)
    ensures DayStart(now) <= DayStart(now + seconds)
  {
  }

  // ----- over every run -----

  lemma StepKeeps(settings: Settings, s: State, act: Act, most: nat, bound: int, least: nat)
    requires Inv(settings, s, most, bound) && settings.cap > 0 && settings.dailyLimit >= least && settings.dailyLimit > 0
    requires Modest(act, most) && Sized(act, least)
    requires bound >= settings.dailyLimit - least + settings.cap * most
    requires act.Decide? ==> Counted(s) || bound >= settings.dailyLimit - least + (settings.cap + 1) * most
    ensures Inv(settings, Step(settings, s, act), most, bound)
  {
    hide Inv, Step, Counted;
    match act
    case Lock => LockKeeps(settings, s, most, bound);
    case Sum => SumKeeps(settings, s, most, bound);
    case Decide(estimate) =>
      if Counted(s) && s.turn.Summed? {
        DecideAtOnce(settings, s, most, bound, least, estimate);
        DecideSteps(settings, s, estimate);
      } else if s.turn.Summed? {
        DecideKeeps(settings, s, most, bound, least, estimate);
      } else {
        DecideSteps(settings, s, estimate);
      }
    case Create(estimate) => CreateKeeps(settings, s, most, bound, least, estimate);
    case Answer(response) => AnswerKeeps(settings, s, most, bound, response);
    case End(id, outcome) => EndKeeps(settings, s, most, bound, id, outcome);
    case Tick(seconds) => TickKeeps(settings, s, most, bound, seconds);
  }

  lemma DecideSteps(settings: Settings, s: State, estimate: nat)
    ensures Step(settings, s, Decide(estimate)) == if s.turn.Summed? then Decided(settings, s, estimate) else s
  {
    hide Decided;
  }

  function Start(now: nat): State {
    State([], now, Idle)
  }

  // No generation ends between the two reads of an admission.
  predicate Undisturbed(settings: Settings, now: nat, acts: seq<Act>) {
    acts == [] ||
    (&& Undisturbed(settings, now, acts[..|acts| - 1])
     && !Interferes(settings, Run(settings, Start(now), acts[..|acts| - 1]), acts[|acts| - 1]))
  }

  lemma {:induction false} RunKeeps(settings: Settings, now: nat, acts: seq<Act>, most: nat, bound: int, least: nat)
    requires settings.cap > 0 && settings.dailyLimit >= least && settings.dailyLimit > 0
    requires forall i :: 0 <= i < |acts| ==> Modest(acts[i], most) && Sized(acts[i], least)
    requires bound >= settings.dailyLimit - least + settings.cap * most
    requires || Undisturbed(settings, now, acts)
             || bound >= settings.dailyLimit - least + (settings.cap + 1) * most
    ensures Inv(settings, Run(settings, Start(now), acts), most, bound)
    ensures Undisturbed(settings, now, acts) ==> Counted(Run(settings, Start(now), acts))
    decreases |acts|
  {
    if acts == [] {
      NothingYet(settings, now, most, bound);
    } else {
      hide Inv, Step, Counted, Modest, Sized, Interferes;
      var before, act := acts[..|acts| - 1], acts[|acts| - 1];
      RunKeeps(settings, now, before, most, bound, least);
      var s := Run(settings, Start(now), before);
      StepKeeps(settings, s, act, most, bound, least);
      if Undisturbed(settings, now, acts) {
        StaysCounted(settings, s, act, most, bound);
      }
    }
  }

  lemma NothingYet(settings: Settings, now: nat, most: nat, bound: int)
    requires settings.cap > 0 && bound >= 0
    ensures Inv(settings, Start(now), most, bound) && Counted(Start(now))
  {
  }

  // No day has cost more than `bound`, nor will what runs take today past it.
  ghost predicate Bounded(settings: Settings, s: State, most: nat, bound: int) {
    && Total(s.rows, Running) <= settings.cap
    && Used(s.rows, s.now) + Total(s.rows, Running) * most <= bound
    && forall start: nat :: start % SECONDS_PER_DAY == 0 ==> Total(s.rows, UsedOn(start)) <= bound
  }

  lemma InvBounds(settings: Settings, s: State, most: nat, bound: int)
    requires Inv(settings, s, most, bound)
    ensures Bounded(settings, s, most, bound)
  {
    hide Total;
    var today := DayStart(s.now);
    WeightSplits(s.rows, today, most);
    forall start: nat | start % SECONDS_PER_DAY == 0
      ensures Total(s.rows, UsedOn(start)) <= bound
    {
      if start >= today {
        TotalBelow(s.rows, s.rows, UsedOn(start), Weight(today, most));
      }
    }
  }

  // Whatever interleaves, a day stays within its limit, less the least that can
  // be asked for, and one generation more than may run at once.
  lemma BudgetHolds(settings: Settings, now: nat, acts: seq<Act>, most: nat, least: nat)
    requires settings.cap > 0 && settings.dailyLimit >= least && settings.dailyLimit > 0
    requires forall i :: 0 <= i < |acts| ==> Modest(acts[i], most) && Sized(acts[i], least)
    ensures Bounded(settings, Run(settings, Start(now), acts), most,
                    settings.dailyLimit - least + (settings.cap + 1) * most)
  {
    var bound := settings.dailyLimit - least + (settings.cap + 1) * most;
    OneMore(settings.cap, most);
    RunKeeps(settings, now, acts, most, bound, least);
    InvBounds(settings, Run(settings, Start(now), acts), most, bound);
  }

  // If no generation ends between the reads of an admission, it stays within
  // its limit and the generations that may run at once.
  lemma BudgetHoldsAtOnce(settings: Settings, now: nat, acts: seq<Act>, most: nat, least: nat)
    requires settings.cap > 0 && settings.dailyLimit >= least && settings.dailyLimit > 0
    requires forall i :: 0 <= i < |acts| ==> Modest(acts[i], most) && Sized(acts[i], least)
    requires Undisturbed(settings, now, acts)
    ensures Bounded(settings, Run(settings, Start(now), acts), most,
                    settings.dailyLimit - least + settings.cap * most)
  {
    var bound := settings.dailyLimit - least + settings.cap * most;
    RunKeeps(settings, now, acts, most, bound, least);
    InvBounds(settings, Run(settings, Start(now), acts), most, bound);
  }

  // ----- the bound is tight -----

  const EXAMPLE := Settings(1, 11, 300)

  const DONE := Outcome(Completed, Some("x"), None, Some(Usage(5, 5)))

  function Spent(n: nat): seq<Row> {
    seq(n, i => Ended(NewRow(0), DONE, 0))
  }

  lemma {:induction false} SpentTotals(n: nat)
    ensures Used(Spent(n), 0) == 10 * n && Total(Spent(n), Running) == 0
    ensures Expired(Spent(n), {}, 0) == Spent(n)
    ensures Expired(Spent(n) + [NewRow(0)], {}, 0) == Spent(n) + [NewRow(0)]
    ensures OverdueIds(Spent(n), 0, 300) == {} && OverdueIds(Spent(n) + [NewRow(0)], 0, 300) == {}
    decreases n
  {
    if n > 0 {
      SpentTotals(n - 1);
      assert Spent(n)[..n - 1] == Spent(n - 1);
    }
  }

  lemma OneRunning(n: nat)
    ensures Used(Spent(n) + [NewRow(0)], 0) == 10 * n
  {
    SpentTotals(n);
    TotalMore(Spent(n), NewRow(0), UsedSince(0));
  }

  lemma EndsLast(n: nat, turn: Turn)
    requires Expiring(turn) == {}
    ensures Step(EXAMPLE, State(Spent(n) + [NewRow(0)], 0, turn), End(n, DONE)) == State(Spent(n + 1), 0, turn)
  {
    assert (Spent(n) + [NewRow(0)])[n := Ended(NewRow(0), DONE, 0)] == Spent(n + 1);
  }

  lemma CreatesNext(n: nat)
    requires n <= 1
    ensures Step(EXAMPLE, State(Spent(n), 0, Idle), Create(1)) == State(Spent(n) + [NewRow(0)], 0, Idle)
    ensures Step(EXAMPLE, State(Spent(n + 1), 0, Summed({}, 10 * n)), Decide(1))
            == State(Spent(n + 1) + [NewRow(0)], 0, Idle)
  {
    SpentTotals(n);
    SpentTotals(n + 1);
    hide Total, Expired, Spent;
  }

  lemma ReadsBefore(n: nat)
    ensures var s := State(Spent(n) + [NewRow(0)], 0, Idle);
            Step(EXAMPLE, Step(EXAMPLE, s, Lock), Sum) == s.(turn := Summed({}, 10 * n))
  {
    SpentTotals(n);
    OneRunning(n);
    hide Total, Expired, Spent;
  }

  function ExampleActs(): seq<Act> {
    [Create(1), End(0, DONE), Create(1), Lock, Sum, End(1, DONE), Decide(1), End(2, DONE)]
  }

  function Reached(n: nat): State
    requires n <= 8
  {
    Run(EXAMPLE, Start(0), ExampleActs()[..n])
  }

  lemma ReachedNext(n: nat)
    requires n < 8
    ensures Reached(n + 1) == Step(EXAMPLE, Reached(n), ExampleActs()[n])
  {
    hide Step;
    assert ExampleActs()[..n + 1][..n] == ExampleActs()[..n];
  }

  lemma ReachedStart()
    ensures Reached(0) == State(Spent(0), 0, Idle)
  {
    assert ExampleActs()[..0] == [] && Spent(0) == [];
  }

  lemma ExampleRun()
    ensures Reached(8) == State(Spent(3), 0, Idle)
  {
    ReachedStart();
    hide Reached, Step, Spent;
    ReachedNext(0);
    CreatesNext(0);
    ReachedNext(1);
    EndsLast(0, Idle);
    ReachedNext(2);
    CreatesNext(1);
    ReachedNext(3);
    ReachedNext(4);
    ReadsBefore(1);
    ReachedNext(5);
    EndsLast(1, Summed({}, 10));
    ReachedNext(6);
    ReachedNext(7);
    EndsLast(2, Idle);
  }

  // A generation that ends between the two reads of an admission is counted by
  // neither: a run comes to the wider bound, past the tighter one.
  lemma OneMoreThanTheCap()
    ensures var s := Run(EXAMPLE, Start(0), ExampleActs());
            && (forall i :: 0 <= i < |ExampleActs()| ==> Modest(ExampleActs()[i], 10) && Sized(ExampleActs()[i], 1))
            && Used(s.rows, s.now) == EXAMPLE.dailyLimit - 1 + (EXAMPLE.cap + 1) * 10
  {
    ExampleIsModest();
    hide Run, Total, Spent, Reached, Used, Step, ExampleActs;
    ExampleRun();
    SpentTotals(3);
    WholeExample();
  }

  lemma ExampleIsModest()
    ensures forall i :: 0 <= i < |ExampleActs()| ==> Modest(ExampleActs()[i], 10) && Sized(ExampleActs()[i], 1)
  {
  }

  lemma WholeExample()
    ensures Reached(8) == Run(EXAMPLE, Start(0), ExampleActs())
  {
    hide Run;
    assert ExampleActs()[..8] == ExampleActs();
  }

  // ----- "one response's worth" -----

  lemma RunMore(settings: Settings, now: nat, acts: seq<Act>, act: Act)
    ensures Run(settings, Start(now), acts + [act]) == Step(settings, Run(settings, Start(now), acts), act)
    ensures Undisturbed(settings, now, acts + [act])
            <==> Undisturbed(settings, now, acts) && !Interferes(settings, Run(settings, Start(now), acts), act)
  {
    hide Step, Interferes;
    assert (acts + [act])[..|acts|] == acts;
  }

  function Over(tokens: nat): Outcome {
    Outcome(Completed, Some("x"), None, Some(Usage(tokens, 0)))
  }

  // A moment of a run in which no time passes, with what a creator reads there.
  ghost predicate Moment(settings: Settings, now: nat, acts: seq<Act>, n: nat, used: int, running: int) {
    var s := Run(settings, Start(now), acts);
    && Undisturbed(settings, now, acts) && s.turn.Idle? && s.now == now && |s.rows| == n
    && (forall i :: 0 <= i < n ==> s.rows[i].createdAt == now)
    && Used(s.rows, now) == used && Total(s.rows, Running) == running
  }

  lemma FirstMoment(settings: Settings, now: nat)
    ensures Moment(settings, now, [], 0, 0, 0)
  {
  }

  lemma NoneOverdue(settings: Settings, rows: seq<Row>, now: nat)
    requires forall i :: 0 <= i < |rows| ==> rows[i].createdAt == now
    ensures OverdueIds(rows, now, settings.timeout) == {} && Expired(rows, {}, now) == rows
  {
  }

  lemma MomentCreates(settings: Settings, now: nat, acts: seq<Act>, n: nat, used: int, running: int)
    requires Moment(settings, now, acts, n, used, running)
    requires running < settings.cap && used + 1 <= settings.dailyLimit
    ensures Moment(settings, now, acts + [Create(1)], n + 1, used, running + 1)
    ensures Run(settings, Start(now), acts + [Create(1)]).rows[n] == NewRow(now)
  {
    RunMore(settings, now, acts, Create(1));
    var s := Run(settings, Start(now), acts);
    NoneOverdue(settings, s.rows, now);
    TotalMore(s.rows, NewRow(now), UsedSince(DayStart(now)));
    TotalMore(s.rows, NewRow(now), Running);
    hide Run, Total, Expired, OverdueIds, Undisturbed, DayStart;
  }

  lemma MomentEnds(settings: Settings, now: nat, acts: seq<Act>, n: nat, used: int, running: int, id: nat, tokens: nat)
    requires Moment(settings, now, acts, n, used, running) && id < n
    requires Run(settings, Start(now), acts).rows[id] == NewRow(now)
    ensures var after := acts + [End(id, Over(tokens))];
            && Moment(settings, now, after, n, used + tokens, running - 1)
            && Run(settings, Start(now), after).rows
               == Run(settings, Start(now), acts).rows[id := Ended(NewRow(now), Over(tokens), now)]
  {
    RunMore(settings, now, acts, End(id, Over(tokens)));
    var s := Run(settings, Start(now), acts);
    var row := Ended(NewRow(now), Over(tokens), now);
    TotalUpdate(s.rows, id, row, UsedSince(DayStart(now)));
    TotalUpdate(s.rows, id, row, Running);
    hide Run, Total, Undisturbed;
  }

  function TwoAtOnce(settings: Settings, most: nat): seq<Act>
    requires settings.dailyLimit > 0
  {
    [] + [Create(1)] + [End(0, Over(settings.dailyLimit - 1))] + [Create(1)] + [Create(1)]
    + [End(1, Over(most))] + [End(2, Over(most))]
  }

  // With two slots or more, a day overshoots by more than one response even
  // though nothing ends between the reads of an admission; with two, it comes
  // to the bound.
  lemma TwoAtOnceOvershoot(settings: Settings, now: nat, most: nat)
    requires settings.cap >= 2 && settings.dailyLimit > 0 && most >= settings.dailyLimit - 1 && most >= 2
    ensures var acts := TwoAtOnce(settings, most);
            var s := Run(settings, Start(now), acts);
            && Undisturbed(settings, now, acts)
            && (forall i :: 0 <= i < |acts| ==> Modest(acts[i], most) && Sized(acts[i], 1))
            && Used(s.rows, s.now) == settings.dailyLimit - 1 + 2 * most > settings.dailyLimit + most
  {
    hide Run, Undisturbed, Total, Used, DayStart;
    var left := settings.dailyLimit - 1;
    var a1 := [] + [Create(1)];
    var a2 := a1 + [End(0, Over(left))];
    var a3 := a2 + [Create(1)];
    var a4 := a3 + [Create(1)];
    var a5 := a4 + [End(1, Over(most))];
    FirstMoment(settings, now);
    MomentCreates(settings, now, [], 0, 0, 0);
    MomentEnds(settings, now, a1, 1, 0, 1, 0, left);
    MomentCreates(settings, now, a2, 1, left, 0);
    CreatesKeep(settings, now, a3, 2, 1);
    MomentCreates(settings, now, a3, 2, left, 1);
    MomentEnds(settings, now, a4, 3, left, 2, 1, most);
    MomentEnds(settings, now, a5, 3, left + most, 1, 2, most);
  }

  lemma CreatesKeep(settings: Settings, now: nat, acts: seq<Act>, n: nat, id: nat)
    requires var s := Run(settings, Start(now), acts);
             && s.turn.Idle? && s.now == now && |s.rows| == n && id < n
             && (forall i :: 0 <= i < n ==> s.rows[i].createdAt == now)
    ensures var rows := Run(settings, Start(now), acts + [Create(1)]).rows;
            |rows| >= n && rows[id] == Run(settings, Start(now), acts).rows[id]
  {
    RunMore(settings, now, acts, Create(1));
    NoneOverdue(settings, Run(settings, Start(now), acts).rows, now);
    hide Run, Total, Expired, OverdueIds;
  }

  // So a day's overshoot is at most one response's worth over every run in which
  // nothing ends between the reads of an admission, exactly when one generation
  // runs at a time.
  lemma OneResponseExactly(settings: Settings)
    requires settings.cap > 0 && settings.dailyLimit > 0
    ensures (forall now: nat, acts: seq<Act>, most: nat ::
               AtOnce(settings, now, acts, most) ==> OverByOne(settings, now, acts, most))
            <==> settings.cap == 1
  {
    if settings.cap == 1 {
      forall now: nat, acts: seq<Act>, most: nat | AtOnce(settings, now, acts, most)
        ensures OverByOne(settings, now, acts, most)
      {
        BudgetHoldsAtOnce(settings, now, acts, most, 1);
        hide Run, Undisturbed;
      }
    } else {
      var most := settings.dailyLimit + 1;
      TwoAtOnceOvershoot(settings, 0, most);
      hide Run, Undisturbed, Used, TwoAtOnce;
      assert AtOnce(settings, 0, TwoAtOnce(settings, most), most);
      assert !OverByOne(settings, 0, TwoAtOnce(settings, most), most);
    }
  }

  // Generations of at most `most` tokens, asked for by prompts that are not
  // empty, none ending between the reads of an admission.
  predicate AtOnce(settings: Settings, now: nat, acts: seq<Act>, most: nat) {
    && Undisturbed(settings, now, acts)
    && forall i :: 0 <= i < |acts| ==> Modest(acts[i], most) && Sized(acts[i], 1)
  }

  predicate OverByOne(settings: Settings, now: nat, acts: seq<Act>, most: nat) {
    var s := Run(settings, Start(now), acts);
    Used(s.rows, s.now) <= settings.dailyLimit + most
  }
}
