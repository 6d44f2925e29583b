/**
 Group -> ALL (test.py): the loop over a group's positions and its outcome bookkeeping.

 Every turn that was begun is in the log, the one that an exception cut short included, and the log
 accounts for every statement in the storage's journal and every return of the relay driver.
 */
module GroupRun {
  import opened Results
  import opened PositionRun
  import opened Storage
  import RelayMatrix
  import RelayWire
  import Thermistor

  datatype GroupResult = GroupResult(results: map<nat, Outcome>, cancelled: bool, stationFault: bool)

  /**
   One turn of the loop: the run id it was given or the error of asking for one, the statement that
   announced the slot, the attempt, the statement that ended the slot, and what came of it all.
   */
  datatype Slot = Slot(
    c: Case, run: Result<string, Failure>, announced: Option<Statement>, attempt: Option<Attempt>,
    ended: Option<Statement>, result: Result<Outcome, Escape>)

  ghost function Maybe(s: Option<Statement>): seq<Statement> {
    if s.Some? then [s.value] else []
  }

  /** The part of the storage's journal that is this turn's. */
  ghost function SlotStatements(s: Slot): seq<Statement> {
    [Statement(NewRunNumber, Refusal(s.run))] + Maybe(s.announced)
    + (if s.attempt.Some? then Statements(s.attempt.value) else []) + Maybe(s.ended)
  }

  /** The part of the driver's returns that is this turn's. */
  ghost function SlotCalls(s: Slot): seq<Option<RelayMatrix.Failure>> {
    if s.attempt.Some? then Calls(s.attempt.value) else []
  }

  /** The steps of a turn come in order, each after the one before it worked. */
  ghost predicate SlotInOrder(ln: real -> real, s: Slot) {
    && (s.announced.Some? <==> s.run.Ok?)
    && (s.announced.Some? ==> s.announced.value.op == Insert(EventLog, s.c.group.text(SlotStarted)))
    && (s.attempt.Some? <==> s.announced.Some? && s.announced.value.refused.None?)
    && (s.attempt.Some? ==> InOrder(ln, s.c, s.attempt.value))
    && (s.ended.Some? <==> s.attempt.Some? && PositionResult(ln, s.c, s.attempt.value).Ok?)
    && (s.ended.Some? ==>
          s.ended.value.op == Insert(EventLog, s.c.group.text(SlotEnded(PositionResult(ln, s.c, s.attempt.value).value))))
  }

  /** What a turn comes to: the first failure on the way, or the position's outcome. */
  ghost function SlotResult(ln: real -> real, s: Slot): Result<Outcome, Escape>
    requires SlotInOrder(ln, s)
  {
    if s.run.Err? then Err(StorageFailed(s.run.error))
    else if s.announced.value.refused.Some? then Err(StorageFailed(s.announced.value.refused.value))
    else if s.ended.Some? && s.ended.value.refused.Some? then Err(StorageFailed(s.ended.value.refused.value))
    else PositionResult(ln, s.c, s.attempt.value)
  }

  ghost predicate WellJudged(ln: real -> real, s: Slot) {
    SlotInOrder(ln, s) && s.result == SlotResult(ln, s)
  }

  /** The loop goes on after this turn. */
  ghost predicate GoesOn(s: Slot) {
    s.result.Ok? && !Terminal(s.result.value)
  }

  ghost predicate HasSummary(s: Slot) {
    s.attempt.Some? && s.attempt.value.before != [] && s.attempt.value.before[0].refused.None?
  }

  /** The positions that have a configuration, in order. */
  function Eligible(positions: seq<nat>, configured: set<nat>): seq<nat> {
    if positions == [] then []
    else
      var rest := Eligible(positions[..|positions| - 1], configured);
      if positions[|positions| - 1] in configured then rest + [positions[|positions| - 1]] else rest
  }

  /** Exactly the configured ones of the positions asked for. */
  lemma {:induction false} EligibleMembers(positions: seq<nat>, configured: set<nat>, p: nat)
    ensures p in Eligible(positions, configured) <==> p in positions && p in configured
  {
    if positions == [] {
    } else {
      EligibleMembers(positions[..|positions| - 1], configured, p);
      assert positions == positions[..|positions| - 1] + [positions[|positions| - 1]];
    }
  }

  lemma {:induction false} EligibleStep(positions: seq<nat>, configured: set<nat>, i: nat)
    requires i < |positions|
    ensures Eligible(positions[..i + 1], configured) ==
            Eligible(positions[..i], configured) + if positions[i] in configured then [positions[i]] else []
  {
    assert positions[..i + 1][..i] == positions[..i];
  }

  lemma {:induction false} EligiblePrefix(positions: seq<nat>, configured: set<nat>, i: nat)
    requires i <= |positions|
    ensures Eligible(positions[..i], configured) <= Eligible(positions, configured)
    decreases |positions|
  {
    if i == |positions| {
      assert positions[..i] == positions;
    } else {
      var init := positions[..|positions| - 1];
      EligiblePrefix(init, configured, i);
      assert init[..i] == positions[..i];
    }
  }

  ghost function Positions(log: seq<Slot>): (ps: seq<nat>)
    ensures |ps| == |log| && forall i :: 0 <= i < |log| ==> ps[i] == log[i].c.position
  {
    seq(|log|, i requires 0 <= i < |log| => log[i].c.position)
  }

  /** The last outcome of every position whose turn came to one. */
  ghost function Outcomes(log: seq<Slot>): map<nat, Outcome> {
    if log == [] then map[]
    else
      var before, last := Outcomes(log[..|log| - 1]), log[|log| - 1];
      if last.result.Ok? then before[last.c.position := last.result.value] else before
  }

  ghost function LogStatements(log: seq<Slot>): seq<Statement> {
    if log == [] then [] else LogStatements(log[..|log| - 1]) + SlotStatements(log[|log| - 1])
  }

  ghost function LogCalls(log: seq<Slot>): seq<Option<RelayMatrix.Failure>> {
    if log == [] then [] else LogCalls(log[..|log| - 1]) + SlotCalls(log[|log| - 1])
  }

  ghost function Last(log: seq<Slot>): Slot
    requires log != []
  {
    log[|log| - 1]
  }

  /** Every turn runs under an id that no run had before, and no other turn has, and that is pinned to a file. */
  ghost predicate FreshRuns(log: seq<Slot>, known: set<string>, pins: set<string>) {
    && (forall i :: 0 <= i < |log| && log[i].run.Ok? ==> log[i].run.value !in known && log[i].run.value in pins)
    && (forall i, j :: 0 <= i < j < |log| && log[i].run.Ok? && log[j].run.Ok? ==> log[i].run.value != log[j].run.value)
  }

  ghost predicate AllGoOn(log: seq<Slot>) {
    forall i :: 0 <= i < |log| ==> GoesOn(log[i])
  }

  /** A prefix run: only the last turn can stop the loop. */
  ghost predicate PrefixRun(log: seq<Slot>) {
    log == [] || AllGoOn(log[..|log| - 1])
  }

  ghost predicate Judged(ln: real -> real, log: seq<Slot>) {
    forall i {:trigger WellJudged(ln, log[i])} :: 0 <= i < |log| ==> WellJudged(ln, log[i])
  }

  /** Every attempt that got past its first step has a summary of its own. */
  ghost predicate Summarised(log: seq<Slot>, ids: set<string>) {
    forall i :: 0 <= i < |log| && HasSummary(log[i]) ==> log[i].run.Ok? && log[i].run.value in ids
  }

  /** What holds of the turns made however the loop is left. */
  ghost predicate Stopped(ln: real -> real, positions: seq<nat>, configured: set<nat>, log: seq<Slot>,
                          known: set<string>, pins: set<string>, ids: set<string>) {
    && Positions(log) <= Eligible(positions, configured) && PrefixRun(log)
    && FreshRuns(log, known, pins) && Summarised(log, ids) && Judged(ln, log)
  }

  /** The loop was not cut short: every configured position had its turn, or the last one called for a stop. */
  ghost predicate Finished(positions: seq<nat>, configured: set<nat>, log: seq<Slot>) {
    && (log != [] ==> Last(log).result.Ok?)
    && (Positions(log) == Eligible(positions, configured) || (log != [] && Terminal(Last(log).result.value)))
  }

  /** What escapes a group run: an error of its first event, of its last turn, or of its last event. */
  ghost function GroupEscape(started: Statement, log: seq<Slot>, completed: Option<Statement>): Option<Escape> {
    if started.refused.Some? then Some(StorageFailed(started.refused.value))
    else if log != [] && Last(log).result.Err? then Some(Last(log).result.error)
    else if completed.Some? && completed.value.refused.Some? then Some(StorageFailed(completed.value.refused.value))
    else None
  }

  ghost function LogEscape(log: seq<Slot>): Option<Escape> {
    if log != [] && Last(log).result.Err? then Some(Last(log).result.error) else None
  }

  ghost predicate Reported(report: GroupResult, log: seq<Slot>) {
    && report.results == Outcomes(log)
    && (report.cancelled <==> log != [] && Last(log).result == Ok(CANCELLED))
    && (report.stationFault <==> log != [] && Last(log).result == Ok(STATION_FAULT))
  }

  // ---------------------------------------------------------------- one turn

  /** One turn, from pinned runs and summaries `pins`, `ids` to `pins'`, `ids'`: a run of its own, judged. */
  ghost predicate Taken(ln: real -> real, position: nat, pins: set<string>, ids: set<string>, s: Slot,
                        pins': set<string>, ids': set<string>) {
    && s.c.position == position && WellJudged(ln, s)
    && pins <= pins' && ids <= ids'
    && (s.run.Ok? ==> s.run.value !in pins && s.run.value in pins')
    && (HasSummary(s) ==> s.run.value in ids')
  }

  /** The start of a turn: a fresh run id and the event that announces the slot. */
  method OpenSlot(storage: DataStorage, line: string) returns (run: Result<string, Failure>, refused: Option<Failure>)
    requires storage.disk.Valid() && storage.Attached()
    modifies storage, storage.disk
    ensures storage.disk.Valid() && storage.Attached()
    ensures old(storage.disk.pins).Keys <= storage.disk.pins.Keys && storage.disk.summaries == old(storage.disk.summaries)
    ensures storage.journal == old(storage.journal) + [Statement(NewRunNumber, Refusal(run))] + Maybe(Announced(run, line, refused))
    ensures run.Ok? ==> storage.runId == Some(run.value) && run.value !in old(storage.disk.pins) && run.value in storage.disk.pins
  {
    refused := None;
    run := storage.BeginNewRunId();
    if run.Ok? {
      assert storage.db.Some? && run.value in storage.disk.pins;
      var written := storage.Write(EventLog, line);
      refused := Refusal(written);
    }
  }

  /** The statement that announces a slot, made once there is a run id. */
  ghost function Announced(run: Result<string, Failure>, line: string, refused: Option<Failure>): Option<Statement> {
    if run.Ok? then Some(Statement(Insert(EventLog, line), refused)) else None
  }

  /** The rest of a turn: the position itself and the event that ends the slot. */
  method AttemptSlot(ln: real -> real, storage: DataStorage, relay: RelayMatrix.NumatoRelayMatrix, c: Case, runId: string)
    returns (r: Result<Outcome, Escape>, ghost a: Attempt, ghost ended: Option<Statement>)
    requires Thermistor.IsLn(ln) && storage.disk.Valid() && storage.Attached() && relay.Valid() && storage.runId == Some(runId)
    modifies storage.disk`telemetry, storage.disk`written, storage.disk`summaries, storage`journal, relay
    ensures storage.disk.Valid() && storage.Attached() && relay.Valid()
    ensures old(storage.disk.summaries).Keys <= storage.disk.summaries.Keys
    ensures storage.journal == old(storage.journal) + Statements(a) + Maybe(ended) && relay.returned == old(relay.returned) + Calls(a)
    ensures InOrder(ln, c, a) && (ended.Some? <==> PositionResult(ln, c, a).Ok?)
    ensures ended.Some? ==> ended.value.op == Insert(EventLog, c.group.text(SlotEnded(PositionResult(ln, c, a).value)))
    ensures r == if ended.Some? && ended.value.refused.Some? then Err(StorageFailed(ended.value.refused.value)) else PositionResult(ln, c, a)
    ensures a.before != [] && a.before[0].refused.None? ==> runId in storage.disk.summaries
  {
    ended := None;
    r, a := RunOnePosition(ln, storage, relay, c);
    if r.Ok? {
      var line := c.group.text(SlotEnded(r.value));
      var written := storage.Write(EventLog, line);
      ended := Some(Statement(Insert(EventLog, line), Refusal(written)));
      if written.Err? {
        r := Err(StorageFailed(written.error));
      }
    }
  }

  lemma SlotJoined(j: seq<Statement>, s: Slot)
    requires s.announced.Some? && s.attempt.Some?
    ensures j + [Statement(NewRunNumber, Refusal(s.run))] + Maybe(s.announced) + Statements(s.attempt.value) + Maybe(s.ended) == j + SlotStatements(s)
  {
    var first := [Statement(NewRunNumber, Refusal(s.run))] + Maybe(s.announced);
    assert j + [Statement(NewRunNumber, Refusal(s.run))] + Maybe(s.announced) == j + first;
    assert j + first + Statements(s.attempt.value) == j + (first + Statements(s.attempt.value));
  }

  lemma SlotNotBegun(j: seq<Statement>, s: Slot)
    requires s.attempt.None? && s.ended.None?
    ensures j + [Statement(NewRunNumber, Refusal(s.run))] + Maybe(s.announced) == j + SlotStatements(s)
  {
    var first := [Statement(NewRunNumber, Refusal(s.run))] + Maybe(s.announced);
    assert SlotStatements(s) == first;
  }

  /** One turn of the loop: a fresh run id, the slot events and the position itself. */
  method RunSlot(ln: real -> real, storage: DataStorage, relay: RelayMatrix.NumatoRelayMatrix, group: Group, position: nat)
    returns (r: Result<Outcome, Escape>, ghost s: Slot)
    requires Thermistor.IsLn(ln) && storage.disk.Valid() && storage.Attached() && relay.Valid() && position in group.positions
    modifies storage, storage.disk, relay
    ensures storage.disk.Valid() && storage.Attached() && relay.Valid()
    ensures Taken(ln, position, old(storage.disk.pins).Keys, old(storage.disk.summaries).Keys, s,
                  storage.disk.pins.Keys, storage.disk.summaries.Keys)
    ensures storage.journal == old(storage.journal) + SlotStatements(s) && relay.returned == old(relay.returned) + SlotCalls(s)
    ensures s.c.group == group && s.c.config == group.positions[position] && r == s.result
  {
    var probes: Probes := *;
    var c := Case(group, position, group.positions[position], probes);
    ghost var start := storage.journal;
    var run, refused := OpenSlot(storage, group.text(SlotStarted));
    ghost var announced := Announced(run, group.text(SlotStarted), refused);
    if run.Err? || refused.Some? {
      r := Err(StorageFailed(if run.Err? then run.error else refused.value));
      s := Slot(c, run, announced, None, None, r);
      SlotNotBegun(start, s);
      return;
    }
    ghost var a, ended;
    r, a, ended := AttemptSlot(ln, storage, relay, c, run.value);
    s := Slot(c, run, announced, Some(a), ended, r);
    SlotJoined(start, s);
  }

  // ---------------------------------------------------------------- the loop

  /** What holds of the turns made after `i` positions, as long as the loop goes on. */
  ghost predicate Progress(ln: real -> real, positions: seq<nat>, configured: set<nat>, i: nat, log: seq<Slot>, known: set<string>,
                           pins: set<string>, ids: set<string>)
    requires i <= |positions|
  {
    && Positions(log) == Eligible(positions[..i], configured) && AllGoOn(log)
    && FreshRuns(log, known, pins) && known <= pins
    && Summarised(log, ids) && Judged(ln, log)
  }

  /** What holds before each turn of the loop. */
  ghost predicate Turn(ln: real -> real, positions: seq<nat>, configured: set<nat>, i: nat, log: seq<Slot>, known: set<string>,
                       pins: set<string>, ids: set<string>, report: GroupResult)
    requires i <= |positions|
  {
    && Stopped(ln, positions, configured, log, known, pins, ids) && Reported(report, log)
    && (log != [] ==> Last(log).result.Ok?)
    && (!report.cancelled && !report.stationFault ==> Progress(ln, positions, configured, i, log, known, pins, ids))
  }

  /** The running report after one more outcome. */
  function Added(report: GroupResult, position: nat, outcome: Outcome): GroupResult {
    GroupResult(report.results[position := outcome], outcome == CANCELLED, outcome == STATION_FAULT)
  }

  /** From `j` and `calls` on, the journal and the driver's returns are those of the log. */
  ghost predicate Accounted(storage: DataStorage, relay: RelayMatrix.NumatoRelayMatrix, j: seq<Statement>,
                            calls: seq<Option<RelayMatrix.Failure>>, log: seq<Slot>)
    reads storage, relay
  {
    storage.journal == j + LogStatements(log) && relay.returned == calls + LogCalls(log)
  }

  /** One position of the loop, skipped if it is not configured. */
  method TakeTurn(ln: real -> real, storage: DataStorage, relay: RelayMatrix.NumatoRelayMatrix, group: Group,
                  positions: seq<nat>, i: nat, report: GroupResult, ghost log: seq<Slot>, ghost known: set<string>,
                  ghost j: seq<Statement>, ghost calls: seq<Option<RelayMatrix.Failure>>)
    returns (r: Result<GroupResult, Escape>, ghost more: seq<Slot>)
    requires Thermistor.IsLn(ln) && storage.disk.Valid() && storage.Attached() && relay.Valid()
    requires i < |positions| && !report.cancelled && !report.stationFault
    requires Turn(ln, positions, group.positions.Keys, i, log, known, storage.disk.pins.Keys, storage.disk.summaries.Keys, report)
    requires Accounted(storage, relay, j, calls, log)
    modifies storage, storage.disk, relay
    ensures storage.disk.Valid() && storage.Attached() && relay.Valid()
    ensures Accounted(storage, relay, j, calls, more)
    ensures Stopped(ln, positions, group.positions.Keys, more, known, storage.disk.pins.Keys, storage.disk.summaries.Keys)
    ensures r.Ok? ==>
              Turn(ln, positions, group.positions.Keys, i + 1, more, known, storage.disk.pins.Keys, storage.disk.summaries.Keys, r.value)
    ensures r.Err? ==> LogEscape(more) == Some(r.error)
  {
    ghost var pins, ids := storage.disk.pins.Keys, storage.disk.summaries.Keys;
    var position := positions[i];
    if position !in group.positions {
      SkippedTurn(ln, positions, group.positions.Keys, i, log, known, pins, ids, report);
      return Ok(report), log;
    }
    var result;
    ghost var s;
    result, s := RunSlot(ln, storage, relay, group, position);
    NextTurn(ln, positions, group.positions.Keys, i, log, known, pins, ids, report, s, storage.disk.pins.Keys, storage.disk.summaries.Keys);
    AccountedNext(j, calls, log, s);
    more := log + [s];
    r := if result.Ok? then Ok(Added(report, position, result.value)) else Err(result.error);
  }

  lemma AccountedNext(j: seq<Statement>, calls: seq<Option<RelayMatrix.Failure>>, log: seq<Slot>, s: Slot)
    ensures j + LogStatements(log) + SlotStatements(s) == j + LogStatements(log + [s])
    ensures calls + LogCalls(log) + SlotCalls(s) == calls + LogCalls(log + [s])
  {
    assert (log + [s])[..|log|] == log;
  }

  /** The loop over the positions. */
  method RunPositions(ln: real -> real, storage: DataStorage, relay: RelayMatrix.NumatoRelayMatrix, group: Group, positions: seq<nat>)
    returns (r: Result<GroupResult, Escape>, ghost log: seq<Slot>)
    requires Thermistor.IsLn(ln) && storage.disk.Valid() && storage.Attached() && relay.Valid()
    modifies storage, storage.disk, relay
    ensures storage.disk.Valid() && storage.Attached() && relay.Valid()
    ensures Accounted(storage, relay, old(storage.journal), old(relay.returned), log)
    ensures Stopped(ln, positions, group.positions.Keys, log, old(storage.disk.pins).Keys, storage.disk.pins.Keys, storage.disk.summaries.Keys)
    ensures r.Err? ==> LogEscape(log) == Some(r.error)
    ensures r.Ok? ==> LogEscape(log) == None && Finished(positions, group.positions.Keys, log) && Reported(r.value, log)
  {
    ghost var known, j, calls := storage.disk.pins.Keys, storage.journal, relay.returned;
    log := [];
    assert j + LogStatements(log) == j && calls + LogCalls(log) == calls;
    var report := GroupResult(map[], false, false);
    var i := 0;
    NothingYet(ln, positions, group.positions.Keys, known, storage.disk.pins.Keys, storage.disk.summaries.Keys);
    while i < |positions| && !report.cancelled && !report.stationFault
      invariant i <= |positions| && storage.disk.Valid() && storage.Attached() && relay.Valid()
      invariant Accounted(storage, relay, j, calls, log)
      invariant Turn(ln, positions, group.positions.Keys, i, log, known, storage.disk.pins.Keys, storage.disk.summaries.Keys, report)
    {
      var next;
      next, log := TakeTurn(ln, storage, relay, group, positions, i, report, log, known, j, calls);
      if next.Err? {
        return Err(next.error), log;
      }
      report, i := next.value, i + 1;
    }
    LastTurn(ln, positions, group.positions.Keys, i, log, known, storage.disk.pins.Keys, storage.disk.summaries.Keys, report);
    return Ok(report), log;
  }

  /** All statements of a group run. */
  ghost function GroupStatements(started: Statement, log: seq<Slot>, completed: Option<Statement>): seq<Statement> {
    [started] + LogStatements(log) + Maybe(completed)
  }

  lemma GroupJoined(j: seq<Statement>, started: Statement, log: seq<Slot>, completed: Option<Statement>)
    ensures j + [started] + LogStatements(log) + Maybe(completed) == j + GroupStatements(started, log, completed)
  {
    assert j + [started] + LogStatements(log) == j + ([started] + LogStatements(log));
  }

  /**
   `_run_group_all_positions`: the turns are those of the configured positions in order, up to and
   including the first that was cancelled, met a station fault or raised; every turn runs under a
   fresh run id that no run had before, pinned to a file, with its own summary. The turns and the two
   events of the run account for every statement in the journal and every return of the driver; it
   raises exactly when one of the two events or the last turn does, with that error, and otherwise
   the result reports exactly the turns made. The relay interlock holds throughout.
   */
  method RunGroupAllPositions(ln: real -> real, storage: DataStorage, relay: RelayMatrix.NumatoRelayMatrix, group: Group, positions: seq<nat>)
    returns (r: Result<GroupResult, Escape>, ghost log: seq<Slot>, ghost started: Statement, ghost completed: Option<Statement>)
    requires Thermistor.IsLn(ln) && storage.disk.Valid() && storage.Attached() && relay.Valid()
    modifies storage, storage.disk, relay
    ensures storage.disk.Valid() && storage.Attached() && relay.Valid()
    ensures storage.journal == old(storage.journal) + GroupStatements(started, log, completed)
    ensures relay.returned == old(relay.returned) + LogCalls(log)
    ensures started.op == Insert(EventLog, group.text(GroupStarted))
    ensures completed.Some? ==> completed.value.op == Insert(EventLog, group.text(GroupCompleted))
    ensures Stopped(ln, positions, group.positions.Keys, log, old(storage.disk.pins).Keys, storage.disk.pins.Keys, storage.disk.summaries.Keys)
    ensures r.Err? <==> GroupEscape(started, log, completed).Some?
    ensures r.Err? ==> GroupEscape(started, log, completed) == Some(r.error)
    ensures started.refused.Some? ==> log == [] && relay.wire == old(relay.wire)
    ensures completed.Some? <==> started.refused.None? && LogEscape(log).None?
    ensures completed.Some? ==> Finished(positions, group.positions.Keys, log)
    ensures r.Ok? ==> Reported(r.value, log)
    ensures forall i :: 0 <= i < |log| - 1 ==> log[i].result in {Ok(PASS), Ok(FAIL), Ok(SKIPPED)}
    ensures r.Ok? ==> Positions(log) == Eligible(positions, group.positions.Keys) || (log != [] && Last(log).result in {Ok(CANCELLED), Ok(STATION_FAULT)})
    ensures relay.faithfulWrites ==> |relay.bank| <= RelayWire.Max(|relay.initialBank|, 1)
  {
    log, completed := [], None;
    ghost var start, calls := storage.journal, relay.returned;
    var first := storage.Write(EventLog, group.text(GroupStarted));
    started := Statement(Insert(EventLog, group.text(GroupStarted)), Refusal(first));
    if first.Err? {
      r := Err(StorageFailed(first.error));
      assert calls + LogCalls(log) == calls;
    } else {
      r, log, completed := RunAndComplete(ln, storage, relay, group, positions);
    }
    GroupJoined(start, started, log, completed);
    OnlyLastStops(log);
    CountBounded(relay);
  }

  /** The loop and, unless a turn raised, the event that completes it. */
  method RunAndComplete(ln: real -> real, storage: DataStorage, relay: RelayMatrix.NumatoRelayMatrix, group: Group, positions: seq<nat>)
    returns (r: Result<GroupResult, Escape>, ghost log: seq<Slot>, ghost completed: Option<Statement>)
    requires Thermistor.IsLn(ln) && storage.disk.Valid() && storage.Attached() && relay.Valid()
    modifies storage, storage.disk, relay
    ensures storage.disk.Valid() && storage.Attached() && relay.Valid()
    ensures storage.journal == old(storage.journal) + LogStatements(log) + Maybe(completed)
    ensures relay.returned == old(relay.returned) + LogCalls(log)
    ensures completed.Some? ==> completed.value.op == Insert(EventLog, group.text(GroupCompleted))
    ensures Stopped(ln, positions, group.positions.Keys, log, old(storage.disk.pins).Keys, storage.disk.pins.Keys, storage.disk.summaries.Keys)
    ensures completed.Some? <==> LogEscape(log).None?
    ensures completed.Some? ==> Finished(positions, group.positions.Keys, log)
    ensures r.Ok? ==> completed.Some? && completed.value.refused.None? && Reported(r.value, log)
    ensures r.Err? ==>
              if completed.Some? then completed.value.refused.Some? && r.error == StorageFailed(completed.value.refused.value)
              else LogEscape(log) == Some(r.error)
  {
    completed := None;
    r, log := RunPositions(ln, storage, relay, group, positions);
    if r.Ok? {
      var last := storage.Write(EventLog, group.text(GroupCompleted));
      completed := Some(Statement(Insert(EventLog, group.text(GroupCompleted)), Refusal(last)));
      r := if last.Err? then Err(StorageFailed(last.error)) else r;
    }
  }

  lemma OnlyLastStops(log: seq<Slot>)
    requires PrefixRun(log)
    ensures forall i :: 0 <= i < |log| - 1 ==> log[i].result in {Ok(PASS), Ok(FAIL), Ok(SKIPPED)}
  {
    forall i | 0 <= i < |log| - 1 ensures log[i].result in {Ok(PASS), Ok(FAIL), Ok(SKIPPED)} {
      assert GoesOn(log[..|log| - 1][i]);
    }
  }

  lemma CountBounded(relay: RelayMatrix.NumatoRelayMatrix)
    requires relay.Valid()
    ensures relay.faithfulWrites ==> |relay.bank| <= RelayWire.Max(|relay.initialBank|, 1)
  {
    if relay.faithfulWrites { RelayWire.InterlockOverRun(relay.initialBank, relay.wire, relay.bank); }
  }

  /** The statements of a turn that are not its sequence's. */
  ghost function OutsideStatements(s: Slot): seq<Statement> {
    [Statement(NewRunNumber, Refusal(s.run))] + Maybe(s.announced)
    + (if s.attempt.Some? then s.attempt.value.before + s.attempt.value.after else []) + Maybe(s.ended)
  }

  /** A turn raised: a statement of its own was refused, other than a summary by the database, or a relay call of its pre-check raised. */
  ghost predicate TurnRaised(s: Slot) {
    SomeRaising(OutsideStatements(s)) || (s.attempt.Some? && SomeRaised(s.attempt.value.calls))
  }

  lemma RaisingIn(p: seq<Statement>, q: seq<Statement>)
    ensures SomeRaising(p + q) <==> SomeRaising(p) || SomeRaising(q)
  {
    if SomeRaising(p) {
      var i :| 0 <= i < |p| && Raising(p[i]);
      assert Raising((p + q)[i]);
    }
    if SomeRaising(q) {
      var i :| 0 <= i < |q| && Raising(q[i]);
      assert Raising((p + q)[|p| + i]);
    }
    if SomeRaising(p + q) {
      var i :| 0 <= i < |p + q| && Raising((p + q)[i]);
      assert i < |p| ==> Raising(p[i]);
      assert i >= |p| ==> Raising(q[i - |p|]);
    }
  }

  lemma RaisingOne(s: Statement)
    ensures SomeRaising([s]) <==> Raising(s)
  {
    assert [s][0] == s;
  }

  /** A turn comes to an error exactly if it raised. */
  lemma TurnRaisesExactly(ln: real -> real, s: Slot)
    requires WellJudged(ln, s)
    ensures s.result.Err? <==> TurnRaised(s)
  {
    var number := Statement(NewRunNumber, Refusal(s.run));
    var middle := if s.attempt.Some? then s.attempt.value.before + s.attempt.value.after else [];
    RaisingOne(number);
    if s.announced.Some? { RaisingOne(s.announced.value); }
    if s.ended.Some? { RaisingOne(s.ended.value); }
    RaisingIn([number], Maybe(s.announced));
    RaisingIn([number] + Maybe(s.announced), middle);
    RaisingIn([number] + Maybe(s.announced) + middle, Maybe(s.ended));
    if s.attempt.Some? {
      RaisingIn(s.attempt.value.before, s.attempt.value.after);
      RaisesExactly(ln, s.c, s.attempt.value);
    }
  }

  /**
   When a group run raises, exactly: one of its two events was refused or some turn raised, which is
   then the last one.
   */
  lemma GroupRaisesExactly(ln: real -> real, started: Statement, log: seq<Slot>, completed: Option<Statement>)
    requires Judged(ln, log) && PrefixRun(log) && (started.refused.Some? ==> log == [])
    requires completed.Some? <==> started.refused.None? && LogEscape(log).None?
    ensures GroupEscape(started, log, completed).Some? <==>
            || started.refused.Some? || (completed.Some? && completed.value.refused.Some?)
            || exists i :: 0 <= i < |log| && TurnRaised(log[i])
    ensures forall i :: 0 <= i < |log| - 1 ==> !TurnRaised(log[i])
  {
    forall i | 0 <= i < |log| ensures log[i].result.Err? <==> TurnRaised(log[i]) {
      assert WellJudged(ln, log[i]);
      TurnRaisesExactly(ln, log[i]);
    }
    forall i | 0 <= i < |log| - 1 ensures GoesOn(log[i]) {
      assert log[..|log| - 1][i] == log[i];
    }
  }

  /** In no turn of a group run did the sequence start over an energised relay, and none started without a passed pre-check. */
  lemma SequencesStartSafe(ln: real -> real, log: seq<Slot>, i: nat)
    requires Judged(ln, log) && i < |log| && log[i].attempt.Some? && log[i].attempt.value.sequence.Some?
    ensures var a := log[i].attempt.value;
            a.sequence.value.bankBefore == {} && a.calls == [None, None] && Passes(ln, log[i].c) && HasSummary(log[i])
  {
    assert WellJudged(ln, log[i]);
    RefusedBefore(ln, log[i].c, log[i].attempt.value);
  }

  lemma {:induction false} LastTurn(ln: real -> real, positions: seq<nat>, configured: set<nat>, i: nat, log: seq<Slot>, known: set<string>,
                                    pins: set<string>, ids: set<string>, report: GroupResult)
    requires i <= |positions| && Turn(ln, positions, configured, i, log, known, pins, ids, report)
    requires i < |positions| ==> report.cancelled || report.stationFault
    ensures Finished(positions, configured, log)
  {
    assert i == |positions| ==> positions[..i] == positions;
  }

  lemma {:induction false} NothingYet(ln: real -> real, positions: seq<nat>, configured: set<nat>, known: set<string>,
                                      pins: set<string>, ids: set<string>)
    requires known <= pins
    ensures Turn(ln, positions, configured, 0, [], known, pins, ids, GroupResult(map[], false, false))
  {
  }

  /** One more turn, whatever came of it. */
  lemma {:induction false} NextTurn(ln: real -> real, positions: seq<nat>, configured: set<nat>, i: nat, log: seq<Slot>, known: set<string>,
                                    pins: set<string>, ids: set<string>, report: GroupResult, s: Slot, pins': set<string>, ids': set<string>)
    requires i < |positions| && positions[i] in configured && !report.cancelled && !report.stationFault
    requires Turn(ln, positions, configured, i, log, known, pins, ids, report)
    requires Taken(ln, positions[i], pins, ids, s, pins', ids')
    ensures Stopped(ln, positions, configured, log + [s], known, pins', ids')
    ensures s.result.Ok? ==> Turn(ln, positions, configured, i + 1, log + [s], known, pins', ids', Added(report, positions[i], s.result.value))
  {
    ProgressStep(ln, positions, configured, i, log, known, pins, ids, s, pins', ids');
  }

  lemma {:induction false} SkippedTurn(ln: real -> real, positions: seq<nat>, configured: set<nat>, i: nat, log: seq<Slot>, known: set<string>,
                                       pins: set<string>, ids: set<string>, report: GroupResult)
    requires i < |positions| && positions[i] !in configured && !report.cancelled && !report.stationFault
    requires Turn(ln, positions, configured, i, log, known, pins, ids, report)
    ensures Turn(ln, positions, configured, i + 1, log, known, pins, ids, report)
  {
    EligibleStep(positions, configured, i);
  }

  lemma {:induction false} ProgressStep(ln: real -> real, positions: seq<nat>, configured: set<nat>, i: nat, log: seq<Slot>, known: set<string>,
                                        pins: set<string>, ids: set<string>, s: Slot, pins': set<string>, ids': set<string>)
    requires i < |positions| && positions[i] in configured
    requires Progress(ln, positions, configured, i, log, known, pins, ids) && Taken(ln, positions[i], pins, ids, s, pins', ids')
    ensures Stopped(ln, positions, configured, log + [s], known, pins', ids')
    ensures GoesOn(s) ==> Progress(ln, positions, configured, i + 1, log + [s], known, pins', ids')
    ensures s.result.Ok? ==> Outcomes(log + [s]) == Outcomes(log)[s.c.position := s.result.value]
  {
    AppendSlot(log, s);
    EligibleStep(positions, configured, i);
    EligiblePrefix(positions, configured, i + 1);
  }

  lemma {:induction false} AppendSlot(log: seq<Slot>, s: Slot)
    ensures s.result.Ok? ==> Outcomes(log + [s]) == Outcomes(log)[s.c.position := s.result.value]
    ensures Positions(log + [s]) == Positions(log) + [s.c.position]
    ensures (log + [s])[..|log|] == log
  {
    assert (log + [s])[..|log|] == log;
  }

  // ---------------------------------------------------------------- counting

  ghost function With(results: map<nat, Outcome>, o: Outcome): set<nat> {
    set p | p in results && results[p] == o
  }

  lemma {:induction false} OutcomesOf(log: seq<Slot>, p: nat)
    requires PrefixRun(log)
    ensures p in Outcomes(log) && Terminal(Outcomes(log)[p]) ==>
              log != [] && p == Last(log).c.position && Last(log).result == Ok(Outcomes(log)[p])
    ensures AllGoOn(log) && p in Outcomes(log) ==> !Terminal(Outcomes(log)[p])
  {
    if log == [] {
    } else {
      var init := log[..|log| - 1];
      assert PrefixRun(init);
      OutcomesOf(init, p);
    }
  }

  /** The summary line adds up: passed, failed and skipped plus at most one terminal flag make the processed count. */
  lemma CountsAddUp(log: seq<Slot>, report: GroupResult)
    requires PrefixRun(log) && Reported(report, log)
    ensures var results := report.results;
            |With(results, PASS)| + |With(results, FAIL)| + |With(results, SKIPPED)|
            + (if report.cancelled then 1 else 0) + (if report.stationFault then 1 else 0) == |results|
    ensures !(report.cancelled && report.stationFault)
  {
    TerminalKeys(log);
    CountOutcomes(Outcomes(log));
  }

  ghost function TerminalOf(results: map<nat, Outcome>): set<nat> {
    set p | p in results && Terminal(results[p])
  }

  lemma CountOutcomes(results: map<nat, Outcome>)
    ensures |results| == |With(results, PASS)| + |With(results, FAIL)| + |With(results, SKIPPED)| + |TerminalOf(results)|
  {
    var passed, failed, skipped := With(results, PASS), With(results, FAIL), With(results, SKIPPED);
    assert results.Keys == passed + (failed + (skipped + TerminalOf(results)));
    Union(skipped, TerminalOf(results));
    Union(failed, skipped + TerminalOf(results));
    Union(passed, failed + (skipped + TerminalOf(results)));
  }

  lemma Union(a: set<nat>, b: set<nat>)
    requires a !! b
    ensures |a + b| == |a| + |b|
  {
  }

  ghost predicate StopsLoop(s: Slot) {
    s.result.Ok? && Terminal(s.result.value)
  }

  lemma TerminalKeys(log: seq<Slot>)
    requires PrefixRun(log)
    ensures TerminalOf(Outcomes(log)) == if log != [] && StopsLoop(Last(log)) then {Last(log).c.position} else {}
  {
    forall p ensures p in TerminalOf(Outcomes(log)) ==> log != [] && p == Last(log).c.position && StopsLoop(Last(log)) {
      OutcomesOf(log, p);
    }
  }
}
