/**
 One position of a charge or discharge run (test.py, test_control/battery_presence_precheck.py,
 test_control/ntc_snapshot.py): the run summary, the traceability log, the presence pre-check on
 the relay matrix, the sequence and the fault classification of what it raises.

 The answers of the DMM and the NTC DAQ are inputs and the sequence is an oracle; the relay driver
 and the storage are the modelled ones. What a position does, returns and raises is stated over
 their own histories: the storage's journal of statements and the driver's wire and returns.
 */
module PositionRun {
  import opened Results
  import opened Storage
  import RelayMatrix
  import RelayWire
  import Thermistor

  datatype Outcome = PASS | FAIL | SKIPPED | CANCELLED | STATION_FAULT

  /** The exception hierarchy of utils/errors.py, rooted in Python's own exceptions. */
  datatype Error =
    | BuiltinException | NIPXIError | HardwareInitError
    | RelayError | RelayStateVerificationError | DAQError | SMUError | SMUStateVerificationError | DMMError
    | SafetyViolationError | ReversePolarityError | BatteryRemovedDuringChargeError | DMMMeasurementLostError
    | OperationCancelledError | NIPXITimeoutError
    | ValidationError | DeviceConfigError | GroupConfigurationError | ConfigurationError | HardwareConfigurationError

  function Parent(e: Error): Error {
    match e
    case RelayStateVerificationError => RelayError
    case SMUStateVerificationError => SMUError
    case ReversePolarityError | BatteryRemovedDuringChargeError | DMMMeasurementLostError => SafetyViolationError
    case DeviceConfigError | GroupConfigurationError | ConfigurationError | HardwareConfigurationError => ValidationError
    case BuiltinException | NIPXIError => BuiltinException
    case _ => NIPXIError
  }

  function Depth(e: Error): nat {
    if e == BuiltinException then 0 else if e == NIPXIError then 1 else if Parent(e) == NIPXIError then 2 else 3
  }

  /** `isinstance(e, classes)`. */
  predicate IsInstance(e: Error, classes: set<Error>)
    decreases Depth(e)
  {
    e in classes || (e != BuiltinException && IsInstance(Parent(e), classes))
  }

  const STATION_HARDWARE_EXCEPTIONS: set<Error> := {RelayError, SMUError, DMMError, DAQError, DMMMeasurementLostError}

  const BATTERY_UNDER_TEST_EXCEPTIONS: set<Error> :=
    {BatteryRemovedDuringChargeError, ReversePolarityError, SafetyViolationError, NIPXITimeoutError}

  datatype SequenceEnd = Completes | OperatorCancels | KeyboardInterrupt | Throws(e: Error)

  /** `_classify_position_exception`. */
  function ClassifyPositionException(e: Error): Outcome {
    if IsInstance(e, STATION_HARDWARE_EXCEPTIONS) then STATION_FAULT
    else if IsInstance(e, BATTERY_UNDER_TEST_EXCEPTIONS) then FAIL
    else STATION_FAULT
  }

  /** How the sequence's end is turned into an outcome. */
  function SequenceOutcome(end: SequenceEnd): Outcome {
    match end
    case Completes => PASS
    case OperatorCancels => CANCELLED
    case KeyboardInterrupt => CANCELLED
    case Throws(e) => if e == OperationCancelledError then CANCELLED else ClassifyPositionException(e)
  }

  /** The outcomes that stop a group run. */
  predicate Terminal(o: Outcome) {
    o == CANCELLED || o == STATION_FAULT
  }

  /**
   An exception from the sequence lets the group go on exactly when it is battery-class and not
   station-class; of the known classes those are the safety violations other than a lost DMM,
   and the timeout.
   */
  lemma OnlyBatteryExceptionsContinue(e: Error)
    ensures !Terminal(SequenceOutcome(Throws(e))) <==>
            IsInstance(e, BATTERY_UNDER_TEST_EXCEPTIONS) && !IsInstance(e, STATION_HARDWARE_EXCEPTIONS)
    ensures !Terminal(SequenceOutcome(Throws(e))) <==>
            e in {SafetyViolationError, ReversePolarityError, BatteryRemovedDuringChargeError, NIPXITimeoutError}
  {
    StationClass(e);
    BatteryClass(e);
  }

  /** `isinstance` looks at most three levels up. */
  lemma Unfold(e: Error, classes: set<Error>)
    ensures IsInstance(e, classes) <==>
            e in classes || Parent(e) in classes || Parent(Parent(e)) in classes || Parent(Parent(Parent(e))) in classes
  {
    var p := Parent(e);
    var g := Parent(p);
    assert IsInstance(p, classes) <==> p in classes || (p != BuiltinException && IsInstance(g, classes));
  }

  /** The classes a station-hardware `isinstance` catches. */
  lemma StationClass(e: Error)
    ensures IsInstance(e, STATION_HARDWARE_EXCEPTIONS) <==>
            e in {RelayError, RelayStateVerificationError, SMUError, SMUStateVerificationError, DMMError, DAQError, DMMMeasurementLostError}
  {
    Unfold(e, STATION_HARDWARE_EXCEPTIONS);
  }

  /** The classes a battery-under-test `isinstance` catches; the lost DMM is among them. */
  lemma BatteryClass(e: Error)
    ensures IsInstance(e, BATTERY_UNDER_TEST_EXCEPTIONS) <==>
            e in {SafetyViolationError, ReversePolarityError, BatteryRemovedDuringChargeError, DMMMeasurementLostError, NIPXITimeoutError}
  {
    Unfold(e, BATTERY_UNDER_TEST_EXCEPTIONS);
  }

  /** Asking for battery-class first would change the answer for exactly one class: the lost DMM. */
  lemma OrderMatters(e: Error)
    ensures (if IsInstance(e, BATTERY_UNDER_TEST_EXCEPTIONS) then FAIL else STATION_FAULT) != ClassifyPositionException(e)
            <==> e == DMMMeasurementLostError
  {
    StationClass(e);
    BatteryClass(e);
  }

  /** What the relay driver raises. */
  function RelayException(f: RelayMatrix.Failure): Error {
    match f
    case InvalidChannel => ValidationError
    case InvalidSettleTime => ValidationError
    case NotPermitted => RelayError
    case CommFailure(timedOut) => if timedOut then NIPXITimeoutError else RelayError
    case RawSocketError => BuiltinException
    case Unparseable => RelayError
    case Mismatch(_) => RelayStateVerificationError
  }

  /**
   A failing relay matrix stops the whole group, as the policy wants of shared equipment, unless
   the command timed out again after a successful reconnect: that timeout is taken for the battery's.
   */
  lemma RelayFailureStopsGroup(f: RelayMatrix.Failure)
    ensures Terminal(SequenceOutcome(Throws(RelayException(f)))) <==> f != RelayMatrix.CommFailure(true)
  {
    StationClass(RelayException(f));
    BatteryClass(RelayException(f));
  }

  // -------------------------------------------------------------- the inputs

  /** What the configuration says of a group and of each of its positions. */
  datatype PositionConfig = PositionConfig(relayAddress: int, ntcWired: bool, trace: seq<string>)

  /** The rows and log lines a run writes besides its trace. */
  datatype Line =
    | DmmReadFailed | BatteryPrecheck | NoNtcChannel | DaqReadFailed | NtcPrecheck | NtcSummary
    | ReversedPolarity | PresenceCheck | TestAborted | StationFaultAborted
    | GroupStarted | SlotStarted | SlotEnded(outcome: Outcome) | GroupCompleted

  /** A battery group and the wording of its lines. */
  datatype Group = Group(size: nat, hasNtcDaq: bool, positions: map<nat, PositionConfig>, text: Line -> string) {
    function Wired(): set<nat> {
      set p | p in positions && positions[p].ntcWired
    }
  }

  /** What the DMM answers over a set of energised relays, and the NTC DAQ at a position; a failing read answers nothing. */
  datatype Probes = Probes(dmm: set<nat> -> Option<real>, ntc: nat -> Option<real>)

  /** One position to be run. */
  datatype Case = Case(group: Group, position: nat, config: PositionConfig, probes: Probes)

  /** A position's NTC channel: none configured, a DAQError, or a voltage. */
  datatype NtcRead = Unwired | DaqFailed | Volts(v: real)

  /** What the DMM answers over exactly the position's relay. */
  function Dmm(c: Case): Option<real> {
    if c.config.relayAddress >= 1 then c.probes.dmm({c.config.relayAddress - 1}) else None
  }

  function NtcAt(c: Case, position: nat): NtcRead {
    if position !in c.group.Wired() then Unwired
    else
      match c.probes.ntc(position)
      case None => DaqFailed
      case Some(v) => Volts(v)
  }

  /** The NTC read of the position itself, if the group has a DAQ and the position is one of its own. */
  function Ntc(c: Case): Option<NtcRead> {
    if c.group.hasNtcDaq && 1 <= c.position <= c.group.size then Some(NtcAt(c, c.position)) else None
  }

  /** The reading of an open position: not a cell, and not a reversed one. */
  predicate BatteryMissing(c: Case) {
    Dmm(c).Some? && -0.5 < Dmm(c).value <= 0.5
  }

  predicate Reversed(c: Case) {
    Dmm(c).Some? && Dmm(c).value <= -0.5
  }

  /** An NTC that was read, and is not there or not plausible. */
  predicate NtcMissing(ln: real -> real, c: Case) {
    && Ntc(c).Some? && Ntc(c).value.Volts?
    && Thermistor.ClassifyNtcPresence(ln, Ntc(c).value.v, Thermistor.NTC_EXCITATION_V) != Ok(Thermistor.PRESENT)
  }

  /** A reading speaks against the start; a reading that failed does not. */
  predicate Blocked(ln: real -> real, c: Case) {
    BatteryMissing(c) || NtcMissing(ln, c)
  }

  predicate DaqFault(c: Case) {
    Ntc(c) == Some(DaqFailed)
  }

  /** The sequence may start. */
  predicate Passes(ln: real -> real, c: Case) {
    !Blocked(ln, c) && !DaqFault(c)
  }

  // -------------------------------------------------- the statements it makes

  /** The statement at `i` is the one that `plan` has there, and only the last may have been refused. */
  ghost predicate AsPlanned(before: seq<Statement>, plan: seq<Op>, after: seq<Statement>, i: nat) {
    && |before| <= i < |after| <= |before| + |plan|
    && after[i].op == plan[i - |before|] && (i < |after| - 1 ==> after[i].refused == None)
  }

  /** From `before` to `after`, the statements of `plan` were made in order, up to the first that raised, which is `refused`. */
  ghost predicate Did(before: seq<Statement>, plan: seq<Op>, refused: Option<Failure>, after: seq<Statement>) {
    && before <= after && |after| <= |before| + |plan|
    && (forall i {:trigger AsPlanned(before, plan, after, i)} :: |before| <= i < |after| ==> AsPlanned(before, plan, after, i))
    && (refused.Some? ==> |before| < |after|)
    && (refused.None? ==> |after| == |before| + |plan|)
    && (|before| < |after| ==> after[|after| - 1].refused == refused)
  }

  lemma DidThen(a: seq<Statement>, p: seq<Op>, b: seq<Statement>, q: seq<Op>, refused: Option<Failure>, c: seq<Statement>)
    requires Did(a, p, None, b) && Did(b, q, refused, c)
    ensures Did(a, p + q, refused, c)
  {
    forall i | |a| <= i < |c| ensures AsPlanned(a, p + q, c, i) {
      if i < |b| {
        assert AsPlanned(a, p, b, i) && c[i] == b[i];
      } else {
        assert AsPlanned(b, q, c, i);
      }
    }
    if |c| == |b| {
      assert c == b;
    }
  }

  lemma DidCut(a: seq<Statement>, p: seq<Op>, refused: Option<Failure>, b: seq<Statement>, q: seq<Op>)
    requires Did(a, p, refused, b) && refused.Some?
    ensures Did(a, p + q, refused, b)
  {
    forall i | |a| <= i < |b| ensures AsPlanned(a, p + q, b, i) {
      assert AsPlanned(a, p, b, i);
    }
  }

  /** One stage after the other: the second is made only if the first was not refused. */
  lemma DidBoth(a: seq<Statement>, p: seq<Op>, first: Option<Failure>, b: seq<Statement>, q: seq<Op>, last: Option<Failure>, c: seq<Statement>)
    requires Did(a, p, first, b)
    requires if first.Some? then c == b && last == first else Did(b, q, last, c)
    ensures Did(a, p + q, last, c)
  {
    if first.Some? {
      DidCut(a, p, first, b, q);
    } else {
      DidThen(a, p, b, q, last, c);
    }
  }

  lemma DidOne(a: seq<Statement>, op: Op, refused: Option<Failure>)
    ensures Did(a, [op], refused, a + [Statement(op, refused)])
  {
  }

  lemma DidSlice(a: seq<Statement>, p: seq<Op>, refused: Option<Failure>, b: seq<Statement>)
    requires Did(a, p, refused, b)
    ensures b == a + b[|a|..] && Did([], p, refused, b[|a|..])
  {
    var d := b[|a|..];
    forall i | 0 <= i < |d| ensures AsPlanned([], p, d, i) {
      assert AsPlanned(a, p, b, |a| + i);
    }
  }

  lemma EachAsPlanned(plan: seq<Op>, refused: Option<Failure>, j: seq<Statement>)
    requires Did([], plan, refused, j)
    ensures forall i :: 0 <= i < |j| ==> j[i].op == plan[i]
    ensures forall i :: 0 <= i < |j| - 1 ==> j[i].refused == None
  {
    forall i | 0 <= i < |j| ensures j[i].op == plan[i] && (i < |j| - 1 ==> j[i].refused == None) {
      assert AsPlanned([], plan, j, i);
    }
  }

  ghost function Events(lines: seq<string>): (ops: seq<Op>)
    ensures |ops| == |lines| && forall i :: 0 <= i < |lines| ==> ops[i] == Insert(EventLog, lines[i])
  {
    seq(|lines|, i requires 0 <= i < |lines| => Insert(EventLog, lines[i]))
  }

  ghost function DmmPlan(c: Case): seq<Op> {
    if Dmm(c).None? then [Insert(EventLog, c.group.text(DmmReadFailed))] else []
  }

  function NtcWarning(c: Case, read: NtcRead): seq<string> {
    match read
    case Unwired => [c.group.text(NoNtcChannel)]
    case DaqFailed => [c.group.text(DaqReadFailed)]
    case Volts(_) => []
  }

  /** A warning if there was no reading, the measurement row, the summary line. */
  ghost function NtcRows(c: Case, warning: seq<string>): seq<Op> {
    Events(warning) + [Insert(Measurements, c.group.text(NtcPrecheck))] + [Insert(EventLog, c.group.text(NtcSummary))]
  }

  ghost function NtcPlan(c: Case, size: nat): seq<Op> {
    if size == 0 then [] else NtcPlan(c, size - 1) + NtcRows(c, NtcWarning(c, NtcAt(c, size)))
  }

  /** The closing log lines of the pre-check. */
  function Findings(c: Case, reversed: bool, blocked: bool): seq<string> {
    (if reversed then [c.group.text(ReversedPolarity)] else []) + [c.group.text(PresenceCheck)]
    + (if blocked then [c.group.text(TestAborted)] else [])
  }

  ghost function CheckPlan(ln: real -> real, c: Case): seq<Op> {
    [Insert(Measurements, c.group.text(BatteryPrecheck))] + NtcPlan(c, if c.group.hasNtcDaq then c.group.size else 0)
    + Events(Findings(c, Reversed(c), Blocked(ln, c)))
  }

  /** The final state, the finished summary and what is logged of it. */
  ghost function Conclusion(lines: seq<string>): seq<Op> {
    [RecordState] + [FinishSummary] + Events(lines)
  }

  /** A start that is not to be is recorded, a DAQ fault as the station's. */
  ghost function ConclusionPlan(ln: real -> real, c: Case): seq<Op> {
    if DaqFault(c) then Conclusion([c.group.text(StationFaultAborted)]) else if Blocked(ln, c) then Conclusion([]) else []
  }

  /** What follows a sequence: a station fault is recorded, and the summary is read for printing. */
  ghost function AfterPlan(c: Case, end: SequenceEnd): seq<Op> {
    (if SequenceOutcome(end) == STATION_FAULT then Conclusion([c.group.text(StationFaultAborted)]) else []) + [QueryIndex]
  }

  /** The statements of the pre-check, as far as the relay lets it get. */
  ghost function PrecheckPlan(ln: real -> real, c: Case, calls: seq<Option<RelayMatrix.Failure>>): seq<Op> {
    if |calls| < 2 then [] else if calls[1].Some? then DmmPlan(c) else DmmPlan(c) + CheckPlan(ln, c)
  }

  /** And with what is recorded of it. */
  ghost function PlanChecked(ln: real -> real, c: Case, calls: seq<Option<RelayMatrix.Failure>>): seq<Op> {
    PrecheckPlan(ln, c, calls) + if calls == [None, None] then ConclusionPlan(ln, c) else []
  }

  /** All statements up to the sequence, as far as the relay lets it get. */
  ghost function PlanBefore(ln: real -> real, c: Case, calls: seq<Option<RelayMatrix.Failure>>): seq<Op> {
    [InsertSummary] + (Events(c.config.trace) + PlanChecked(ln, c, calls))
  }

  // ------------------------------------------------------------- what happened

  /** A sequence: how it ended, the relays energised when it started, the statements and relay calls it made. */
  datatype Run = Run(end: SequenceEnd, bankBefore: set<nat>, statements: seq<Statement>, calls: seq<Option<RelayMatrix.Failure>>)

  /**
   One attempt at a position: the storage statements it made before its sequence, how the relay
   calls of its pre-check came back, the sequence, and the statements it made after that.
   */
  datatype Attempt = Attempt(
    before: seq<Statement>, calls: seq<Option<RelayMatrix.Failure>>, sequence: Option<Run>, after: seq<Statement>)

  /** The part of the storage's journal that is this attempt's. */
  ghost function Statements(a: Attempt): seq<Statement> {
    if a.sequence.None? then a.before else a.before + a.sequence.value.statements + a.after
  }

  /** The part of the driver's returns that is this attempt's. */
  ghost function Calls(a: Attempt): seq<Option<RelayMatrix.Failure>> {
    if a.sequence.None? then a.calls else a.calls + a.sequence.value.calls
  }

  /** What leaves a position as an exception: a storage error, or the pre-check's relay failing. */
  datatype Escape = StorageFailed(f: Failure) | PrecheckRaised(relay: RelayMatrix.Failure)

  ghost function LastRefusal(j: seq<Statement>): Option<Failure> {
    if j == [] then None else j[|j| - 1].refused
  }

  /** `close`, and `open` once `close` has returned; an exception ends the list. */
  ghost predicate CloseThenOpen(calls: seq<Option<RelayMatrix.Failure>>) {
    |calls| <= 2 && (|calls| == 2 ==> calls[0].None?) && (|calls| == 1 ==> calls[0].Some?)
  }

  /**
   The order of an attempt: no relay call before the whole trace is persisted, no statement out of
   plan, a sequence exactly after a pre-check that passed, over an empty bank.
   */
  ghost predicate InOrder(ln: real -> real, c: Case, a: Attempt) {
    && CloseThenOpen(a.calls)
    && Did([], PlanBefore(ln, c, a.calls), LastRefusal(a.before), a.before)
    && (a.calls == [] <==> LastRefusal(a.before).Some? && |a.before| <= 1 + |c.config.trace|)
    && (a.sequence.Some? <==> a.calls == [None, None] && LastRefusal(a.before).None? && Passes(ln, c))
    && (a.sequence.None? ==> a.after == [])
    && (a.sequence.Some? ==>
          a.sequence.value.bankBefore == {} && Did([], AfterPlan(c, a.sequence.value.end), LastRefusal(a.after), a.after))
  }

  lemma FirstIsSummary(ln: real -> real, c: Case, a: Attempt)
    requires InOrder(ln, c, a)
    ensures a.before != [] && a.before[0].op == InsertSummary
  {
    EachAsPlanned(PlanBefore(ln, c, a.calls), LastRefusal(a.before), a.before);
  }

  /** The result of `_run_one_charge_or_discharge_position`, with what it raises: reopening the relay masks what was raised before. */
  ghost function PositionResult(ln: real -> real, c: Case, a: Attempt): Result<Outcome, Escape>
    requires InOrder(ln, c, a)
  {
    FirstIsSummary(ln, c, a);
    var summary := a.before[0].refused;
    if summary == Some(NotOpen) then Err(StorageFailed(NotOpen))
    else if summary.Some? then Ok(FAIL)
    else if a.calls != [] && a.calls[|a.calls| - 1].Some? then Err(PrecheckRaised(a.calls[|a.calls| - 1].value))
    else if LastRefusal(a.before).Some? then Err(StorageFailed(LastRefusal(a.before).value))
    else if DaqFault(c) then Ok(STATION_FAULT)
    else if Blocked(ln, c) then Ok(SKIPPED)
    else if LastRefusal(a.after).Some? then Err(StorageFailed(LastRefusal(a.after).value))
    else Ok(SequenceOutcome(a.sequence.value.end))
  }

  /** A refused statement that is raised: any but a summary that the database refused. */
  predicate Raising(s: Statement) {
    s.refused.Some? && !(s.op == InsertSummary && s.refused != Some(NotOpen))
  }

  ghost predicate SomeRaising(j: seq<Statement>) {
    exists i :: 0 <= i < |j| && Raising(j[i])
  }

  ghost predicate SomeRaised(calls: seq<Option<RelayMatrix.Failure>>) {
    exists i :: 0 <= i < |calls| && calls[i].Some?
  }

  ghost predicate NoSummary(plan: seq<Op>) {
    InsertSummary !in plan
  }

  lemma {:induction false} NtcPlanNoSummary(c: Case, size: nat)
    ensures NoSummary(NtcPlan(c, size))
  {
    if size == 0 {
    } else {
      NtcPlanNoSummary(c, size - 1);
    }
  }

  lemma NoSummaryBoth(p: seq<Op>, q: seq<Op>)
    requires NoSummary(p) && NoSummary(q)
    ensures NoSummary(p + q)
  {
  }

  lemma CheckNoSummary(ln: real -> real, c: Case)
    ensures NoSummary(CheckPlan(ln, c))
  {
    var size := if c.group.hasNtcDaq then c.group.size else 0;
    NtcPlanNoSummary(c, size);
    NoSummaryBoth([Insert(Measurements, c.group.text(BatteryPrecheck))], NtcPlan(c, size));
    NoSummaryBoth([Insert(Measurements, c.group.text(BatteryPrecheck))] + NtcPlan(c, size), Events(Findings(c, Reversed(c), Blocked(ln, c))));
  }

  lemma ConclusionNoSummary(lines: seq<string>)
    ensures NoSummary(Conclusion(lines))
  {
    NoSummaryBoth([RecordState] + [FinishSummary], Events(lines));
  }

  lemma PrecheckNoSummary(ln: real -> real, c: Case, calls: seq<Option<RelayMatrix.Failure>>)
    ensures NoSummary(PrecheckPlan(ln, c, calls))
  {
    CheckNoSummary(ln, c);
    NoSummaryBoth(DmmPlan(c), CheckPlan(ln, c));
  }

  /** The summary is the first statement and no other. */
  lemma SummaryOnlyFirst(ln: real -> real, c: Case, calls: seq<Option<RelayMatrix.Failure>>)
    ensures PlanBefore(ln, c, calls)[0] == InsertSummary && NoSummary(PlanBefore(ln, c, calls)[1..])
  {
    var conclusion := if calls == [None, None] then ConclusionPlan(ln, c) else [];
    ConclusionNoSummary([c.group.text(StationFaultAborted)]);
    ConclusionNoSummary([]);
    PrecheckNoSummary(ln, c, calls);
    NoSummaryBoth(PrecheckPlan(ln, c, calls), conclusion);
    NoSummaryBoth(Events(c.config.trace), PlanChecked(ln, c, calls));
    assert PlanBefore(ln, c, calls)[1..] == Events(c.config.trace) + PlanChecked(ln, c, calls);
  }

  /** Only the last statement can have been refused, and it raises unless it is the only one and the summary. */
  lemma RefusedBefore(ln: real -> real, c: Case, a: Attempt)
    requires InOrder(ln, c, a)
    ensures a.before != [] && a.before[0].op == InsertSummary
    ensures |a.before| > 1 ==> a.before[0].refused == None
    ensures SomeRaising(a.before) <==>
            LastRefusal(a.before).Some? && (|a.before| > 1 || LastRefusal(a.before) == Some(NotOpen))
  {
    SummaryOnlyFirst(ln, c, a.calls);
    RaisingAfterSummary(PlanBefore(ln, c, a.calls), a.before);
  }

  /** In a plan that starts with its only summary, the last statement raises if it was refused, but not as the summary by the database. */
  lemma RaisingAfterSummary(plan: seq<Op>, j: seq<Statement>)
    requires plan != [] && plan[0] == InsertSummary && NoSummary(plan[1..]) && Did([], plan, LastRefusal(j), j)
    ensures j != [] && j[0].op == InsertSummary && (|j| > 1 ==> j[0].refused == None)
    ensures SomeRaising(j) <==> LastRefusal(j).Some? && (|j| > 1 || LastRefusal(j) == Some(NotOpen))
  {
    EachAsPlanned(plan, LastRefusal(j), j);
    var last := |j| - 1;
    if last > 0 {
      assert plan[last] == plan[1..][last - 1];
    }
    if Raising(j[last]) {
      assert SomeRaising(j);
    }
  }

  lemma RefusedAfter(ln: real -> real, c: Case, a: Attempt)
    requires InOrder(ln, c, a)
    ensures SomeRaising(a.after) <==> LastRefusal(a.after).Some?
  {
    if a.sequence.Some? {
      var end := a.sequence.value.end;
      var conclusion := if SequenceOutcome(end) == STATION_FAULT then Conclusion([c.group.text(StationFaultAborted)]) else [];
      ConclusionNoSummary([c.group.text(StationFaultAborted)]);
      NoSummaryBoth(conclusion, [QueryIndex]);
      RaisingWithoutSummary(AfterPlan(c, end), a.after);
    }
  }

  /** In a plan without a summary, some statement raised exactly if the last one was refused. */
  lemma RaisingWithoutSummary(plan: seq<Op>, j: seq<Statement>)
    requires NoSummary(plan) && Did([], plan, LastRefusal(j), j)
    ensures SomeRaising(j) <==> LastRefusal(j).Some?
  {
    EachAsPlanned(plan, LastRefusal(j), j);
    if LastRefusal(j).Some? {
      assert j[|j| - 1].op == plan[|j| - 1];
      assert Raising(j[|j| - 1]);
    }
  }

  /**
   When a position raises, exactly: some storage statement it made outside its sequence was refused,
   other than a summary refused by the database, or some relay call of its pre-check raised.
   */
  lemma RaisesExactly(ln: real -> real, c: Case, a: Attempt)
    requires InOrder(ln, c, a)
    ensures PositionResult(ln, c, a).Err? <==> SomeRaising(a.before) || SomeRaised(a.calls) || SomeRaising(a.after)
  {
    RefusedBefore(ln, c, a);
    RefusedAfter(ln, c, a);
    CallsRaised(a.calls);
  }

  /** What it raises, exactly: what a relay call raised, or else what the refused statement raised. */
  lemma RaisesWhatWasRaised(ln: real -> real, c: Case, a: Attempt)
    requires InOrder(ln, c, a)
    ensures forall f :: PositionResult(ln, c, a) == Err(PrecheckRaised(f)) <==> Some(f) in a.calls
    ensures forall s :: s in a.before + a.after && Raising(s) && !SomeRaised(a.calls) ==>
              PositionResult(ln, c, a) == Err(StorageFailed(s.refused.value))
  {
    RefusedBefore(ln, c, a);
    CallsRaised(a.calls);
    forall s | s in a.before + a.after && Raising(s) && !SomeRaised(a.calls)
      ensures PositionResult(ln, c, a) == Err(StorageFailed(s.refused.value))
    {
      RefusalIsLast(ln, c, a, s);
      RaisedByStatement(ln, c, a, s);
    }
  }

  lemma RaisedByStatement(ln: real -> real, c: Case, a: Attempt, s: Statement)
    requires InOrder(ln, c, a) && !SomeRaised(a.calls) && Raising(s)
    requires (s in a.before && LastRefusal(a.before) == s.refused) || (s in a.after && LastRefusal(a.after) == s.refused)
    ensures PositionResult(ln, c, a) == Err(StorageFailed(s.refused.value))
  {
    RaisesExactly(ln, c, a);
    RefusedBefore(ln, c, a);
    CallsRaised(a.calls);
    if s in a.before {
      assert SomeRaising(a.before);
    } else {
      assert SomeRaising(a.after);
    }
  }

  lemma CallsRaised(calls: seq<Option<RelayMatrix.Failure>>)
    requires CloseThenOpen(calls)
    ensures SomeRaised(calls) <==> calls != [] && calls[|calls| - 1].Some?
    ensures forall f :: Some(f) in calls <==> calls != [] && calls[|calls| - 1] == Some(f)
  {
    if calls != [] && calls[|calls| - 1].Some? {
      assert SomeRaised(calls);
    }
  }

  /** A statement that raised, and whatever is made after it has another journal. */
  lemma RaisingIsLast(plan: seq<Op>, j: seq<Statement>, s: Statement)
    requires Did([], plan, LastRefusal(j), j) && s in j && Raising(s)
    ensures s == j[|j| - 1] && LastRefusal(j) == s.refused
  {
    EachAsPlanned(plan, LastRefusal(j), j);
  }

  /** The one raising statement, if any, is the last one made. */
  lemma RefusalIsLast(ln: real -> real, c: Case, a: Attempt, s: Statement)
    requires InOrder(ln, c, a) && s in a.before + a.after && Raising(s)
    ensures s in a.before ==> a.after == [] && s.refused == LastRefusal(a.before)
    ensures s in a.after ==> s.refused == LastRefusal(a.after)
  {
    if s in a.before {
      RaisingIsLast(PlanBefore(ln, c, a.calls), a.before, s);
    }
    if s in a.after {
      RaisingIsLast(AfterPlan(c, a.sequence.value.end), a.after, s);
    }
  }

  /**
   When a group goes on after a position that did not raise, exactly: its summary was refused, or
   a reading spoke against the start and the DAQ had not failed, or the sequence completed or met the
   battery's own fault. Only a sequence that was started is ever cancelled.
   */
  lemma GoesOnExactly(ln: real -> real, c: Case, a: Attempt)
    requires InOrder(ln, c, a) && PositionResult(ln, c, a).Ok?
    ensures !Terminal(PositionResult(ln, c, a).value) <==>
            || a.calls == []
            || (a.calls != [] && !DaqFault(c) && Blocked(ln, c))
            || (a.sequence.Some? && a.sequence.value.end == Completes)
            || (a.sequence.Some? && a.sequence.value.end.Throws? &&
                a.sequence.value.end.e in {SafetyViolationError, ReversePolarityError, BatteryRemovedDuringChargeError, NIPXITimeoutError})
    ensures PositionResult(ln, c, a).value == CANCELLED ==> a.sequence.Some?
  {
    RefusedBefore(ln, c, a);
    if a.sequence.Some? && a.sequence.value.end.Throws? {
      OnlyBatteryExceptionsContinue(a.sequence.value.end.e);
    }
  }

  /**
   Which outcome a position that did not raise comes to, exactly, over its own history: it passes if
   its sequence completed, is cancelled if the sequence was, is skipped if both relay calls returned,
   the DAQ had not failed and a reading spoke against the start, and fails if the database refused its
   summary or the sequence met the battery's own fault. Everything else is the station's fault.
   */
  lemma OutcomeExactly(ln: real -> real, c: Case, a: Attempt)
    requires InOrder(ln, c, a) && PositionResult(ln, c, a).Ok?
    ensures OutcomeOf(ln, c, a, PositionResult(ln, c, a).value)
  {
    RefusedBefore(ln, c, a);
    if a.sequence.Some? && a.sequence.value.end.Throws? {
      OnlyBatteryExceptionsContinue(a.sequence.value.end.e);
    }
  }

  ghost predicate OutcomeOf(ln: real -> real, c: Case, a: Attempt, outcome: Outcome) {
    && a.before != []
    && (outcome == PASS <==> a.sequence.Some? && a.sequence.value.end == Completes)
    && (outcome == CANCELLED <==>
          && a.sequence.Some?
          && a.sequence.value.end in {OperatorCancels, KeyboardInterrupt, Throws(OperationCancelledError)})
    && (outcome == SKIPPED <==> a.calls == [None, None] && !DaqFault(c) && Blocked(ln, c))
    && (outcome == FAIL <==>
          || a.before[0].refused.Some?
          || (a.sequence.Some? && a.sequence.value.end.Throws? &&
              a.sequence.value.end.e in {SafetyViolationError, ReversePolarityError, BatteryRemovedDuringChargeError, NIPXITimeoutError}))
    && (a.before[0].refused.Some? ==> |a.before| == 1 && a.calls == [] && a.sequence.None?)
  }

  ghost predicate Makes(j: seq<Statement>, op: Op) {
    exists i :: 0 <= i < |j| && j[i].op == op
  }

  lemma MakesItsPlan(plan: seq<Op>, j: seq<Statement>, op: Op)
    requires Did([], plan, None, j)
    ensures Makes(j, op) <==> op in plan
  {
    EachAsPlanned(plan, None, j);
    if op in plan {
      var i :| 0 <= i < |plan| && plan[i] == op;
      assert j[i].op == op;
    }
  }

  lemma {:induction false} NtcPlanUnfinished(c: Case, size: nat)
    ensures FinishSummary !in NtcPlan(c, size)
  {
    if size == 0 {
    } else {
      NtcPlanUnfinished(c, size - 1);
    }
  }

  /**
   What is recorded of it: the position itself finishes the run's summary exactly for a start that was
   blocked or a fault of the station; a sequence that ended in any other way has recorded its own end.
   */
  lemma VerdictRecorded(ln: real -> real, c: Case, a: Attempt)
    requires InOrder(ln, c, a) && PositionResult(ln, c, a).Ok? && a.before[0].refused.None?
    ensures Makes(a.before + a.after, FinishSummary) <==> PositionResult(ln, c, a).value in {SKIPPED, STATION_FAULT}
  {
    RefusedBefore(ln, c, a);
    NtcPlanUnfinished(c, if c.group.hasNtcDaq then c.group.size else 0);
    assert FinishSummary !in DmmPlan(c) && FinishSummary !in CheckPlan(ln, c) && FinishSummary !in PrecheckPlan(ln, c, a.calls);
    assert Conclusion([c.group.text(StationFaultAborted)])[1] == FinishSummary && Conclusion([])[1] == FinishSummary;
    assert FinishSummary in PlanBefore(ln, c, a.calls) <==> DaqFault(c) || Blocked(ln, c);
    MakesItsPlan(PlanBefore(ln, c, a.calls), a.before, FinishSummary);
    if a.sequence.Some? {
      assert FinishSummary in AfterPlan(c, a.sequence.value.end) <==> SequenceOutcome(a.sequence.value.end) == STATION_FAULT;
      MakesItsPlan(AfterPlan(c, a.sequence.value.end), a.after, FinishSummary);
    }
    MakesEither(a.before, a.after, FinishSummary);
  }

  lemma MakesEither(p: seq<Statement>, q: seq<Statement>, op: Op)
    ensures Makes(p + q, op) <==> Makes(p, op) || Makes(q, op)
  {
    if Makes(p, op) {
      var i :| 0 <= i < |p| && p[i].op == op;
      assert (p + q)[i].op == op;
    }
    if Makes(q, op) {
      var i :| 0 <= i < |q| && q[i].op == op;
      assert (p + q)[|p| + i].op == op;
    }
    if Makes(p + q, op) {
      var i :| 0 <= i < |p + q| && (p + q)[i].op == op;
      assert if i < |p| then p[i].op == op else q[i - |p|].op == op;
    }
  }

  // ------------------------------------------------------------- its storage

  ghost predicate Ready(storage: DataStorage)
    reads storage, storage.disk
  {
    storage.disk.Valid() && storage.Attached() && storage.db.Some?
  }

  ghost function EventRows(runId: string, lines: seq<string>): (rows: seq<Row>)
    ensures |rows| == |lines| && forall i :: 0 <= i < |lines| ==> rows[i] == Row(EventLog, runId, lines[i])
  {
    seq(|lines|, i requires 0 <= i < |lines| => Row(EventLog, runId, lines[i]))
  }

  lemma StillThere(a: seq<Row>, b: seq<Row>, c: seq<Row>)
    requires a <= b <= c
    ensures a <= c
  {
  }

  /** From `before` to `after`, the whole trace was persisted under the run, in order, first of all. */
  ghost predicate Traced(before: seq<Row>, runId: string, c: Case, after: seq<Row>) {
    && |before| + |c.config.trace| <= |after|
    && forall i {:trigger TracedAt(before, runId, c, after, i)} :: 0 <= i < |c.config.trace| ==> TracedAt(before, runId, c, after, i)
  }

  ghost predicate TracedAt(before: seq<Row>, runId: string, c: Case, after: seq<Row>, i: nat) {
    i < |c.config.trace| && |before| + i < |after| && after[|before| + i] == Row(EventLog, runId, c.config.trace[i])
  }

  lemma LoggedTrace(before: seq<Row>, runId: string, c: Case, after: seq<Row>)
    requires after == before + EventRows(runId, c.config.trace)
    ensures Traced(before, runId, c, after)
  {
  }

  lemma StillTraced(before: seq<Row>, runId: string, c: Case, traced: seq<Row>, after: seq<Row>)
    requires Traced(before, runId, c, traced) && before <= traced <= after
    ensures Traced(before, runId, c, after) && before <= after
  {
    forall i | 0 <= i < |c.config.trace| ensures TracedAt(before, runId, c, after, i) {
      assert TracedAt(before, runId, c, traced, i);
    }
  }

  lemma OneMoreRow(a: seq<Row>, runId: string, lines: seq<string>, i: nat)
    requires i < |lines|
    ensures a + EventRows(runId, lines[..i]) + [Row(EventLog, runId, lines[i])] == a + EventRows(runId, lines[..i + 1])
  {
    assert EventRows(runId, lines[..i + 1]) == EventRows(runId, lines[..i]) + [Row(EventLog, runId, lines[i])];
  }

  /** One more line logged. */
  lemma LoggedOne(a: seq<Statement>, lines: seq<string>, i: nat, b: seq<Statement>, refused: Option<Failure>)
    requires i < |lines| && Did(a, Events(lines[..i]), None, b)
    ensures var c := b + [Statement(Insert(EventLog, lines[i]), refused)];
            && (refused.None? ==> Did(a, Events(lines[..i + 1]), None, c))
            && (refused.Some? ==> Did(a, Events(lines), refused, c))
  {
    var op := Insert(EventLog, lines[i]);
    DidOne(b, op, refused);
    DidThen(a, Events(lines[..i]), b, [op], refused, b + [Statement(op, refused)]);
    assert Events(lines[..i]) + [op] == Events(lines[..i + 1]);
    if refused.Some? {
      DidCut(a, Events(lines[..i + 1]), refused, b + [Statement(op, refused)], Events(lines[i + 1..]));
      assert Events(lines[..i + 1]) + Events(lines[i + 1..]) == Events(lines);
    }
  }

  /** `log_event` for each line in turn, up to the first that fails. */
  method LogEvents(storage: DataStorage, lines: seq<string>) returns (r: Result<(), Failure>)
    requires Ready(storage)
    modifies storage.disk`telemetry, storage.disk`written, storage`journal
    ensures Ready(storage) && old(storage.disk.written) <= storage.disk.written
    ensures Did(old(storage.journal), Events(lines), Refusal(r), storage.journal)
    ensures r.Ok? ==> storage.disk.written == old(storage.disk.written) + EventRows(storage.runId.value, lines)
  {
    for i := 0 to |lines|
      invariant Ready(storage)
      invariant Did(old(storage.journal), Events(lines[..i]), None, storage.journal)
      invariant storage.disk.written == old(storage.disk.written) + EventRows(storage.runId.value, lines[..i])
    {
      ghost var before := storage.journal;
      OneMoreRow(old(storage.disk.written), storage.runId.value, lines, i);
      r := storage.Write(EventLog, lines[i]);
      LoggedOne(old(storage.journal), lines, i, before, Refusal(r));
      if r.Err? {
        return;
      }
    }
    assert lines[..|lines|] == lines;
    r := Ok(());
  }

  /** The final state of a run and its summary are updated and the given lines logged. */
  method Conclude(storage: DataStorage, lines: seq<string>) returns (r: Result<(), Failure>)
    requires Ready(storage)
    modifies storage.disk`telemetry, storage.disk`written, storage`journal
    ensures Ready(storage) && old(storage.disk.written) <= storage.disk.written
    ensures Did(old(storage.journal), Conclusion(lines), Refusal(r), storage.journal)
  {
    ghost var start := storage.journal;
    r := storage.UseIndex(RecordState);
    ghost var recorded, first := storage.journal, Refusal(r);
    DidOne(start, RecordState, first);
    if r.Ok? {
      r := storage.UseIndex(FinishSummary);
      DidOne(recorded, FinishSummary, Refusal(r));
    }
    ghost var finished, second := storage.journal, Refusal(r);
    DidBoth(start, [RecordState], first, recorded, [FinishSummary], second, finished);
    if r.Ok? {
      r := LogEvents(storage, lines);
    }
    DidBoth(start, [RecordState] + [FinishSummary], second, finished, Events(lines), Refusal(r), storage.journal);
  }

  // ----------------------------------------------------------- the pre-check

  datatype BatteryPresence = BatteryPresent | BatteryAbsent | BatteryReversed

  /** `classify_battery_presence`. */
  function ClassifyBatteryPresence(voltage: real): BatteryPresence {
    if voltage <= -0.5 then BatteryReversed
    else if voltage <= 0.5 then BatteryAbsent
    else BatteryPresent
  }

  /** How many of the two calls returned normally, settled. */
  ghost function Normal(calls: seq<Option<RelayMatrix.Failure>>): nat {
    if |calls| < 2 then 0 else if calls[1].Some? then 1 else 2
  }

  /** What the pre-check's calls did to the driver and left behind. */
  twostate predicate RelayLeft(relay: RelayMatrix.NumatoRelayMatrix, address: int, new calls: seq<Option<RelayMatrix.Failure>>)
    reads relay
  {
    && CloseThenOpen(calls)
    && relay.returned == old(relay.returned) + calls
    && relay.settled == old(relay.settled) + Normal(calls)
    && (calls == [] || calls == [Some(RelayMatrix.InvalidChannel)] ==> relay.bank == old(relay.bank) && relay.wire == old(relay.wire))
    && (calls != [] ==> (calls[0] == Some(RelayMatrix.InvalidChannel) <==> !(1 <= address <= relay.numChannels)))
    && (calls == [Some(RelayMatrix.InvalidSettleTime)] ==> relay.bank == {address - 1} && relay.settleTime <= 0.0)
    && (|calls| == 1 && calls[0] != Some(RelayMatrix.InvalidChannel) && calls[0] != Some(RelayMatrix.InvalidSettleTime) ==>
          RelayMatrix.FailedReadback(calls[0].value) && RelayMatrix.FailsSafe(Err(calls[0].value), relay.wire, relay.bank))
    && (|calls| == 2 ==> relay.settleTime > 0.0)
    && (|calls| == 2 && calls[1].Some? ==>
          RelayMatrix.FailedReadback(calls[1].value) && RelayMatrix.FailsSafe(Err(calls[1].value), relay.wire, relay.bank))
    && (calls == [None, None] ==>
          && relay.bank == {}
          && RelayWire.Issued(relay.wire) ==
             RelayWire.Issued(old(relay.wire)) + RelayMatrix.ClosePlan(address - 1) + RelayMatrix.ForceOffPlan())
  }

  /** One of the calls raised exactly if fewer than two of them returned settled. */
  lemma NormalReturns(calls: seq<Option<RelayMatrix.Failure>>)
    requires CloseThenOpen(calls) && calls != []
    ensures SomeRaised(calls) <==> Normal(calls) < 2
  {
    CallsRaised(calls);
  }

  /** The DMM is read over whatever is energised; a failing read is logged, and the log itself may fail. */
  method ReadDmm(storage: DataStorage, relay: RelayMatrix.NumatoRelayMatrix, c: Case)
    returns (volts: Option<real>, logged: Result<(), Failure>)
    requires Ready(storage) && 1 <= c.config.relayAddress && relay.bank == {c.config.relayAddress - 1}
    modifies storage.disk`telemetry, storage.disk`written, storage`journal
    ensures Ready(storage) && old(storage.disk.written) <= storage.disk.written
    ensures volts == Dmm(c) && Did(old(storage.journal), DmmPlan(c), Refusal(logged), storage.journal)
  {
    volts, logged := c.probes.dmm(relay.bank), Ok(());
    if volts.None? {
      logged := storage.Write(EventLog, c.group.text(DmmReadFailed));
    }
  }

  /**
   The battery half of the pre-check: the relay is closed, the DMM read over exactly that relay, and
   the relay opened again whatever the reading came to. It raises what the driver raised, or what
   logging a failed reading raised, and nothing else.
   */
  method BatteryCheck(storage: DataStorage, relay: RelayMatrix.NumatoRelayMatrix, c: Case)
    returns (r: Result<Option<real>, Escape>, ghost calls: seq<Option<RelayMatrix.Failure>>, ghost lost: Option<Failure>)
    requires Ready(storage) && relay.Valid()
    modifies storage.disk`telemetry, storage.disk`written, storage`journal, relay
    ensures Ready(storage) && old(storage.disk.written) <= storage.disk.written && relay.Valid()
    ensures calls != [] && RelayLeft(relay, c.config.relayAddress, calls)
    ensures Did(old(storage.journal), if |calls| == 2 then DmmPlan(c) else [], lost, storage.journal)
    ensures r == CheckResult(calls, lost, Dmm(c))
  {
    lost := None;
    var closed := relay.Close(c.config.relayAddress);
    calls := [Refused(closed)];
    if closed.Err? {
      return Err(PrecheckRaised(closed.error)), calls, lost;
    }
    var volts, logged := ReadDmm(storage, relay, c);
    lost := Refusal(logged);
    var reopened := relay.Open(c.config.relayAddress);
    calls := [None, Refused(reopened)];
    assert calls[0] == None && calls[1] == Refused(reopened);
    if reopened.Err? {
      return Err(PrecheckRaised(reopened.error)), calls, lost;
    }
    return if logged.Err? then Err(StorageFailed(logged.error)) else Ok(volts), calls, lost;
  }

  function Refused(r: RelayMatrix.Outcome<()>): Option<RelayMatrix.Failure> {
    if r.Err? then Some(r.error) else None
  }

  /** A value, unless a call or a statement raised. */
  ghost function CheckResult<T>(calls: seq<Option<RelayMatrix.Failure>>, lost: Option<Failure>, value: T): Result<T, Escape> {
    if calls != [] && calls[|calls| - 1].Some? then Err(PrecheckRaised(calls[|calls| - 1].value))
    else if lost.Some? then Err(StorageFailed(lost.value))
    else Ok(value)
  }

  /** One entry of the NTC snapshot. */
  datatype NtcResult = NtcResult(position: nat, presence: Thermistor.Presence, readable: bool, daqCommFailure: bool)

  /** An entry says what its channel was read to be. */
  predicate Judges(ln: real -> real, n: NtcResult, read: NtcRead) {
    && n.readable == read.Volts? && n.daqCommFailure == read.DaqFailed?
    && (if read.Volts? then Ok(n.presence) == Thermistor.ClassifyNtcPresence(ln, read.v, Thermistor.NTC_EXCITATION_V)
        else n.presence == Thermistor.FAULT)
  }

  /** One position's NTC channel: no reading, a failing DAQ or a voltage that is classified. */
  method ReadNtc(ln: real -> real, c: Case, position: nat) returns (n: NtcResult, warning: seq<string>)
    requires Thermistor.IsLn(ln)
    ensures n.position == position && Judges(ln, n, NtcAt(c, position))
    ensures warning == NtcWarning(c, NtcAt(c, position))
  {
    if position !in c.group.Wired() {
      return NtcResult(position, Thermistor.FAULT, false, false), [c.group.text(NoNtcChannel)];
    }
    var volts := c.probes.ntc(position);
    if volts == None {
      return NtcResult(position, Thermistor.FAULT, false, true), [c.group.text(DaqReadFailed)];
    }
    Thermistor.PresentIsOneInterval(ln, volts.value, volts.value, volts.value);
    var presence := Thermistor.ClassifyNtcPresence(ln, volts.value, Thermistor.NTC_EXCITATION_V);
    return NtcResult(position, presence.value, true, false), [];
  }

  /** The rows of one entry. */
  method RecordNtc(storage: DataStorage, c: Case, warning: seq<string>) returns (r: Result<(), Failure>)
    requires Ready(storage)
    modifies storage.disk`telemetry, storage.disk`written, storage`journal
    ensures Ready(storage) && old(storage.disk.written) <= storage.disk.written
    ensures Did(old(storage.journal), NtcRows(c, warning), Refusal(r), storage.journal)
  {
    ghost var start := storage.journal;
    ghost var row, line := Insert(Measurements, c.group.text(NtcPrecheck)), Insert(EventLog, c.group.text(NtcSummary));
    r := LogEvents(storage, warning);
    ghost var warned, first := storage.journal, Refusal(r);
    if r.Ok? {
      r := storage.Write(Measurements, c.group.text(NtcPrecheck));
      DidOne(warned, row, Refusal(r));
    }
    ghost var measured, second := storage.journal, Refusal(r);
    DidBoth(start, Events(warning), first, warned, [row], second, measured);
    if r.Ok? {
      r := storage.Write(EventLog, c.group.text(NtcSummary));
      DidOne(measured, line, Refusal(r));
    }
    DidBoth(start, Events(warning) + [row], second, measured, [line], Refusal(r), storage.journal);
  }

  /** A snapshot cut short. */
  lemma {:induction false} NtcPlanCut(a: seq<Statement>, c: Case, n: nat, size: nat, refused: Option<Failure>, b: seq<Statement>)
    requires n <= size && refused.Some? && Did(a, NtcPlan(c, n), refused, b)
    ensures Did(a, NtcPlan(c, size), refused, b)
  {
    if n == size {
    } else {
      NtcPlanCut(a, c, n, size - 1, refused, b);
      DidCut(a, NtcPlan(c, size - 1), refused, b, NtcRows(c, NtcWarning(c, NtcAt(c, size))));
    }
  }

  /** The entries of a snapshot, in order of position. */
  ghost predicate AllJudged(ln: real -> real, c: Case, results: seq<NtcResult>) {
    forall i :: 0 <= i < |results| ==> results[i].position == i + 1 && Judges(ln, results[i], NtcAt(c, i + 1))
  }

  lemma OneMoreJudged(ln: real -> real, c: Case, results: seq<NtcResult>, n: NtcResult)
    requires AllJudged(ln, c, results) && n.position == |results| + 1 && Judges(ln, n, NtcAt(c, |results| + 1))
    ensures AllJudged(ln, c, results + [n])
  {
  }

  /** One more position of the snapshot, whose statements so far are those of `n` positions. */
  method SnapshotOne(ln: real -> real, storage: DataStorage, c: Case, n: nat, ghost start: seq<Statement>)
    returns (r: Result<NtcResult, Failure>)
    requires Thermistor.IsLn(ln) && Ready(storage) && n < c.group.size
    requires Did(start, NtcPlan(c, n), None, storage.journal)
    modifies storage.disk`telemetry, storage.disk`written, storage`journal
    ensures Ready(storage) && old(storage.disk.written) <= storage.disk.written
    ensures r.Ok? ==> Did(start, NtcPlan(c, n + 1), None, storage.journal)
    ensures r.Ok? ==> r.value.position == n + 1 && Judges(ln, r.value, NtcAt(c, n + 1))
    ensures r.Err? ==> Did(start, NtcPlan(c, c.group.size), Some(r.error), storage.journal)
  {
    ghost var before := storage.journal;
    var entry, warning := ReadNtc(ln, c, n + 1);
    var recorded := RecordNtc(storage, c, warning);
    SnapshotStep(start, c, n, before, Refusal(recorded), storage.journal);
    return if recorded.Err? then Err(recorded.error) else Ok(entry);
  }

  lemma SnapshotStep(start: seq<Statement>, c: Case, n: nat, before: seq<Statement>, refused: Option<Failure>, after: seq<Statement>)
    requires n < c.group.size
    requires Did(start, NtcPlan(c, n), None, before) && Did(before, NtcRows(c, NtcWarning(c, NtcAt(c, n + 1))), refused, after)
    ensures refused.None? ==> Did(start, NtcPlan(c, n + 1), None, after)
    ensures refused.Some? ==> Did(start, NtcPlan(c, c.group.size), refused, after)
  {
    DidThen(start, NtcPlan(c, n), before, NtcRows(c, NtcWarning(c, NtcAt(c, n + 1))), refused, after);
    if refused.Some? {
      NtcPlanCut(start, c, n + 1, c.group.size, refused, after);
    }
  }

  /** `ntc_group_snapshot`: every position of the group in order, or nothing without an NTC DAQ. */
  method NtcSnapshot(ln: real -> real, storage: DataStorage, c: Case) returns (r: Result<seq<NtcResult>, Failure>)
    requires Thermistor.IsLn(ln) && Ready(storage)
    modifies storage.disk`telemetry, storage.disk`written, storage`journal
    ensures Ready(storage) && old(storage.disk.written) <= storage.disk.written
    ensures Did(old(storage.journal), NtcPlan(c, if c.group.hasNtcDaq then c.group.size else 0), Refusal(r), storage.journal)
    ensures r.Ok? ==> |r.value| == (if c.group.hasNtcDaq then c.group.size else 0) && AllJudged(ln, c, r.value)
  {
    if c.group.hasNtcDaq {
      r := Snapshot(ln, storage, c);
    } else {
      r := Ok([]);
    }
  }

  /** The scan loop. */
  method Snapshot(ln: real -> real, storage: DataStorage, c: Case) returns (r: Result<seq<NtcResult>, Failure>)
    requires Thermistor.IsLn(ln) && Ready(storage)
    modifies storage.disk`telemetry, storage.disk`written, storage`journal
    ensures Ready(storage) && old(storage.disk.written) <= storage.disk.written
    ensures Did(old(storage.journal), NtcPlan(c, c.group.size), Refusal(r), storage.journal)
    ensures r.Ok? ==> |r.value| == c.group.size && AllJudged(ln, c, r.value)
  {
    var results: seq<NtcResult> := [];
    ghost var start, written := storage.journal, storage.disk.written;
    var n := 0;
    while n < c.group.size
      invariant |results| == n <= c.group.size && AllJudged(ln, c, results)
      invariant Ready(storage) && written <= storage.disk.written
      invariant Did(start, NtcPlan(c, n), None, storage.journal)
    {
      ghost var before := storage.disk.written;
      var entry := SnapshotOne(ln, storage, c, n, start);
      StillThere(written, before, storage.disk.written);
      if entry.Err? {
        return Err(entry.error);
      }
      OneMoreJudged(ln, c, results, entry.value);
      results, n := results + [entry.value], n + 1;
    }
    return Ok(results);
  }

  datatype Precheck = Precheck(ok: bool, stationFault: bool)

  /** The reasons not to start: a readable battery that is absent, a readable NTC that is not present. */
  method Reasons(ln: real -> real, c: Case, battery: Option<real>, target: Option<NtcResult>) returns (reasons: seq<string>)
    requires battery == Dmm(c)
    requires (target.Some? <==> Ntc(c).Some?) && (target.Some? ==> Judges(ln, target.value, Ntc(c).value))
    ensures reasons == [] <==> !Blocked(ln, c)
  {
    reasons := [];
    if battery.Some? && ClassifyBatteryPresence(battery.value) == BatteryAbsent {
      reasons := reasons + ["Battery Missing"];
    }
    if target.Some? && target.value.readable && target.value.presence != Thermistor.PRESENT {
      reasons := reasons + [if target.value.presence == Thermistor.ABSENT then "NTC Missing" else "NTC Fault"];
    }
  }

  /** The entry of the position itself, and the rows up to it. */
  method NtcCheck(ln: real -> real, storage: DataStorage, c: Case) returns (r: Result<Option<NtcResult>, Failure>)
    requires Thermistor.IsLn(ln) && Ready(storage)
    modifies storage.disk`telemetry, storage.disk`written, storage`journal
    ensures Ready(storage) && old(storage.disk.written) <= storage.disk.written
    ensures Did(old(storage.journal),
                [Insert(Measurements, c.group.text(BatteryPrecheck))] + NtcPlan(c, if c.group.hasNtcDaq then c.group.size else 0),
                Refusal(r), storage.journal)
    ensures r.Ok? ==> (r.value.Some? <==> Ntc(c).Some?)
    ensures r.Ok? && r.value.Some? ==> r.value.value.position == c.position && Judges(ln, r.value.value, Ntc(c).value)
  {
    ghost var start := storage.journal;
    ghost var plan := NtcPlan(c, if c.group.hasNtcDaq then c.group.size else 0);
    ghost var row := Insert(Measurements, c.group.text(BatteryPrecheck));
    var measured := storage.Write(Measurements, c.group.text(BatteryPrecheck));
    ghost var middle := storage.journal;
    DidOne(start, row, Refusal(measured));
    if measured.Err? {
      DidCut(start, [row], Refusal(measured), middle, plan);
      return Err(measured.error);
    }
    var snapshot := NtcSnapshot(ln, storage, c);
    DidThen(start, [row], middle, plan, Refusal(snapshot), storage.journal);
    if snapshot.Err? {
      return Err(snapshot.error);
    }
    return Ok(if 1 <= c.position <= |snapshot.value| then Some(snapshot.value[c.position - 1]) else None);
  }

  /** The pre-check once the relay is open again. */
  method CheckTheRest(ln: real -> real, storage: DataStorage, c: Case, battery: Option<real>) returns (r: Result<Precheck, Failure>)
    requires Thermistor.IsLn(ln) && Ready(storage) && battery == Dmm(c)
    modifies storage.disk`telemetry, storage.disk`written, storage`journal
    ensures Ready(storage) && old(storage.disk.written) <= storage.disk.written
    ensures Did(old(storage.journal), CheckPlan(ln, c), Refusal(r), storage.journal)
    ensures r.Ok? ==> (r.value.stationFault <==> DaqFault(c)) && (r.value.ok <==> !Blocked(ln, c))
  {
    ghost var start := storage.journal;
    ghost var first, last := [Insert(Measurements, c.group.text(BatteryPrecheck))] + NtcPlan(c, if c.group.hasNtcDaq then c.group.size else 0),
                             Events(Findings(c, Reversed(c), Blocked(ln, c)));
    var target := NtcCheck(ln, storage, c);
    ghost var middle, written := storage.journal, storage.disk.written;
    if target.Err? {
      DidCut(start, first, Refusal(target), middle, last);
      return Err(target.error);
    }
    var reasons := Reasons(ln, c, battery, target.value);
    var reversed := battery.Some? && ClassifyBatteryPresence(battery.value) == BatteryReversed;
    var logged := LogEvents(storage, Findings(c, reversed, reasons != []));
    DidThen(start, first, middle, last, Refusal(logged), storage.journal);
    StillThere(old(storage.disk.written), written, storage.disk.written);
    return if logged.Err? then Err(logged.error)
           else Ok(Precheck(reasons == [], target.value.Some? && target.value.value.daqCommFailure));
  }

  /** The statements of the battery check and of the rest, which is not reached if the battery check raised. */
  lemma CheckedInOrder(ln: real -> real, c: Case, calls: seq<Option<RelayMatrix.Failure>>, start: seq<Statement>, lost: Option<Failure>,
                       middle: seq<Statement>, last: Option<Failure>, end: seq<Statement>)
    requires CloseThenOpen(calls) && calls != [] && Did(start, if |calls| == 2 then DmmPlan(c) else [], lost, middle)
    requires if lost.Some? || calls[|calls| - 1].Some? then last == lost && end == middle else Did(middle, CheckPlan(ln, c), last, end)
    ensures Did(start, PrecheckPlan(ln, c, calls), last, end)
  {
    if |calls| == 2 && calls[1].None? {
      DidBoth(start, DmmPlan(c), lost, middle, CheckPlan(ln, c), last, end);
    }
  }

  /**
   `battery_and_ntc_presence_precheck`: a normal return blocks the start exactly when a reading
   shows the battery or the NTC missing, and reports a station fault exactly when the DAQ failed on
   this position's NTC. It raises exactly what the relay driver or a statement of its plan raised.
   */
  method PresencePrecheck(ln: real -> real, storage: DataStorage, relay: RelayMatrix.NumatoRelayMatrix, c: Case)
    returns (r: Result<Precheck, Escape>, ghost calls: seq<Option<RelayMatrix.Failure>>, ghost lost: Option<Failure>)
    requires Thermistor.IsLn(ln) && Ready(storage) && relay.Valid()
    modifies storage.disk`telemetry, storage.disk`written, storage`journal, relay
    ensures Ready(storage) && old(storage.disk.written) <= storage.disk.written && relay.Valid()
    ensures calls != [] && RelayLeft(relay, c.config.relayAddress, calls)
    ensures Did(old(storage.journal), PrecheckPlan(ln, c, calls), lost, storage.journal)
    ensures r == CheckResult(calls, lost, Precheck(!Blocked(ln, c), DaqFault(c)))
  {
    ghost var start := storage.journal;
    var battery;
    battery, calls, lost := BatteryCheck(storage, relay, c);
    ghost var middle := storage.journal;
    if battery.Err? {
      CheckedInOrder(ln, c, calls, start, lost, middle, lost, middle);
      return Err(battery.error), calls, lost;
    }
    var verdict := CheckTheRest(ln, storage, c, battery.value);
    CheckedInOrder(ln, c, calls, start, lost, middle, Refusal(verdict), storage.journal);
    lost := Refusal(verdict);
    return if verdict.Err? then Err(StorageFailed(verdict.error)) else Ok(verdict.value), calls, lost;
  }

  // ------------------------------------------------------------ the position

  /** A sequence, started over an empty bank: any calls on the relay driver, any telemetry rows, and any end. */
  method RunSequence(storage: DataStorage, relay: RelayMatrix.NumatoRelayMatrix) returns (end: SequenceEnd, ghost run: Run)
    requires Ready(storage) && relay.Valid() && relay.bank == {}
    modifies storage.disk`telemetry, storage.disk`written, storage`journal, relay
    ensures Ready(storage) && old(storage.disk.written) <= storage.disk.written && relay.Valid()
    ensures run.end == end && run.bankBefore == old(relay.bank)
    ensures storage.journal == old(storage.journal) + run.statements && relay.returned == old(relay.returned) + run.calls
  {
    ghost var bankBefore := relay.bank;
    var calls: seq<RelayMatrix.Call> := *;
    relay.Session(calls);
    var rows: seq<(Table, string)> := *;
    for k := 0 to |rows|
      invariant Ready(storage) && old(storage.disk.written) <= storage.disk.written && old(storage.journal) <= storage.journal
      invariant relay.Valid() && old(relay.returned) <= relay.returned
    {
      var _ := storage.Write(rows[k].0, rows[k].1);
    }
    end := *;
    run := Run(end, bankBefore, storage.journal[|old(storage.journal)|..], relay.returned[|old(relay.returned)|..]);
  }

  /** What follows the sequence: its outcome, the station-fault records and the printed summary. */
  method AfterSequence(storage: DataStorage, c: Case, end: SequenceEnd) returns (r: Result<Outcome, Failure>)
    requires Ready(storage)
    modifies storage.disk`telemetry, storage.disk`written, storage`journal
    ensures Ready(storage) && old(storage.disk.written) <= storage.disk.written
    ensures Did(old(storage.journal), AfterPlan(c, end), Refusal(r), storage.journal)
    ensures r.Ok? ==> r.value == SequenceOutcome(end)
    ensures r.Ok? ==> (r.value == PASS <==> end == Completes)
    ensures r.Ok? ==> (r.value == CANCELLED <==> end in {OperatorCancels, KeyboardInterrupt, Throws(OperationCancelledError)})
    ensures r.Ok? ==> (r.value == FAIL <==> end.Throws? && end.e in {SafetyViolationError, ReversePolarityError, BatteryRemovedDuringChargeError, NIPXITimeoutError})
    ensures r.Ok? ==> r.value != SKIPPED
  {
    if end.Throws? { OnlyBatteryExceptionsContinue(end.e); }
    ghost var start := storage.journal;
    var outcome := PASS;
    var recorded: Result<(), Failure> := Ok(());
    match end {
      case Completes =>
      case OperatorCancels => outcome := CANCELLED;
      case KeyboardInterrupt => outcome := CANCELLED;
      case Throws(e) =>
        if e == OperationCancelledError {
          outcome := CANCELLED;
        } else {
          outcome := ClassifyPositionException(e);
          if outcome == STATION_FAULT {
            recorded := Conclude(storage, [c.group.text(StationFaultAborted)]);
          }
        }
    }
    ghost var middle := storage.journal;
    ghost var plan := if SequenceOutcome(end) == STATION_FAULT then Conclusion([c.group.text(StationFaultAborted)]) else [];
    if recorded.Err? {
      DidCut(start, plan, Refusal(recorded), middle, [QueryIndex]);
      return Err(recorded.error);
    }
    var printed := storage.UseIndex(QueryIndex);
    DidOne(middle, QueryIndex, Refusal(printed));
    DidThen(start, plan, middle, [QueryIndex], Refusal(printed), storage.journal);
    return if printed.Err? then Err(printed.error) else Ok(outcome);
  }

  /** A start that the pre-check does not allow is recorded. */
  method RecordBlocked(ln: real -> real, storage: DataStorage, c: Case, precheck: Precheck) returns (r: Result<Option<Outcome>, Failure>)
    requires Ready(storage) && precheck == Precheck(!Blocked(ln, c), DaqFault(c))
    modifies storage.disk`telemetry, storage.disk`written, storage`journal
    ensures Ready(storage) && old(storage.disk.written) <= storage.disk.written
    ensures Did(old(storage.journal), ConclusionPlan(ln, c), Refusal(r), storage.journal)
    ensures r.Ok? ==> r.value == EarlyOutcome(ln, c)
    ensures r.Ok? ==> (r.value == Some(STATION_FAULT) <==> DaqFault(c)) && (r.value == Some(SKIPPED) <==> !DaqFault(c) && Blocked(ln, c))
    ensures r.Ok? ==> (r.value == None <==> Passes(ln, c))
  {
    if precheck.stationFault {
      var recorded := Conclude(storage, [c.group.text(StationFaultAborted)]);
      return if recorded.Err? then Err(recorded.error) else Ok(Some(STATION_FAULT));
    }
    if !precheck.ok {
      var recorded := Conclude(storage, []);
      return if recorded.Err? then Err(recorded.error) else Ok(Some(SKIPPED));
    }
    return Ok(None);
  }

  /** The outcome that the pre-check alone decides. */
  ghost function EarlyOutcome(ln: real -> real, c: Case): Option<Outcome> {
    if DaqFault(c) then Some(STATION_FAULT) else if Blocked(ln, c) then Some(SKIPPED) else None
  }

  /** The pre-check and what is recorded of it; it may allow the sequence. */
  method CheckAndRecord(ln: real -> real, storage: DataStorage, relay: RelayMatrix.NumatoRelayMatrix, c: Case)
    returns (r: Result<Option<Outcome>, Escape>, ghost calls: seq<Option<RelayMatrix.Failure>>, ghost lost: Option<Failure>)
    requires Thermistor.IsLn(ln) && Ready(storage) && relay.Valid()
    modifies storage.disk`telemetry, storage.disk`written, storage`journal, relay
    ensures Ready(storage) && old(storage.disk.written) <= storage.disk.written && relay.Valid()
    ensures calls != [] && RelayLeft(relay, c.config.relayAddress, calls)
    ensures Did(old(storage.journal), PlanChecked(ln, c, calls), lost, storage.journal)
    ensures r == CheckResult(calls, lost, EarlyOutcome(ln, c))
  {
    ghost var start := storage.journal;
    var precheck;
    precheck, calls, lost := PresencePrecheck(ln, storage, relay, c);
    ghost var checked := storage.journal;
    if precheck.Err? {
      EndOfCheck(ln, c, calls, start, lost, checked, lost, checked);
      return Err(precheck.error), calls, lost;
    }
    var decided := RecordBlocked(ln, storage, c, precheck.value);
    EndOfCheck(ln, c, calls, start, lost, checked, Refusal(decided), storage.journal);
    lost := Refusal(decided);
    return if decided.Err? then Err(StorageFailed(decided.error)) else Ok(decided.value), calls, lost;
  }

  /** The statements of a pre-check and of what is recorded of it, which is nothing if the pre-check raised. */
  lemma EndOfCheck(ln: real -> real, c: Case, calls: seq<Option<RelayMatrix.Failure>>, start: seq<Statement>, lost: Option<Failure>,
                   checked: seq<Statement>, last: Option<Failure>, end: seq<Statement>)
    requires CloseThenOpen(calls) && calls != [] && Did(start, PrecheckPlan(ln, c, calls), lost, checked)
    requires if lost.Some? || calls[|calls| - 1].Some? then last == lost && end == checked else Did(checked, ConclusionPlan(ln, c), last, end)
    ensures Did(start, PlanChecked(ln, c, calls), last, end)
  {
    var plan := PrecheckPlan(ln, c, calls);
    if calls != [None, None] {
      assert plan + [] == plan;
    } else {
      DidBoth(start, plan, lost, checked, ConclusionPlan(ln, c), last, end);
    }
  }

  /** From the traceability log to the decision of the pre-check, which may be to run the sequence. */
  method UpToSequence(ln: real -> real, storage: DataStorage, relay: RelayMatrix.NumatoRelayMatrix, c: Case)
    returns (r: Result<Option<Outcome>, Escape>, ghost calls: seq<Option<RelayMatrix.Failure>>, ghost lost: Option<Failure>)
    requires Thermistor.IsLn(ln) && Ready(storage) && relay.Valid()
    modifies storage.disk`telemetry, storage.disk`written, storage`journal, relay
    ensures Ready(storage) && old(storage.disk.written) <= storage.disk.written && relay.Valid()
    ensures RelayLeft(relay, c.config.relayAddress, calls)
    ensures Did(old(storage.journal), Events(c.config.trace) + PlanChecked(ln, c, calls), lost, storage.journal)
    ensures calls == [] <==> lost.Some? && |storage.journal| <= |old(storage.journal)| + |c.config.trace|
    ensures calls != [] ==> Traced(old(storage.disk.written), storage.runId.value, c, storage.disk.written)
    ensures r == CheckResult(calls, lost, EarlyOutcome(ln, c))
  {
    calls := [];
    ghost var start := storage.journal;
    var traced := LogEvents(storage, c.config.trace);
    ghost var middle := storage.journal;
    if traced.Err? {
      lost := Refusal(traced);
      DidCut(start, Events(c.config.trace), lost, middle, PlanChecked(ln, c, calls));
      return Err(StorageFailed(traced.error)), calls, lost;
    }
    ghost var written := storage.disk.written;
    LoggedTrace(old(storage.disk.written), storage.runId.value, c, written);
    r, calls, lost := CheckAndRecord(ln, storage, relay, c);
    DidThen(start, Events(c.config.trace), middle, PlanChecked(ln, c, calls), lost, storage.journal);
    StillTraced(old(storage.disk.written), storage.runId.value, c, written, storage.disk.written);
  }

  /** A summary that is refused is the whole attempt. */
  lemma SummaryRefused(ln: real -> real, c: Case, f: Failure)
    ensures var a := Attempt([Statement(InsertSummary, Some(f))], [], None, []);
            && InOrder(ln, c, a) && Statements(a) == a.before && Calls(a) == []
            && PositionResult(ln, c, a) == if f == NotOpen then Err(StorageFailed(NotOpen)) else Ok(FAIL)
  {
    DidOne([], InsertSummary, Some(f));
    assert [] + [Statement(InsertSummary, Some(f))] == [Statement(InsertSummary, Some(f))];
    DidCut([], [InsertSummary], Some(f), [Statement(InsertSummary, Some(f))], Events(c.config.trace) + PlanChecked(ln, c, []));
  }

  /** The statements before the sequence, summary included, cut out of the journal. */
  lemma BeforeSequence(ln: real -> real, c: Case, calls: seq<Option<RelayMatrix.Failure>>, start: seq<Statement>, lost: Option<Failure>,
                       end: seq<Statement>)
    requires Did(start + [Statement(InsertSummary, None)], Events(c.config.trace) + PlanChecked(ln, c, calls), lost, end)
    ensures start <= end && end == start + end[|start|..]
    ensures Did([], PlanBefore(ln, c, calls), lost, end[|start|..]) && end[|start|..][0] == Statement(InsertSummary, None)
  {
    var first := start + [Statement(InsertSummary, None)];
    DidOne(start, InsertSummary, None);
    DidThen(start, [InsertSummary], first, Events(c.config.trace) + PlanChecked(ln, c, calls), lost, end);
    DidSlice(start, PlanBefore(ln, c, calls), lost, end);
    assert end[|start|] == first[|start|];
  }

  /** An attempt that ends before its sequence. */
  lemma EndsEarly(ln: real -> real, c: Case, before: seq<Statement>, calls: seq<Option<RelayMatrix.Failure>>, lost: Option<Failure>)
    requires CloseThenOpen(calls) && Did([], PlanBefore(ln, c, calls), lost, before)
    requires before != [] && before[0].refused.None?
    requires calls == [] <==> lost.Some? && |before| <= 1 + |c.config.trace|
    requires CheckResult(calls, lost, EarlyOutcome(ln, c)) != Ok(None)
    ensures var a, r := Attempt(before, calls, None, []), CheckResult(calls, lost, EarlyOutcome(ln, c));
            && InOrder(ln, c, a) && Statements(a) == before && Calls(a) == calls
            && PositionResult(ln, c, a) == if r.Err? then Err(r.error) else Ok(r.value.value)
  {
    var a := Attempt(before, calls, None, []);
    assert LastRefusal(before) == lost;
  }

  /** An attempt whose sequence runs. */
  lemma RunsThrough(ln: real -> real, c: Case, before: seq<Statement>, run: Run, finished: Result<Outcome, Failure>, after: seq<Statement>)
    requires Did([], PlanBefore(ln, c, [None, None]), None, before) && before != [] && before[0].refused.None?
    requires Passes(ln, c) && run.bankBefore == {}
    requires Did([], AfterPlan(c, run.end), Refusal(finished), after) && (finished.Ok? ==> finished.value == SequenceOutcome(run.end))
    ensures var a := Attempt(before, [None, None], Some(run), after);
            && InOrder(ln, c, a)
            && PositionResult(ln, c, a) == if finished.Err? then Err(StorageFailed(finished.error)) else Ok(finished.value)
  {
  }

  /** What comes before the sequence, as its part of the journal. */
  method Prepare(ln: real -> real, storage: DataStorage, relay: RelayMatrix.NumatoRelayMatrix, c: Case, ghost start: seq<Statement>)
    returns (r: Result<Option<Outcome>, Escape>, ghost before: seq<Statement>, ghost calls: seq<Option<RelayMatrix.Failure>>,
             ghost lost: Option<Failure>)
    requires Thermistor.IsLn(ln) && Ready(storage) && relay.Valid()
    requires storage.journal == start + [Statement(InsertSummary, None)]
    modifies storage.disk`telemetry, storage.disk`written, storage`journal, relay
    ensures Ready(storage) && old(storage.disk.written) <= storage.disk.written && relay.Valid()
    ensures RelayLeft(relay, c.config.relayAddress, calls)
    ensures Did([], PlanBefore(ln, c, calls), lost, before) && before != [] && before[0].refused.None?
    ensures storage.journal == start + before
    ensures calls == [] <==> lost.Some? && |before| <= 1 + |c.config.trace|
    ensures calls != [] ==> Traced(old(storage.disk.written), storage.runId.value, c, storage.disk.written)
    ensures r == CheckResult(calls, lost, EarlyOutcome(ln, c))
  {
    r, calls, lost := UpToSequence(ln, storage, relay, c);
    BeforeSequence(ln, c, calls, start, lost, storage.journal);
    before := storage.journal[|start|..];
  }

  /** An attempt up to its sequence, which it ends before unless the pre-check has passed. */
  method Begin(ln: real -> real, storage: DataStorage, relay: RelayMatrix.NumatoRelayMatrix, c: Case, ghost start: seq<Statement>)
    returns (r: Result<Option<Outcome>, Escape>, ghost a: Attempt)
    requires Thermistor.IsLn(ln) && Ready(storage) && relay.Valid()
    requires storage.journal == start + [Statement(InsertSummary, None)]
    modifies storage.disk`telemetry, storage.disk`written, storage`journal, relay
    ensures Ready(storage) && old(storage.disk.written) <= storage.disk.written && relay.Valid()
    ensures RelayLeft(relay, c.config.relayAddress, a.calls)
    ensures storage.journal == start + a.before && a.before != [] && a.before[0].refused.None?
    ensures a.sequence == None
    ensures a.calls != [] ==> Traced(old(storage.disk.written), storage.runId.value, c, storage.disk.written)
    ensures r == Ok(None) ==>
              Passes(ln, c) && a.calls == [None, None] && Did([], PlanBefore(ln, c, [None, None]), None, a.before)
    ensures r != Ok(None) ==>
              InOrder(ln, c, a) && PositionResult(ln, c, a) == if r.Err? then Err(r.error) else Ok(r.value.value)
  {
    ghost var before, calls, lost;
    r, before, calls, lost := Prepare(ln, storage, relay, c, start);
    a := Attempt(before, calls, None, []);
    if r != Ok(None) {
      EndsEarly(ln, c, before, calls, lost);
    } else {
      assert calls == [None, None];
    }
  }

  /** Everything after the summary. */
  method AfterSummary(ln: real -> real, storage: DataStorage, relay: RelayMatrix.NumatoRelayMatrix, c: Case, ghost start: seq<Statement>)
    returns (r: Result<Outcome, Escape>, ghost a: Attempt)
    requires Thermistor.IsLn(ln) && Ready(storage) && relay.Valid()
    requires storage.journal == start + [Statement(InsertSummary, None)]
    modifies storage.disk`telemetry, storage.disk`written, storage`journal, relay
    ensures Ready(storage) && old(storage.disk.written) <= storage.disk.written && relay.Valid()
    ensures InOrder(ln, c, a) && r == PositionResult(ln, c, a) && a.before != [] && a.before[0].refused.None?
    ensures storage.journal == start + Statements(a) && relay.returned == old(relay.returned) + Calls(a)
    ensures a.sequence.None? ==> RelayLeft(relay, c.config.relayAddress, a.calls)
    ensures a.calls != [] ==>
              && Traced(old(storage.disk.written), storage.runId.value, c, storage.disk.written)
              && (a.calls[0] == Some(RelayMatrix.InvalidChannel) <==> !(1 <= c.config.relayAddress <= relay.numChannels))
  {
    var early;
    early, a := Begin(ln, storage, relay, c, start);
    if early.Err? {
      return Err(early.error), a;
    } else if early.value.Some? {
      return Ok(early.value.value), a;
    }
    ghost var written := storage.disk.written;
    r, a := Sequenced(ln, storage, relay, c, start, a.before, old(relay.returned));
    StillTraced(old(storage.disk.written), storage.runId.value, c, written, storage.disk.written);
  }

  lemma Joined(start: seq<Statement>, returned: seq<Option<RelayMatrix.Failure>>, a: Attempt, run: Run)
    requires a.sequence == Some(run)
    ensures start + a.before + run.statements + a.after == start + Statements(a)
    ensures returned + a.calls + run.calls == returned + Calls(a)
  {
  }

  /** The sequence and what follows it, once the pre-check has passed. */
  method Sequenced(ln: real -> real, storage: DataStorage, relay: RelayMatrix.NumatoRelayMatrix, c: Case,
                   ghost start: seq<Statement>, ghost before: seq<Statement>, ghost returned: seq<Option<RelayMatrix.Failure>>)
    returns (r: Result<Outcome, Escape>, ghost a: Attempt)
    requires Ready(storage) && relay.Valid() && relay.bank == {} && Passes(ln, c)
    requires relay.returned == returned + [None, None]
    requires storage.journal == start + before && before != [] && before[0].refused.None?
    requires Did([], PlanBefore(ln, c, [None, None]), None, before)
    modifies storage.disk`telemetry, storage.disk`written, storage`journal, relay
    ensures Ready(storage) && old(storage.disk.written) <= storage.disk.written && relay.Valid()
    ensures InOrder(ln, c, a) && r == PositionResult(ln, c, a)
    ensures a.before == before && a.calls == [None, None] && a.sequence.Some?
    ensures storage.journal == start + Statements(a) && relay.returned == returned + Calls(a)
  {
    var finished;
    ghost var run, after;
    finished, run, after := RunAndFinish(storage, relay, c);
    RunsThrough(ln, c, before, run, finished, after);
    a := Attempt(before, [None, None], Some(run), after);
    Joined(start, returned, a, run);
    r := if finished.Err? then Err(StorageFailed(finished.error)) else Ok(finished.value);
  }

  /** The sequence and what follows it. */
  method RunAndFinish(storage: DataStorage, relay: RelayMatrix.NumatoRelayMatrix, c: Case)
    returns (r: Result<Outcome, Failure>, ghost run: Run, ghost after: seq<Statement>)
    requires Ready(storage) && relay.Valid() && relay.bank == {}
    modifies storage.disk`telemetry, storage.disk`written, storage`journal, relay
    ensures Ready(storage) && old(storage.disk.written) <= storage.disk.written && relay.Valid()
    ensures run.bankBefore == old(relay.bank) && relay.returned == old(relay.returned) + run.calls
    ensures storage.journal == old(storage.journal) + run.statements + after
    ensures Did([], AfterPlan(c, run.end), Refusal(r), after)
    ensures r.Ok? ==> r.value == SequenceOutcome(run.end)
  {
    var end;
    end, run := RunSequence(storage, relay);
    ghost var middle := storage.journal;
    r := AfterSequence(storage, c, end);
    DidSlice(middle, AfterPlan(c, end), Refusal(r), storage.journal);
    after := storage.journal[|middle|..];
  }

  /** The body of a position: the summary, and everything after it if the database accepts it. */
  method Attempted(ln: real -> real, storage: DataStorage, relay: RelayMatrix.NumatoRelayMatrix, c: Case)
    returns (r: Result<Outcome, Escape>, ghost a: Attempt)
    requires Thermistor.IsLn(ln) && storage.disk.Valid() && storage.Attached() && relay.Valid()
    modifies storage.disk`telemetry, storage.disk`written, storage.disk`summaries, storage`journal, relay
    ensures storage.disk.Valid() && storage.Attached() && relay.Valid()
    ensures old(storage.disk.written) <= storage.disk.written && old(storage.disk.summaries).Keys <= storage.disk.summaries.Keys
    ensures InOrder(ln, c, a) && r == PositionResult(ln, c, a) && a.before != []
    ensures storage.journal == old(storage.journal) + Statements(a) && relay.returned == old(relay.returned) + Calls(a)
    ensures a.sequence.None? ==> RelayLeft(relay, c.config.relayAddress, a.calls)
    ensures a.calls != [] ==>
              && storage.runId.Some?
              && Traced(old(storage.disk.written), storage.runId.value, c, storage.disk.written)
              && (a.calls[0] == Some(RelayMatrix.InvalidChannel) <==> !(1 <= c.config.relayAddress <= relay.numChannels))
    ensures a.before[0].refused.None? ==> storage.runId.Some? && storage.runId.value in storage.disk.summaries
  {
    ghost var start := storage.journal;
    var summary := storage.StartRunSummary();
    if summary.Err? {
      a := Attempt([Statement(InsertSummary, Refusal(summary))], [], None, []);
      SummaryRefused(ln, c, summary.error);
      return if summary.error == NotOpen then Err(StorageFailed(NotOpen)) else Ok(FAIL), a;
    }
    r, a := AfterSummary(ln, storage, relay, c, start);
  }

  /** An address that the driver refuses is always raised, once every statement before the call was accepted. */
  lemma BadAddressRaised(ln: real -> real, c: Case, a: Attempt)
    requires InOrder(ln, c, a) && LastRefusal(a.before).None?
    ensures a.calls != []
    ensures a.calls[0].Some? ==> PositionResult(ln, c, a) == Err(PrecheckRaised(a.calls[0].value))
  {
    RefusedBefore(ln, c, a);
  }

  /**
   `_run_one_charge_or_discharge_position`: it makes exactly the statements of its plan, up to the
   first that is refused, and closes and opens the relay in between; no relay call comes before the
   whole traceability log is persisted. The result is the one its history calls for, and it raises
   exactly if a statement outside the sequence or one of those two calls did; in the driver's own
   terms, exactly if fewer than two settled returns are on the wire. With every statement accepted, a
   relay address outside the matrix always ends in the driver's error.
   */
  method RunOnePosition(ln: real -> real, storage: DataStorage, relay: RelayMatrix.NumatoRelayMatrix, c: Case)
    returns (r: Result<Outcome, Escape>, ghost a: Attempt)
    requires Thermistor.IsLn(ln) && storage.disk.Valid() && storage.Attached() && relay.Valid()
    modifies storage.disk`telemetry, storage.disk`written, storage.disk`summaries, storage`journal, relay
    ensures storage.disk.Valid() && storage.Attached() && relay.Valid()
    ensures old(storage.disk.written) <= storage.disk.written && old(storage.disk.summaries).Keys <= storage.disk.summaries.Keys
    ensures InOrder(ln, c, a) && r == PositionResult(ln, c, a) && a.before != []
    ensures storage.journal == old(storage.journal) + Statements(a) && relay.returned == old(relay.returned) + Calls(a)
    ensures r.Err? <==> SomeRaising(a.before) || SomeRaised(a.calls) || SomeRaising(a.after)
    ensures r.Ok? ==> OutcomeOf(ln, c, a, r.value)
    ensures a.sequence.None? ==> RelayLeft(relay, c.config.relayAddress, a.calls)
    ensures a.sequence.None? && a.calls != [] ==>
              (SomeRaised(a.calls) <==> RelayWire.Settles(relay.wire) < RelayWire.Settles(old(relay.wire)) + 2)
    ensures a.calls != [] ==>
              storage.runId.Some? && Traced(old(storage.disk.written), storage.runId.value, c, storage.disk.written)
    ensures LastRefusal(a.before).None? && !(1 <= c.config.relayAddress <= relay.numChannels) ==>
              r == Err(PrecheckRaised(RelayMatrix.InvalidChannel))
    ensures a.before[0].refused.None? ==> storage.runId.Some? && storage.runId.value in storage.disk.summaries
  {
    r, a := Attempted(ln, storage, relay, c);
    RaisesExactly(ln, c, a);
    if r.Ok? {
      OutcomeExactly(ln, c, a);
    }
    if a.sequence.None? && a.calls != [] {
      NormalReturns(a.calls);
    }
    if LastRefusal(a.before).None? {
      BadAddressRaised(ln, c, a);
    }
  }
}
