/**
 SMU output safety (hardware/smu.py): verified-off baseline, configuration with readback,
 enabling, the bench source point and the emergency output-off reflex.

 The session may raise at any access. Readbacks of the output state are truthful; with
 `honestOutput` an accepted output command takes effect, without it the output may be stuck.
 */
module Smu {
  import opened Results
  import opened SmuTrace

  const VOLTAGE_TOLERANCE := 0.0001
  const CURRENT_TOLERANCE := 0.0001

  datatype Failure =
    | NotConnected
    | NoBaseline
    | ConfigureFailed
    | RawDriverError      // an attribute read outside any try block
    | ReadbackMismatch    // SMUStateVerificationError
    | EnableFailed
    | NotVerifiedOn
    | SourcingFailed
    | Cancelled
    | DisableFailed
    | InCompliance

  /** What a sourced voltage point reads back, and whether it ran into its current limit. */
  datatype Point = Point(voltage: real, currentLimit: real, compliance: bool)

  datatype Readbacks = Readbacks(current: real, voltageLimit: real)

  /** The public calls that command or configure the output. */
  datatype Operation =
    | OpenTheSession
    | CloseTheSession
    | Charge(currentA: real, voltageLimitV: real)
    | Discharge(currentA: real, voltageLimitV: real)
    | EnableOutput
    | DisableOutput
    | ForceOff
    | SourcePoint(voltageV: real, currentLimitA: real)
    | EmergencyStop
    | ZeroSetpoint

  function Abs(x: real): (a: real)
    ensures a >= 0.0 && (a == x || a == -x)
  {
    if x < 0.0 then -x else x
  }

  /** The accepted accesses of a configured current source: ranges, setpoints, commit. */
  ghost function CurrentSourceWrites(currentA: real, voltageLimitV: real): seq<Event> {
    [Event(Configure, true), Event(Write(CurrentLevel, currentA), true),
     Event(Configure, true), Event(Write(VoltageLimit, voltageLimitV), true), Event(Commit, true)]
  }

  /** The accepted accesses of a configured voltage point, ending with the output on and committed. */
  ghost function VoltagePointWrites(voltageV: real, currentLimitA: real): seq<Event> {
    [Event(Configure, true), Event(Write(CurrentLimit, currentLimitA), true),
     Event(Write(VoltageLevel, voltageV), true), Event(Enable(true), true), Event(Commit, true)]
  }

  /** The accepted accesses of a started output. */
  ghost function StartAccesses(): seq<Event> {
    [Event(Enable(true), true), Event(Commit, true), Event(Initiate, true)]
  }

  /**
   Forcing the output off, from access `n` of `t` on: a query, an abort, the disable and, if that was
   accepted, one readback. It succeeds exactly if that readback was answered and said off.
   */
  ghost predicate ForcedOff(t: seq<Event>, n: nat, off: bool) {
    && n + 3 <= |t| && t[n].call.ReadEnabled? && t[n + 1].call == Abort && t[n + 2].call == Enable(false)
    && (!t[n + 2].ok ==> |t| == n + 3 && !off)
    && (t[n + 2].ok ==> |t| == n + 4 && t[n + 3].call.ReadEnabled? && (off <==> t[n + 3] == Event(ReadEnabled(false), true)))
  }

  /**
   Reading a current source back, from access `n` of `t` on: current, then voltage limit. A refused
   readback is raised as it is, a value beyond tolerance as a mismatch, and otherwise both are returned.
   */
  ghost predicate CurrentRead(t: seq<Event>, n: nat, currentA: real, voltageLimitV: real, r: Result<Readbacks, Failure>) {
    && n < |t| && t[n].call.Read? && t[n].call.point == CurrentLevel
    && (!t[n].ok ==> |t| == n + 1 && r == Err(RawDriverError))
    && (t[n].ok ==> |t| == n + 2 && t[n + 1].call.Read? && t[n + 1].call.point == VoltageLimit)
    && (t[n].ok && !t[n + 1].ok ==> r == Err(RawDriverError))
    && (t[n].ok && t[n + 1].ok ==>
          var current, limit := t[n].call.value, t[n + 1].call.value;
          r == if Abs(current - currentA) <= CURRENT_TOLERANCE && Abs(limit - voltageLimitV) <= VOLTAGE_TOLERANCE
               then Ok(Readbacks(current, limit)) else Err(ReadbackMismatch))
  }

  /** A whole configuration with its verified-off baseline, and what it comes to. */
  ghost predicate Configured(before: seq<Event>, baseline: seq<Event>, t: seq<Event>, currentA: real, voltageLimitV: real,
                             r: Result<Readbacks, Failure>) {
    && before <= baseline <= t && ForcedOff(baseline, |before|, r != Err(NoBaseline))
    && (r == Err(NoBaseline) ==> t == baseline)
    && (r == Err(ConfigureFailed) ==> Refused(baseline, CurrentSourceWrites(currentA, voltageLimitV), t))
    && (r != Err(NoBaseline) && r != Err(ConfigureFailed) ==>
          && baseline + CurrentSourceWrites(currentA, voltageLimitV) <= t
          && CurrentRead(t, |baseline| + 5, currentA, voltageLimitV, r))
  }

  /** The three readbacks of a voltage point, from access `n` of `t` on, were answered, on target and on. */
  ghost predicate PointGood(t: seq<Event>, n: nat, voltageV: real, currentLimitA: real) {
    && n + 3 <= |t| && t[n].call.Read? && t[n].ok && t[n + 1].call.Read? && t[n + 1].ok
    && Abs(t[n].call.value - voltageV) <= VOLTAGE_TOLERANCE && Abs(t[n + 1].call.value - currentLimitA) <= CURRENT_TOLERANCE
    && t[n + 2] == Event(ReadEnabled(true), true)
  }

  /** All three are made, up to a refused one, which fails the point; if all are answered and not good, they mismatch. */
  ghost predicate PointRead(t: seq<Event>, n: nat, voltageV: real, currentLimitA: real, r: Result<Point, Failure>) {
    && n < |t| <= n + 3
    && t[n].call.Read? && t[n].call.point == VoltageLevel
    && (n + 1 < |t| ==> t[n].ok && t[n + 1].call.Read? && t[n + 1].call.point == CurrentLimit)
    && (n + 2 < |t| ==> t[n + 1].ok && t[n + 2].call.ReadEnabled?)
    && (t[|t| - 1].ok ==> |t| == n + 3)
    && (r == Err(SourcingFailed) <==> !t[|t| - 1].ok)
    && (r.Ok? <==> PointGood(t, n, voltageV, currentLimitA))
    && (r.Ok? ==> r.value == Point(t[n].call.value, t[n + 1].call.value, false))
    && (r.Err? ==> r.error == SourcingFailed || r.error == ReadbackMismatch)
  }

  /** A good point is then started, measured and held, from access `m` of `t` on; `r` is what came of that. */
  ghost predicate PointHeld(t: seq<Event>, m: nat, r: Result<Point, Failure>, p: Point) {
    && m < |t| <= m + 3
    && t[m].call == Initiate
    && (m + 1 < |t| ==> t[m].ok && t[m + 1].call.Observe?)
    && (m + 2 < |t| ==> t[m + 1].ok && t[m + 2].call.Hold? && (t[m + 2].ok <==> t[m + 2].call.end == HeldOut))
    && (t[|t| - 1].ok ==> |t| == m + 3)
    && (r.Ok? <==> t[|t| - 1].ok)
    && (r.Ok? ==> r.value == Point(p.voltage, p.currentLimit, t[m + 1].call.compliance))
    && (r == Err(Cancelled) <==> |t| == m + 3 && t[m + 2].call.end == OperatorCancelled)
    && (r.Err? ==> r.error == Cancelled || r.error == SourcingFailed)
  }

  /** Reading, measuring and holding a configured point, from access `n` of `t` on. */
  ghost predicate Sourced(t: seq<Event>, n: nat, voltageV: real, currentLimitA: real, r: Result<Point, Failure>) {
    if PointGood(t, n, voltageV, currentLimitA) then
      PointHeld(t, n + 3, r, Point(t[n].call.value, t[n + 1].call.value, false))
    else PointRead(t, n, voltageV, currentLimitA, r)
  }

  /**
   After that, from access `h` of `t` on, the output is disabled in any case and read back. Only the
   disable itself masks what came before, and a point in compliance is not a good one.
   */
  ghost predicate ThenDisabled(t: seq<Event>, h: nat, sourced: Result<Point, Failure>, r: Result<Point, Failure>) {
    && h + 2 <= |t| && t[h].call == Abort && t[h + 1].call == Enable(false)
    && (!t[h + 1].ok ==> |t| == h + 2 && r == Err(DisableFailed))
    && (t[h + 1].ok ==> |t| == h + 3 && t[h + 2].call.ReadEnabled?)
    && (t[h + 1].ok && sourced.Err? ==> r == Err(sourced.error))
    && (t[h + 1].ok && sourced.Ok? ==> r == if sourced.value.compliance then Err(InCompliance) else sourced)
  }

  /** The first `k` of the accesses `plan` were accepted and the next one was refused. */
  ghost predicate RefusedAt(before: seq<Event>, plan: seq<Event>, k: nat, t: seq<Event>) {
    k < |plan| && t == before + plan[..k] + [Event(plan[k].call, false)]
  }

  /** Some access of `plan` was refused, after those before it were accepted, and nothing followed. */
  ghost predicate Refused(before: seq<Event>, plan: seq<Event>, t: seq<Event>) {
    exists k :: RefusedAt(before, plan, k, t)
  }

  /** One more access of a plan: the plan goes on or was refused here. */
  lemma Follow(before: seq<Event>, plan: seq<Event>, k: nat, t: seq<Event>, ok: bool)
    requires k < |plan| && plan[k].ok && t == before + plan[..k] + [Event(plan[k].call, ok)]
    ensures ok ==> t == before + plan[..k + 1]
    ensures ok && k + 1 == |plan| ==> t == before + plan
    ensures !ok ==> Refused(before, plan, t)
  {
    if ok {
      assert plan[..k + 1] == plan[..k] + [plan[k]];
      assert k + 1 == |plan| ==> plan[..k + 1] == plan;
    } else {
      assert RefusedAt(before, plan, k, t);
    }
  }

  class SMU {
    const honestOutput: bool
    const maxAttempts: nat
    var hasSession: bool
    var enabled: bool                    // the instrument's output stage
    var lastKnownOutputState: Option<bool>
    ghost var calls: seq<Event>

    ghost predicate Valid()
      reads this
    {
      Guarded(calls)
    }

    constructor (honestOutput: bool, maxAttempts: nat, enabled: bool)
      ensures Valid() && calls == [] && !hasSession
    {
      this.honestOutput, this.maxAttempts, this.enabled := honestOutput, maxAttempts, enabled;
      hasSession, lastKnownOutputState, calls := false, None, [];
    }

    // --------------------------------------------------------- session access

    ghost method Note(e: Event)
      requires Valid()
      requires e.call.Write? && e.call.level != 0.0 ==> OffConfirmed(calls)
      modifies `calls
      ensures Valid() && calls == old(calls) + [e]
      ensures OffConfirmed(calls) == match e.call
                case ReadEnabled(on) => (if e.ok then !on else OffConfirmed(old(calls)))
                case Enable(_) | OpenSession | CloseSession => false
                case _ => OffConfirmed(old(calls))
    {
      calls := calls + [e];
      assert Init(calls) == old(calls);
    }

    /** Any access that neither commands nor reads the output. */
    method Access(call: Call) returns (ok: bool)
      requires Valid() && !Disturbs(call) && !call.ReadEnabled?
      requires call.Write? && call.level != 0.0 ==> OffConfirmed(calls)
      modifies `calls
      ensures Valid() && calls == old(calls) + [Event(call, ok)]
      ensures OffConfirmed(calls) == OffConfirmed(old(calls))
    {
      ok := *;
      Note(Event(call, ok));
    }

    /** `session.output_enabled = on`: a refused command may have taken effect all the same. */
    method CommandOutput(on: bool) returns (ok: bool)
      requires Valid()
      modifies `calls, `enabled
      ensures Valid() && calls == old(calls) + [Event(Enable(on), ok)]
      ensures honestOutput && ok ==> enabled == on
      ensures enabled == old(enabled) || enabled == on
    {
      ok := *;
      var takesEffect: bool := *;
      if takesEffect || (ok && honestOutput) {
        enabled := on;
      }
      Note(Event(Enable(on), ok));
    }

    /** `bool(session.output_enabled)`. */
    method ReadOutput() returns (state: Option<bool>)
      requires Valid()
      modifies `calls
      ensures Valid() && calls == old(calls) + [Event(ReadEnabled(enabled), state.Some?)]
      ensures state.Some? ==> state.value == enabled
      ensures state == Some(false) ==> OffConfirmed(calls)
    {
      var ok: bool := *;
      Note(Event(ReadEnabled(enabled), ok));
      state := if ok then Some(enabled) else None;
    }

    /** `connect`: a refused session leaves the old one in place; an opened one says nothing of the output. */
    method Connect() returns (ok: bool)
      requires Valid()
      modifies `hasSession, `enabled, `calls
      ensures Valid() && calls == old(calls) + [Event(OpenSession, ok)] && !OffConfirmed(calls)
      ensures hasSession == (ok || old(hasSession))
    {
      ok := *;
      enabled := *;
      Note(Event(OpenSession, ok));
      hasSession := ok || hasSession;
    }

    /** `disconnect`: the session is given up even if closing it raises, and nothing is known of the output any more. */
    method Disconnect() returns (ghost closed: bool)
      requires Valid()
      modifies `hasSession, `enabled, `calls
      ensures Valid() && !hasSession
      ensures old(hasSession) ==> calls == old(calls) + [Event(CloseSession, closed)] && !OffConfirmed(calls)
      ensures !old(hasSession) ==> calls == old(calls) && enabled == old(enabled)
    {
      closed := true;
      if hasSession {
        closed := *;
        enabled := *;
        Note(Event(CloseSession, closed));
      }
      hasSession := false;
    }

    // --------------------------------------------------- disabling and checking

    /** `output_disable`: the abort is best effort, the disable command is not. */
    method OutputDisable() returns (r: Result<(), Failure>, ghost aborted: bool)
      requires Valid()
      modifies `calls, `enabled
      ensures Valid()
      ensures !hasSession ==> r == Ok(()) && calls == old(calls) && enabled == old(enabled)
      ensures hasSession ==> calls == old(calls) + [Event(Abort, aborted), Event(Enable(false), r.Ok?)]
      ensures hasSession ==> Last(calls) == Event(Enable(false), r.Ok?)
      ensures old(calls) <= calls
      ensures r.Err? ==> r.error == DisableFailed
      ensures hasSession && honestOutput && r.Ok? ==> !enabled
      ensures enabled ==> old(enabled)
    {
      if !hasSession {
        return Ok(()), true;
      }
      var abort := Access(Abort);
      var ok := CommandOutput(false);
      return if ok then Ok(()) else Err(DisableFailed), abort;
    }

    /** `verify_output_disabled`: true without a session, false when the query fails. */
    method VerifyOutputDisabled() returns (off: bool, ghost answered: bool)
      requires Valid()
      modifies `calls
      ensures Valid()
      ensures !hasSession ==> off && calls == old(calls)
      ensures hasSession ==> calls == old(calls) + [Event(ReadEnabled(enabled), answered)]
      ensures hasSession && old(calls) != [] && Last(old(calls)) == Event(Enable(false), true) ==> EndsDisabled(calls)
      ensures old(calls) <= calls
      ensures hasSession && answered ==> (off <==> !enabled)
      ensures hasSession && !answered ==> !off
      ensures hasSession && off ==> OffConfirmed(calls)
    {
      if !hasSession {
        return true, true;
      }
      var state := ReadOutput();
      return state == Some(false), state.Some?;
    }

    /** `_check_output_disabled_detailed`. */
    method CheckOutputDisabled() returns (c: Check)
      requires Valid()
      modifies `calls
      ensures Valid()
      ensures !hasSession ==> c == Disabled && calls == old(calls)
      ensures hasSession ==> calls == old(calls) + [Event(ReadEnabled(enabled), c != CommFailure)]
      ensures hasSession && c != CommFailure ==> c == if enabled then StillEnabled else Disabled
    {
      if !hasSession {
        return Disabled;
      }
      var state := ReadOutput();
      return if state.None? then CommFailure else if state.value then StillEnabled else Disabled;
    }

    /** `query_output_state`. */
    method QueryOutputState() returns (state: Option<bool>)
      requires Valid()
      modifies `calls, `lastKnownOutputState
      ensures Valid() && lastKnownOutputState == state
      ensures state.Some? ==> hasSession && state.value == enabled
      ensures !hasSession ==> calls == old(calls)
      ensures hasSession ==> calls == old(calls) + [Event(ReadEnabled(enabled), state.Some?)]
      ensures old(calls) <= calls
    {
      state := None;
      if hasSession {
        state := ReadOutput();
      }
      lastKnownOutputState := state;
    }

    /** The command and its check: the output is off exactly if the accepted command was read back off. */
    method DisableAndCheck() returns (disabled: bool, off: bool)
      requires Valid()
      modifies `calls, `enabled
      ensures Valid() && old(calls) <= calls
      ensures !hasSession ==> disabled && off && calls == old(calls) && enabled == old(enabled)
      ensures hasSession ==>
                var n := |old(calls)|;
                && n + 2 <= |calls| && calls[n].call == Abort && calls[n + 1] == Event(Enable(false), disabled)
                && (!disabled ==> |calls| == n + 2 && !off)
                && (disabled ==> |calls| == n + 3 && calls[n + 2].call.ReadEnabled? && (off <==> calls[n + 2] == Event(ReadEnabled(false), true)))
      ensures hasSession && off ==> !enabled && OffConfirmed(calls)
    {
      var command, _ := OutputDisable();
      if command.Err? {
        return false, false;
      }
      var verified, _ := VerifyOutputDisabled();
      return true, verified;
    }

    /**
     `force_output_off_and_verify`: never raises; true exactly if the disable was accepted and the
     readback after it was answered and said off. A refused disable leaves the state unknown, and
     anything but an off readback counts as on.
     */
    method ForceOutputOffAndVerify() returns (off: bool)
      requires Valid()
      modifies `calls, `enabled, `lastKnownOutputState
      ensures Valid() && old(calls) <= calls
      ensures !hasSession ==> off && calls == old(calls) && enabled == old(enabled)
      ensures hasSession ==> ForcedOff(calls, |old(calls)|, off)
      ensures hasSession ==> (off <==> EndsVerifiedOff(calls))
      ensures lastKnownOutputState == if hasSession && Last(calls) == Event(Enable(false), false) then None else Some(!off)
      ensures off && hasSession ==> !enabled && OffConfirmed(calls)
    {
      var _ := QueryOutputState();
      ghost var queried := calls;
      var disabled;
      disabled, off := DisableAndCheck();
      lastKnownOutputState := if disabled then Some(!off) else None;
      assert old(calls) <= queried <= calls;
    }

    // ------------------------------------------------------------ configuring

    /** The `k`-th access of a planned list: the plan goes on or stops here. */
    method PlannedAccess(call: Call, ghost before: seq<Event>, ghost plan: seq<Event>, ghost k: nat) returns (ok: bool)
      requires Valid() && k < |plan| && plan[k] == Event(call, true) && calls == before + plan[..k]
      requires !Disturbs(call) && !call.ReadEnabled? && (call.Write? && call.level != 0.0 ==> OffConfirmed(calls))
      modifies `calls
      ensures Valid() && OffConfirmed(calls) == OffConfirmed(old(calls))
      ensures ok ==> calls == before + plan[..k + 1]
      ensures ok && k + 1 == |plan| ==> calls == before + plan
      ensures !ok ==> Refused(before, plan, calls)
    {
      ok := Access(call);
      Follow(before, plan, k, calls, ok);
    }

    /** The attribute writes of `_configure_current_source` and their commit, over a confirmed-off output; stops at the first refusal. */
    method WriteCurrentSource(currentA: real, voltageLimitV: real) returns (ok: bool)
      requires Valid() && OffConfirmed(calls)
      modifies `calls
      ensures Valid() && OffConfirmed(calls)
      ensures ok ==> calls == old(calls) + CurrentSourceWrites(currentA, voltageLimitV)
      ensures !ok ==> Refused(old(calls), CurrentSourceWrites(currentA, voltageLimitV), calls)
    {
      ghost var before, plan := calls, CurrentSourceWrites(currentA, voltageLimitV);
      ok := PlannedAccess(Configure, before, plan, 0);
      if ok {
        ok := PlannedAccess(Write(CurrentLevel, currentA), before, plan, 1);
      }
      if ok {
        ok := PlannedAccess(Configure, before, plan, 2);
      }
      if ok {
        ok := PlannedAccess(Write(VoltageLimit, voltageLimitV), before, plan, 3);
      }
      if ok {
        ok := PlannedAccess(Commit, before, plan, 4);
      }
    }

    /** Reads one attribute back; the value is the driver's, possibly coerced. */
    method ReadBack(point: Setpoint) returns (value: Option<real>)
      requires Valid()
      modifies `calls
      ensures Valid() && |calls| == |old(calls)| + 1 && old(calls) <= calls
      ensures Last(calls).call.Read? && Last(calls).call.point == point && Last(calls).ok == value.Some?
      ensures value.Some? ==> value.value == Last(calls).call.value
      ensures OffConfirmed(calls) == OffConfirmed(old(calls))
    {
      var v: real := *;
      var ok := Access(Read(point, v));
      return if ok then Some(v) else None;
    }

    /** The readbacks of `_configure_current_source` and their comparison with what was commanded. */
    method VerifyCurrentSource(currentA: real, voltageLimitV: real) returns (r: Result<Readbacks, Failure>)
      requires Valid()
      modifies `calls
      ensures Valid() && old(calls) <= calls && OffConfirmed(calls) == OffConfirmed(old(calls))
      ensures CurrentRead(calls, |old(calls)|, currentA, voltageLimitV, r)
    {
      var current := ReadBack(CurrentLevel);
      if current.None? {
        return Err(RawDriverError);
      }
      var limit := ReadBack(VoltageLimit);
      if limit.None? {
        return Err(RawDriverError);
      }
      if Abs(current.value - currentA) > CURRENT_TOLERANCE || Abs(limit.value - voltageLimitV) > VOLTAGE_TOLERANCE {
        return Err(ReadbackMismatch);
      }
      return Ok(Readbacks(current.value, limit.value));
    }

    /**
     `_configure_current_source`: on a normal return the output is off, was confirmed off before
     any setpoint was written, and both readbacks are within tolerance of what was commanded. Which
     of the failures is raised is decided by the accesses: the baseline exactly if they do not end
     in an accepted disable read back off, the configuration exactly if a write was refused, and a
     mismatch exactly if both readbacks were answered and a value lies beyond tolerance.
     */
    method ConfigureCurrentSource(currentA: real, voltageLimitV: real)
      returns (r: Result<Readbacks, Failure>, ghost baseline: seq<Event>)
      requires Valid()
      modifies `calls, `enabled, `lastKnownOutputState
      ensures Valid() && old(calls) <= calls
      ensures r == Err(NotConnected) <==> !hasSession
      ensures !hasSession ==> calls == old(calls) && enabled == old(enabled)
      ensures hasSession ==> Configured(old(calls), baseline, calls, currentA, voltageLimitV, r)
      ensures hasSession ==> (r == Err(NoBaseline) <==> !EndsVerifiedOff(baseline))
      ensures hasSession && r != Err(NoBaseline) ==> !enabled && OffConfirmed(baseline) && OffConfirmed(calls)
      ensures r.Ok? ==> !enabled && Abs(r.value.current - currentA) <= CURRENT_TOLERANCE
      ensures r.Ok? ==> Abs(r.value.voltageLimit - voltageLimitV) <= VOLTAGE_TOLERANCE
    {
      baseline := calls;
      if !hasSession {
        return Err(NotConnected), baseline;
      }
      var off := ForceOutputOffAndVerify();
      baseline := calls;
      if !off {
        return Err(NoBaseline), baseline;
      }
      var configured := WriteCurrentSource(currentA, voltageLimitV);
      if !configured {
        return Err(ConfigureFailed), baseline;
      }
      r := VerifyCurrentSource(currentA, voltageLimitV);
    }

    /** `set_charge_mode`. */
    method SetChargeMode(currentA: real, voltageLimitV: real) returns (r: Result<Readbacks, Failure>, ghost baseline: seq<Event>)
      requires Valid()
      modifies `calls, `enabled, `lastKnownOutputState
      ensures Valid() && (r == Err(NotConnected) <==> !hasSession)
      ensures hasSession ==> Configured(old(calls), baseline, calls, currentA, voltageLimitV, r)
      ensures r.Ok? ==> !enabled && Abs(r.value.current - currentA) <= CURRENT_TOLERANCE
      ensures r.Ok? ==> Abs(r.value.voltageLimit - voltageLimitV) <= VOLTAGE_TOLERANCE
    {
      r, baseline := ConfigureCurrentSource(currentA, voltageLimitV);
    }

    /** `set_discharge_mode`: whatever sign the magnitude has, a normal return reads back a sink of |I| within tolerance. */
    method SetDischargeMode(currentA: real, voltageLimitV: real) returns (r: Result<Readbacks, Failure>, ghost baseline: seq<Event>)
      requires Valid()
      modifies `calls, `enabled, `lastKnownOutputState
      ensures Valid() && (r == Err(NotConnected) <==> !hasSession)
      ensures hasSession ==> Configured(old(calls), baseline, calls, -Abs(currentA), voltageLimitV, r)
      ensures r.Ok? ==> !enabled && r.value.current <= -Abs(currentA) + CURRENT_TOLERANCE
      ensures r.Ok? ==> r.value.current >= -Abs(currentA) - CURRENT_TOLERANCE
      ensures r.Ok? ==> Abs(r.value.voltageLimit - voltageLimitV) <= VOLTAGE_TOLERANCE
    {
      r, baseline := ConfigureCurrentSource(-Abs(currentA), voltageLimitV);
    }

    /** The commanding part of `output_enable`. */
    method StartOutput() returns (ok: bool)
      requires Valid()
      modifies `calls, `enabled
      ensures Valid()
      ensures ok ==> calls == old(calls) + StartAccesses()
      ensures !ok ==> Refused(old(calls), StartAccesses(), calls)
    {
      ghost var before, plan := calls, StartAccesses();
      ok := CommandOutput(true);
      Follow(before, plan, 0, calls, ok);
      if ok {
        ok := PlannedAccess(Commit, before, plan, 1);
      }
      if ok {
        ok := PlannedAccess(Initiate, before, plan, 2);
      }
    }

    /** `output_enable`: a normal return means the output was commanded, committed, initiated and read back on. */
    method OutputEnable() returns (r: Result<(), Failure>)
      requires Valid()
      modifies `calls, `enabled, `lastKnownOutputState
      ensures Valid()
      ensures r == Err(NotConnected) <==> !hasSession
      ensures !hasSession ==> calls == old(calls)
      ensures r == Err(EnableFailed) ==> Refused(old(calls), StartAccesses(), calls)
      ensures hasSession && r != Err(EnableFailed) ==>
                && old(calls) + StartAccesses() <= calls && |calls| == |old(calls)| + 4 && Last(calls).call.ReadEnabled?
                && (r.Ok? <==> Last(calls) == Event(ReadEnabled(true), true))
                && (r.Err? <==> r == Err(NotVerifiedOn))
      ensures r.Ok? ==> enabled && lastKnownOutputState == Some(true)
      ensures old(calls) <= calls
    {
      if !hasSession {
        return Err(NotConnected);
      }
      var ok := StartOutput();
      if !ok {
        return Err(EnableFailed);
      }
      ghost var started := calls;
      var state := QueryOutputState();
      assert started <= calls;
      return if state == Some(true) then Ok(()) else Err(NotVerifiedOn);
    }

    // ------------------------------------------------------------ source point

    /** The configuring part of `source_dc_voltage_point`, ending with the output commanded on and committed. */
    method ConfigureVoltagePoint(voltageV: real, currentLimitA: real) returns (ok: bool)
      requires Valid() && OffConfirmed(calls)
      modifies `calls, `enabled
      ensures Valid()
      ensures ok ==> calls == old(calls) + VoltagePointWrites(voltageV, currentLimitA)
      ensures !ok ==> Refused(old(calls), VoltagePointWrites(voltageV, currentLimitA), calls)
    {
      ghost var before, plan := calls, VoltagePointWrites(voltageV, currentLimitA);
      ok := PlannedAccess(Configure, before, plan, 0);
      if ok {
        ok := PlannedAccess(Write(CurrentLimit, currentLimitA), before, plan, 1);
      }
      if ok {
        ok := PlannedAccess(Write(VoltageLevel, voltageV), before, plan, 2);
      }
      if ok {
        ok := CommandOutput(true);
        Follow(before, plan, 3, calls, ok);
      }
      if ok {
        ok := PlannedAccess(Commit, before, plan, 4);
      }
    }

    /** The three readbacks of a configured point and their comparison with what was commanded. */
    method VerifyPoint(voltageV: real, currentLimitA: real) returns (r: Result<Point, Failure>)
      requires Valid()
      modifies `calls
      ensures Valid() && old(calls) <= calls
      ensures PointRead(calls, |old(calls)|, voltageV, currentLimitA, r)
    {
      var volts := ReadBack(VoltageLevel);
      if volts.None? {
        return Err(SourcingFailed);
      }
      var limit := ReadBack(CurrentLimit);
      if limit.None? {
        return Err(SourcingFailed);
      }
      var on := ReadOutput();
      if on.None? {
        return Err(SourcingFailed);
      }
      r := Ok(Point(volts.value, limit.value, false));
      if !OnTarget(r.value, voltageV, currentLimitA) || !on.value {
        return Err(ReadbackMismatch);
      }
    }

    /** Starting a verified point, measuring and holding it. */
    method Hold(p: Point) returns (r: Result<Point, Failure>)
      requires Valid()
      modifies `calls
      ensures Valid() && old(calls) <= calls
      ensures PointHeld(calls, |old(calls)|, r, p)
    {
      var initiated := Access(Initiate);
      if !initiated {
        return Err(SourcingFailed);
      }
      var compliance: bool := *;
      var measured := Access(Observe(compliance));
      if !measured {
        return Err(SourcingFailed);
      }
      var end: HoldEnd := *;
      Note(Event(SmuTrace.Hold(end), end == HeldOut));
      match end
      case HeldOut => return Ok(p.(compliance := compliance));
      case HoldRaised => return Err(SourcingFailed);
      case OperatorCancelled => return Err(Cancelled);
    }

    /** The guarded part: readbacks, measurement and hold, as far as the accesses let it get. */
    method MeasureAndHold(voltageV: real, currentLimitA: real) returns (r: Result<Point, Failure>)
      requires Valid()
      modifies `calls, `lastKnownOutputState
      ensures Valid() && old(calls) <= calls
      ensures Sourced(calls, |old(calls)|, voltageV, currentLimitA, r)
      ensures r.Ok? ==> OnTarget(r.value, voltageV, currentLimitA)
      ensures lastKnownOutputState == if PointGood(calls, |old(calls)|, voltageV, currentLimitA) then Some(true) else old(lastKnownOutputState)
    {
      r := VerifyPoint(voltageV, currentLimitA);
      if r.Err? {
        return;
      }
      lastKnownOutputState := Some(true);
      r := Hold(r.value);
    }

    /** The point once it is committed: measured and held, then disabled whatever came of that, and judged. */
    method HoldPoint(voltageV: real, currentLimitA: real)
      returns (r: Result<Point, Failure>, ghost held: seq<Event>, ghost sourced: Result<Point, Failure>)
      requires Valid() && hasSession
      modifies `calls, `enabled, `lastKnownOutputState
      ensures Valid() && old(calls) <= held <= calls
      ensures Sourced(held, |old(calls)|, voltageV, currentLimitA, sourced) && ThenDisabled(calls, |held|, sourced, r)
      ensures r != Err(DisableFailed) ==> EndsDisabled(calls) && (honestOutput ==> !enabled)
      ensures r.Ok? ==> OnTarget(r.value, voltageV, currentLimitA) && !r.value.compliance
    {
      var point := MeasureAndHold(voltageV, currentLimitA);
      held, sourced := calls, point;
      var disabled, _ := OutputDisable();
      if disabled.Err? {
        return Err(DisableFailed), held, sourced;
      }
      ghost var commanded := calls;
      var _, _ := VerifyOutputDisabled();
      assert held <= commanded <= calls;
      if point.Err? {
        return Err(point.error), held, sourced;
      }
      r := if point.value.compliance then Err(InCompliance) else point;
    }

    /**
     `source_dc_voltage_point`: once its commit has succeeded, every way out disables the output,
     and that command is accepted unless the disable itself is what is raised. A refusal before that
     ends the call at the refused access, with no disable after the verified-off baseline. What is
     returned or raised is decided by the accesses: no baseline exactly if they do not end in an
     accepted disable read back off, a mismatch exactly if a readback was off target or off, and a
     normal return exactly if everything was accepted, on target, held out and not in compliance.
     */
    method SourceDcVoltagePoint(voltageV: real, currentLimitA: real)
      returns (r: Result<Point, Failure>, ghost baseline: seq<Event>, ghost held: seq<Event>, ghost sourced: Result<Point, Failure>)
      requires Valid()
      modifies `calls, `enabled, `lastKnownOutputState
      ensures Valid() && old(calls) <= calls
      ensures r == Err(NotConnected) <==> !hasSession
      ensures !hasSession ==> calls == old(calls)
      ensures hasSession ==> old(calls) <= baseline <= calls && ForcedOff(baseline, |old(calls)|, r != Err(NoBaseline))
      ensures hasSession ==> (r == Err(NoBaseline) <==> !EndsVerifiedOff(baseline))
      ensures r == Err(NoBaseline) ==> calls == baseline
      ensures hasSession && r != Err(NoBaseline) ==> OffConfirmed(baseline)
      ensures r == Err(ConfigureFailed) ==> Refused(baseline, VoltagePointWrites(voltageV, currentLimitA), calls)
      ensures hasSession && r != Err(NoBaseline) && r != Err(ConfigureFailed) ==>
                && baseline + VoltagePointWrites(voltageV, currentLimitA) <= held <= calls
                && Sourced(held, |baseline| + 5, voltageV, currentLimitA, sourced) && ThenDisabled(calls, |held|, sourced, r)
                && (r != Err(DisableFailed) ==> EndsDisabled(calls) && (honestOutput ==> !enabled))
      ensures r.Ok? ==> OnTarget(r.value, voltageV, currentLimitA) && !r.value.compliance
    {
      baseline, held, sourced := calls, calls, Err(NotConnected);
      if !hasSession {
        r := Err(NotConnected);
        return;
      }
      var off := ForceOutputOffAndVerify();
      baseline, held := calls, calls;
      if !off {
        r := Err(NoBaseline);
        return;
      }
      var configured := ConfigureVoltagePoint(voltageV, currentLimitA);
      if !configured {
        r := Err(ConfigureFailed);
        return;
      }
      r, held, sourced := HoldPoint(voltageV, currentLimitA);
    }

    // -------------------------------------------------------- emergency reflex

    /** Zeroing a current source: both its setpoints are read, zeroed and committed. */
    method ZeroCurrentSource(ghost before: seq<Event>, x: real, y: real) returns (ok: bool)
      requires Valid() && calls == before + ZeroingPlan(true, x, y)[..1]
      modifies `calls
      ensures Valid()
      ensures ok ==> calls == before + ZeroingPlan(true, x, y)
      ensures !ok ==> Refused(before, ZeroingPlan(true, x, y), calls)
    {
      ghost var plan := ZeroingPlan(true, x, y);
      ok := PlannedAccess(Read(CurrentLevel, x), before, plan, 1);
      if ok {
        ok := PlannedAccess(Read(VoltageLimit, y), before, plan, 2);
      }
      if ok {
        ok := PlannedAccess(Write(CurrentLevel, 0.0), before, plan, 3);
      }
      if ok {
        ok := PlannedAccess(Write(VoltageLimit, 0.0), before, plan, 4);
      }
      if ok {
        ok := PlannedAccess(Commit, before, plan, 5);
      }
    }

    /** Zeroing a voltage source. */
    method ZeroVoltageSource(ghost before: seq<Event>, x: real, ghost y: real) returns (ok: bool)
      requires Valid() && calls == before + ZeroingPlan(false, x, y)[..1]
      modifies `calls
      ensures Valid()
      ensures ok ==> calls == before + ZeroingPlan(false, x, y)
      ensures !ok ==> Refused(before, ZeroingPlan(false, x, y), calls)
    {
      ghost var plan := ZeroingPlan(false, x, y);
      ok := PlannedAccess(Read(VoltageLevel, x), before, plan, 1);
      if ok {
        ok := PlannedAccess(Write(VoltageLevel, 0.0), before, plan, 2);
      }
      if ok {
        ok := PlannedAccess(Commit, before, plan, 3);
      }
    }

    /**
     `_apply_zero_setpoint`: asks which function is active and zeroes the setpoints of that one, up to
     the first refused access; never raises, never touches the output.
     */
    method ApplyZeroSetpoint() returns (ok: bool, ghost steps: seq<Event>)
      requires Valid()
      modifies `calls
      ensures Valid() && calls == old(calls) + steps
      ensures !hasSession ==> ok && steps == []
      ensures ZeroingOnly(steps)
      ensures hasSession ==> Zeroing(steps, ok) && steps != []
    {
      if !hasSession {
        return true, [];
      }
      var currentSource: bool, x: real, y: real := *, *, *;
      ghost var before := calls;
      ghost var plan := ZeroingPlan(currentSource, x, y);
      ok := PlannedAccess(ReadFunction(currentSource), before, plan, 0);
      if ok {
        if currentSource {
          ok := ZeroCurrentSource(before, x, y);
        } else {
          ok := ZeroVoltageSource(before, x, y);
        }
      }
      steps := ZeroesFollowed(before, currentSource, x, y, calls, ok);
    }

    /** One attempt of the retry loop: a disable and, if it was accepted, one readback. */
    method Attempt() returns (c: Check, ghost steps: seq<Event>)
      requires Valid() && hasSession
      modifies `calls, `enabled
      ensures Valid() && calls == old(calls) + steps
      ensures AttemptSteps(steps, c)
      ensures c == Disabled ==> !enabled
    {
      var disabled, _ := OutputDisable();
      if disabled.Err? {
        return CommFailure, calls[|old(calls)|..];
      }
      c := CheckOutputDisabled();
      steps := calls[|old(calls)|..];
    }

    /** One turn of the retry loop: an attempt and, if it failed and was not the last, a pause. */
    method NextAttempt(attempt: nat, ghost done: seq<Event>) returns (ok: bool, verdict: Check, ghost more: seq<Event>)
      requires Valid() && hasSession && 1 <= attempt <= maxAttempts
      requires Retrying(done, attempt - 1, maxAttempts)
      modifies `calls, `enabled
      ensures Valid() && calls == old(calls) + more
      ensures ok == (verdict == Disabled)
      ensures ok ==> EmergencyOff(done + more, maxAttempts, true, Disabled) && !enabled
      ensures !ok ==> Retrying(done + more, attempt, maxAttempts) && verdict == LastCheck(done + more)
    {
      verdict, more := Attempt();
      ok := verdict == Disabled;
      AfterAttempt(done, more, attempt - 1, verdict);
      if ok {
        Succeeded(done, more, attempt - 1, maxAttempts);
      } else if attempt < maxAttempts {
        var slept := Access(Sleep);
        AfterSleep(done + more, Event(Sleep, slept), attempt, verdict);
        assert done + (more + [Event(Sleep, slept)]) == done + more + [Event(Sleep, slept)];
        more := more + [Event(Sleep, slept)];
      }
    }

    /**
     `emergency_output_off`: whatever the session does, it returns; it zeroes the setpoints before
     the first disable; it makes at most `maxAttempts` attempts, a pause between two; it stops at
     the first attempt whose accepted disable is read back off and returns true exactly then; and
     otherwise its verdict is the outcome of the last attempt.
     */
    method EmergencyOutputOff() returns (ok: bool, verdict: Check, ghost steps: seq<Event>, ghost zeroing: seq<Event>)
      requires Valid()
      modifies `calls, `enabled
      ensures Valid() && calls == old(calls) + steps
      ensures !hasSession ==> steps == [] && ok == (maxAttempts > 0) && verdict == if ok then Disabled else CommFailure
      ensures hasSession ==> (Zeroing(zeroing, true) || Zeroing(zeroing, false)) && zeroing <= steps
      ensures hasSession ==> EmergencyOff(steps, maxAttempts, ok, verdict)
      ensures hasSession && ok ==> !enabled
    {
      zeroing := ZeroFirst();
      ghost var rest;
      ok, verdict, rest := DisableWithRetries(zeroing);
      steps := zeroing + rest;
    }

    /** The zeroing, whatever comes of it. */
    method ZeroFirst() returns (ghost zeroing: seq<Event>)
      requires Valid()
      modifies `calls
      ensures Valid() && calls == old(calls) + zeroing
      ensures ZeroingOnly(zeroing)
      ensures !hasSession ==> zeroing == []
      ensures hasSession ==> (Zeroing(zeroing, true) || Zeroing(zeroing, false)) && zeroing != []
    {
      var ok;
      ok, zeroing := ApplyZeroSetpoint();
      assert hasSession ==> Zeroing(zeroing, ok);
    }

    /** The retry loop, after the zeroing accesses `done`. */
    method DisableWithRetries(ghost done: seq<Event>) returns (ok: bool, verdict: Check, ghost rest: seq<Event>)
      requires Valid() && (hasSession ==> done != []) && ZeroingOnly(done)
      modifies `calls, `enabled
      ensures Valid() && calls == old(calls) + rest
      ensures !hasSession ==> rest == [] && ok == (maxAttempts > 0) && verdict == if ok then Disabled else CommFailure
      ensures hasSession ==> EmergencyOff(done + rest, maxAttempts, ok, verdict)
      ensures hasSession && ok ==> !enabled
    {
      rest := [];
      assert done + rest == done;
      NoChecksWhileZeroing(done);
      ok, verdict := false, CommFailure;
      for attempt := 1 to maxAttempts + 1
        invariant Valid() && calls == old(calls) + rest && !ok
        invariant !hasSession ==> attempt == 1 && rest == [] && verdict == CommFailure
        invariant hasSession ==> Retrying(done + rest, attempt - 1, maxAttempts) && verdict == LastCheck(done + rest)
      {
        if !hasSession {
          return true, Disabled, rest;
        }
        ghost var more;
        ok, verdict, more := NextAttempt(attempt, done + rest);
        assert done + rest + more == done + (rest + more);
        rest := rest + more;
        if ok {
          return;
        }
      }
      if hasSession { Exhausted(done + rest, maxAttempts, verdict); }
    }

    /**
     Any sequence of public calls, whatever the session does at each access: every non-zero
     setpoint ever written was written after the output had been read back off in the same session,
     with no output command in between.
     */
    method Session(operations: seq<Operation>)
      requires Valid()
      modifies this
      ensures Valid()
      ensures forall i :: 0 <= i < |calls| && calls[i].call.Write? && calls[i].call.level != 0.0 ==> WrittenOverOff(calls, i)
    {
      for k := 0 to |operations|
        invariant Valid()
      {
        match operations[k]
        case OpenTheSession => var _ := Connect();
        case CloseTheSession => var _ := Disconnect();
        case Charge(a, v) => var _, _ := SetChargeMode(a, v);
        case Discharge(a, v) => var _, _ := SetDischargeMode(a, v);
        case EnableOutput => var _ := OutputEnable();
        case DisableOutput => var _, _ := OutputDisable();
        case ForceOff => var _ := ForceOutputOffAndVerify();
        case SourcePoint(v, a) => var _, _, _, _ := SourceDcVoltagePoint(v, a);
        case EmergencyStop => var _, _, _, _ := EmergencyOutputOff();
        case ZeroSetpoint => var _, _ := ApplyZeroSetpoint();
      }
      forall i | 0 <= i < |calls| && calls[i].call.Write? && calls[i].call.level != 0.0 ensures WrittenOverOff(calls, i) {
        var j := GuardedWrite(calls, i);
      }
    }
  }

  /** Both readbacks of a point are within tolerance of what was commanded. */
  predicate OnTarget(p: Point, voltageV: real, currentLimitA: real) {
    Abs(p.voltage - voltageV) <= VOLTAGE_TOLERANCE && Abs(p.currentLimit - currentLimitA) <= CURRENT_TOLERANCE
  }

  /** Before access `i`, the output was read back off, in the same session, and not commanded since. */
  ghost predicate WrittenOverOff(calls: seq<Event>, i: nat)
    requires i < |calls|
  {
    exists j :: 0 <= j < i && calls[j] == Event(ReadEnabled(false), true) && forall k :: j < k < i ==> !Disturbs(calls[k].call)
  }

  /** The accepted accesses that zero the setpoints of the active function, which are read first. */
  ghost function ZeroingPlan(currentSource: bool, x: real, y: real): seq<Event> {
    [Event(ReadFunction(currentSource), true)]
    + if currentSource then
        [Event(Read(CurrentLevel, x), true), Event(Read(VoltageLimit, y), true),
         Event(Write(CurrentLevel, 0.0), true), Event(Write(VoltageLimit, 0.0), true), Event(Commit, true)]
      else [Event(Read(VoltageLevel, x), true), Event(Write(VoltageLevel, 0.0), true), Event(Commit, true)]
  }

  ghost predicate ZeroedAs(t: seq<Event>, currentSource: bool, x: real, y: real, ok: bool) {
    if ok then t == ZeroingPlan(currentSource, x, y) else Refused([], ZeroingPlan(currentSource, x, y), t)
  }

  /** The zeroing step: exactly the accesses that the active function calls for, and it succeeds exactly if all were accepted. */
  ghost predicate Zeroing(t: seq<Event>, ok: bool) {
    exists currentSource, x, y :: ZeroedAs(t, currentSource, x, y, ok)
  }

  /** What was done of the zeroing, as far as it got. */
  lemma ZeroesFollowed(before: seq<Event>, currentSource: bool, x: real, y: real, t: seq<Event>, ok: bool) returns (steps: seq<Event>)
    requires ok ==> t == before + ZeroingPlan(currentSource, x, y)
    requires !ok ==> Refused(before, ZeroingPlan(currentSource, x, y), t)
    ensures t == before + steps && ZeroingOnly(steps) && steps != [] && Zeroing(steps, ok)
  {
    var plan := ZeroingPlan(currentSource, x, y);
    assert ZeroingOnly(plan);
    if ok {
      steps := plan;
    } else {
      var k: nat :| RefusedAt(before, plan, k, t);
      steps := plan[..k] + [Event(plan[k].call, false)];
      assert t == before + steps;
      assert RefusedAt([], plan, k, steps);
    }
    assert ZeroedAs(steps, currentSource, x, y, ok);
  }

  ghost predicate ZeroingOnly(t: seq<Event>) {
    forall i :: 0 <= i < |t| ==> ZeroingStep(t[i])
  }

  /** What the emergency reflex did with a session, and what it says about it. */
  ghost predicate EmergencyOff(steps: seq<Event>, maxAttempts: nat, ok: bool, verdict: Check) {
    var checks := Checks(steps);
    && Ordered(steps)
    && |checks| <= maxAttempts
    && (ok <==> Disabled in checks)
    && (forall i :: 0 <= i < |checks| - 1 ==> checks[i] != Disabled)
    && (!ok ==> |checks| == maxAttempts)
    && verdict == (if checks == [] then CommFailure else checks[|checks| - 1])
    && Sleeps(steps) == if checks == [] then 0 else |checks| - 1
  }

  /** The reflex so far: `n` attempts, none verified off, every setpoint write before the first output command. */
  ghost predicate Failing(steps: seq<Event>, n: nat, verdict: Check) {
    && |Checks(steps)| == n && Disabled !in Checks(steps)
    && verdict == (if n > 0 then Checks(steps)[n - 1] else CommFailure)
    && Ordered(steps)
  }

  ghost function LastCheck(steps: seq<Event>): Check {
    if Checks(steps) == [] then CommFailure else Checks(steps)[|Checks(steps)| - 1]
  }

  /** After `n` failed attempts, with a pause after each but the last possible one. */
  ghost predicate Retrying(steps: seq<Event>, n: nat, maxAttempts: nat) {
    && |Checks(steps)| == n && Disabled !in Checks(steps) && Ordered(steps)
    && Sleeps(steps) == if n < maxAttempts || n == 0 then n else n - 1
  }

  ghost predicate Ordered(steps: seq<Event>) {
    SetpointsFirst(steps) && steps != [] && !steps[0].call.Enable?
  }

  lemma AfterAttempt(steps: seq<Event>, more: seq<Event>, n: nat, c: Check)
    requires |Checks(steps)| == n && Disabled !in Checks(steps) && Ordered(steps)
    requires AttemptSteps(more, c)
    ensures Checks(steps + more) == Checks(steps) + [c] && Sleeps(steps + more) == Sleeps(steps)
    ensures Ordered(steps + more)
    ensures c != Disabled ==> Failing(steps + more, n + 1, c)
  {
    AttemptAddsOne(steps, more, c);
  }

  lemma Succeeded(steps: seq<Event>, more: seq<Event>, n: nat, maxAttempts: nat)
    requires |Checks(steps)| == n < maxAttempts && Disabled !in Checks(steps) && Sleeps(steps) == n
    requires Checks(steps + more) == Checks(steps) + [Disabled] && Sleeps(steps + more) == n && Ordered(steps + more)
    ensures EmergencyOff(steps + more, maxAttempts, true, Disabled)
  {
  }

  lemma Exhausted(steps: seq<Event>, maxAttempts: nat, verdict: Check)
    requires Retrying(steps, maxAttempts, maxAttempts) && verdict == LastCheck(steps)
    ensures EmergencyOff(steps, maxAttempts, false, verdict)
  {
  }

  lemma AfterSleep(steps: seq<Event>, pause: Event, n: nat, c: Check)
    requires Failing(steps, n, c) && pause.call.Sleep?
    ensures Failing(steps + [pause], n, c) && Sleeps(steps + [pause]) == Sleeps(steps) + 1
  {
    assert Init(steps + [pause]) == steps;
  }

  predicate ZeroingStep(e: Event) {
    !Disturbs(e.call) && !e.call.ReadEnabled? && !e.call.Sleep? && !e.call.Abort?
  }

  /** The accesses of one attempt and how it came out. */
  ghost predicate AttemptSteps(t: seq<Event>, c: Check) {
    && |t| >= 2 && t[0].call == Abort
    && if |t| == 2 then t[1] == Event(Enable(false), false) && c == CommFailure
       else
         && |t| == 3 && t[1] == Event(Enable(false), true) && t[2].call.ReadEnabled?
         && c == if !t[2].ok then CommFailure else if t[2].call.on then StillEnabled else Disabled
  }

  lemma {:induction false} NoChecksWhileZeroing(t: seq<Event>)
    requires ZeroingOnly(t)
    ensures Checks(t) == [] && Sleeps(t) == 0 && SetpointsFirst(t)
  {
    if t == [] {
    } else {
      NoChecksWhileZeroing(Init(t));
    }
  }

  lemma AttemptAddsOne(t: seq<Event>, more: seq<Event>, c: Check)
    requires AttemptSteps(more, c)
    ensures Checks(t + more) == Checks(t) + [c] && Sleeps(t + more) == Sleeps(t)
  {
    var a := t + [more[0]];
    var b := a + [more[1]];
    assert Init(a) == t && Init(b) == a;
    if |more| == 3 {
      assert t + more == b + [more[2]];
      assert Init(b + [more[2]]) == b;
    } else {
      assert t + more == b;
    }
    assert Sleeps(t) == Sleeps(a) == Sleeps(b);
  }
}
