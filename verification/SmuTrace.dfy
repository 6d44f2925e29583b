/**
 The history of one SMU session and what is read off it.

 Every access to the NI-DCPower session is one event, with whether it was accepted or raised.
 */
module SmuTrace {
  datatype Setpoint = CurrentLevel | VoltageLimit | VoltageLevel | CurrentLimit

  datatype Call =
    | Abort
    | Enable(on: bool)               // output_enabled = on
    | ReadEnabled(on: bool)          // bool(output_enabled)
    | Configure                      // output function, source mode and range attributes
    | Write(point: Setpoint, level: real)
    | Read(point: Setpoint, value: real)
    | ReadFunction(currentSource: bool)
    | Commit
    | Initiate
    | Observe(compliance: bool)      // compliance query and measurement
    | Hold(end: HoldEnd)
    | Sleep
    | OpenSession
    | CloseSession

  /** How the hold of a sourced point ends. */
  datatype HoldEnd = HeldOut | HoldRaised | OperatorCancelled

  /** An access and whether it was accepted; the value it carries, if it reads one, is what was read. */
  datatype Event = Event(call: Call, ok: bool)

  datatype Check = Disabled | StillEnabled | CommFailure

  ghost function Init(t: seq<Event>): seq<Event>
    requires t != []
  {
    t[..|t| - 1]
  }

  ghost function Last(t: seq<Event>): Event
    requires t != []
  {
    t[|t| - 1]
  }

  /** After these accesses an earlier readback of the output says nothing any more. */
  predicate Disturbs(c: Call) {
    c.Enable? || c.OpenSession? || c.CloseSession?
  }

  /** The output was read back off, and within the same session nobody has commanded it since. */
  ghost predicate OffConfirmed(t: seq<Event>) {
    t != []
    && match Last(t).call
       case ReadEnabled(on) => if Last(t).ok then !on else OffConfirmed(Init(t))
       case Enable(_) | OpenSession | CloseSession => false
       case _ => OffConfirmed(Init(t))
  }

  /** Sourcing discipline: every write of a non-zero setpoint happens over a confirmed-off output. */
  ghost predicate Guarded(t: seq<Event>) {
    t != [] ==>
      && Guarded(Init(t))
      && (Last(t).call.Write? && Last(t).call.level != 0.0 ==> OffConfirmed(Init(t)))
  }

  /** How each commanded disable came out: the command refused, or what the readback right after it said. */
  ghost function Checks(t: seq<Event>): seq<Check> {
    if t == [] then []
    else if Last(t) == Event(Enable(false), false) then Checks(Init(t)) + [CommFailure]
    else if Last(t).call.ReadEnabled? && Init(t) != [] && Last(Init(t)) == Event(Enable(false), true) then
      Checks(Init(Init(t))) + [if !Last(t).ok then CommFailure else if Last(t).call.on then StillEnabled else Disabled]
    else Checks(Init(t))
  }

  ghost function Sleeps(t: seq<Event>): nat {
    if t == [] then 0 else Sleeps(Init(t)) + if Last(t).call.Sleep? then 1 else 0
  }

  /** No setpoint is written after the output has been commanded. */
  ghost predicate SetpointsFirst(t: seq<Event>) {
    forall i, j :: 0 <= i < j < |t| && t[i].call.Enable? ==> !t[j].call.Write?
  }

  /** The history ends with an accepted disable and one readback of it. */
  ghost predicate EndsDisabled(t: seq<Event>) {
    |t| >= 2 && t[|t| - 2] == Event(Enable(false), true) && t[|t| - 1].call.ReadEnabled?
  }

  /** It ends with an accepted disable that was read back off. */
  ghost predicate EndsVerifiedOff(t: seq<Event>) {
    |t| >= 2 && t[|t| - 2] == Event(Enable(false), true) && t[|t| - 1] == Event(ReadEnabled(false), true)
  }

  /**
   Whole runs: at any point of a guarded history, a non-zero setpoint write follows an off readback
   in the same session, with no output command in between.
   */
  lemma {:induction false} GuardedWrite(t: seq<Event>, i: nat) returns (j: nat)
    requires Guarded(t) && i < |t| && t[i].call.Write? && t[i].call.level != 0.0
    ensures j < i && t[j] == Event(ReadEnabled(false), true)
    ensures forall k :: j < k < i ==> !Disturbs(t[k].call)
  {
    if i < |t| - 1 {
      j := GuardedWrite(Init(t), i);
    } else {
      j := ConfirmedBy(Init(t));
    }
  }

  lemma {:induction false} ConfirmedBy(t: seq<Event>) returns (j: nat)
    requires OffConfirmed(t)
    ensures j < |t| && t[j] == Event(ReadEnabled(false), true)
    ensures forall k :: j < k < |t| ==> !Disturbs(t[k].call)
  {
    if Last(t).call.ReadEnabled? && Last(t).ok {
      j := |t| - 1;
    } else {
      j := ConfirmedBy(Init(t));
    }
  }
}
