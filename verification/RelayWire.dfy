/**
 The wire history of one relay matrix and the safety laws stated over it.

 A history lists, oldest first, the logical commands the driver issued, the commands
 that actually went out with the bank before and after them and what came back, the
 connection attempts and how far each got, the emergency shutdowns and the settled returns
 of `open`/`close`.
 */
module RelayWire {
  import opened Collections
  import opened Results
  import Codec = BankCodec

  datatype Command = On(relay: nat) | AllOff | ReadAll | Read(relay: nat)

  /** What comes back for a command: text up to the prompt, which may say "invalid", a closed connection, nothing in time, or an OSError from recv. */
  datatype Reply = Text(answer: string, invalid: bool) | Cut | Silent | Broken

  /** How far a connection attempt gets before the command that checks it. */
  datatype Login = NotReached | Refused | Interrupted | LoggedIn

  datatype Event =
    | Issue(cmd: Command)
    | Sent(cmd: Command, before: set<nat>, after: set<nat>, at: real, reply: Reply)
    | Connecting(login: Login)
    | EmergencyBegin
    | EmergencyEnd(ok: bool)
    | Settled(at: real)

  /** What a command does to the bank when the firmware executes it. */
  function Effect(cmd: Command, bank: set<nat>): set<nat> {
    match cmd
    case On(n) => bank + {n}
    case AllOff => {}
    case ReadAll => bank
    case Read(_) => bank
  }

  ghost function Init(t: seq<Event>): seq<Event>
    requires t != []
  {
    t[..|t| - 1]
  }

  ghost function Last(t: seq<Event>): Event
    requires t != []
  {
    t[|t| - 1]
  }

  /** Commands that went out on the wire. */
  ghost function Commands(t: seq<Event>): nat {
    if t == [] then 0 else Commands(Init(t)) + (if Last(t).Sent? then 1 else 0)
  }

  ghost function Reconnects(t: seq<Event>): nat {
    if t == [] then 0 else Reconnects(Init(t)) + (if Last(t).Connecting? then 1 else 0)
  }

  ghost function Emergencies(t: seq<Event>): nat {
    if t == [] then 0 else Emergencies(Init(t)) + (if Last(t).EmergencyEnd? then 1 else 0)
  }

  /** Settled returns of `open` and `close`. */
  ghost function Settles(t: seq<Event>): nat {
    if t == [] then 0 else Settles(Init(t)) + (if Last(t).Settled? then 1 else 0)
  }

  /** The logical commands, each counted once however often it is retried. */
  ghost function Issued(t: seq<Event>): seq<Command> {
    if t == [] then [] else Issued(Init(t)) + (if Last(t).Issue? then [Last(t).cmd] else [])
  }

  ghost predicate EndsInEmergency(t: seq<Event>) {
    t != [] && Last(t).EmergencyEnd?
  }

  /** The history up to the last emergency attempt, so that it ends with the event that caused it. */
  ghost function BeforeEmergency(t: seq<Event>): seq<Event> {
    if t == [] then []
    else if Last(t).EmergencyBegin? then Init(t)
    else BeforeEmergency(Init(t))
  }

  /** The command came back with text that does not say "invalid". */
  ghost predicate Accepted(e: Event) {
    e.Sent? && e.reply.Text? && !e.reply.invalid
  }

  /** An accepted readback whose text holds a mask, or an on/off word. */
  ghost predicate Parsed(e: Event) {
    && Accepted(e)
    && ((e.cmd.ReadAll? && Codec.ParseReadall(e.reply.answer).Some?) || (e.cmd.Read? && Codec.ParseRead(e.reply.answer).Some?))
  }

  /** An accepted readback whose text does not. */
  ghost predicate Unparsed(e: Event) {
    Accepted(e) && !Parsed(e) && (e.cmd.ReadAll? || e.cmd.Read?)
  }

  /** The history ends in a connection attempt that failed, or in the check of a new connection that did. */
  ghost predicate NoConnection(t: seq<Event>) {
    && t != []
    && if Last(t).Connecting? then !Last(t).login.LoggedIn?
       else |t| > 1 && t[|t| - 2] == Connecting(LoggedIn) && Last(t).Sent? && Last(t).cmd == ReadAll && !Parsed(Last(t))
  }

  /** The history ends in a retry, on a checked new connection, that was not accepted either. */
  ghost predicate RetryFailed(t: seq<Event>, timedOut: bool) {
    && |t| > 2 && t[|t| - 3] == Connecting(LoggedIn) && Parsed(t[|t| - 2]) && t[|t| - 2].cmd == ReadAll
    && Last(t).Sent? && !Last(t).reply.Broken? && !Accepted(Last(t))
    && (timedOut <==> Last(t).reply.Silent?)
  }

  /** Communication is given up: no new connection, or the retry on it failed. */
  ghost predicate GivenUp(t: seq<Event>, timedOut: bool) {
    (NoConnection(t) && !timedOut) || RetryFailed(t, timedOut)
  }

  /**
   A history that starts at bank `b0` and ends at bank `b`, in which every command is
   either executed or has no effect, and `relay on n` only goes out over a bank in which
   every other relay is off.
   */
  ghost predicate Interlocked(b0: set<nat>, t: seq<Event>, b: set<nat>) {
    if t == [] then b == b0
    else if Last(t).Sent? then
      var e := Last(t);
      && e.after == b
      && (b == e.before || b == Effect(e.cmd, e.before))
      && (e.cmd.On? ==> e.before <= {e.cmd.relay})
      && Interlocked(b0, Init(t), e.before)
    else Interlocked(b0, Init(t), b)
  }

  /** Times never decrease and end by `now`; a settled return is `settle` after everything before it. */
  ghost predicate Timed(t: seq<Event>, now: real, settle: real) {
    if t == [] then true
    else
      match Last(t)
      case Sent(_, _, _, at, _) => at <= now && Timed(Init(t), at, settle)
      case Settled(at) => at <= now && Timed(Init(t), at - settle, settle)
      case _ => Timed(Init(t), now, settle)
  }

  function Max(a: nat, b: nat): nat {
    if a < b then b else a
  }

  /**
   Interlock over whole runs: in every such history each `relay on n` finds every other
   relay off, and the number of energised relays never exceeds max(initial, 1).
   */
  lemma {:induction false} InterlockOverRun(b0: set<nat>, t: seq<Event>, b: set<nat>)
    requires Interlocked(b0, t, b)
    ensures |b| <= Max(|b0|, 1)
    ensures forall i :: 0 <= i < |t| && t[i].Sent? ==>
                          && |t[i].before| <= Max(|b0|, 1) && |t[i].after| <= Max(|b0|, 1)
                          && (t[i].cmd.On? ==> t[i].before <= {t[i].cmd.relay} && t[i].after <= {t[i].cmd.relay})
  {
    if t == [] {
    } else {
      var e := Last(t);
      if e.Sent? {
        InterlockOverRun(b0, Init(t), e.before);
        if e.cmd.On? {
          SubsetSize(e.before, {e.cmd.relay});
          SubsetSize(e.after, {e.cmd.relay});
        }
      } else {
        InterlockOverRun(b0, Init(t), b);
      }
      forall i | 0 <= i < |t| && t[i].Sent?
        ensures |t[i].before| <= Max(|b0|, 1) && |t[i].after| <= Max(|b0|, 1)
        ensures t[i].cmd.On? ==> t[i].before <= {t[i].cmd.relay} && t[i].after <= {t[i].cmd.relay}
      {
        if i < |t| - 1 {
          assert t[i] == Init(t)[i];
        }
      }
    }
  }

  /** What a command that goes out adds to a history. */
  lemma SentNext(b0: set<nat>, t: seq<Event>, now: real, e: Event, settle: real)
    requires e.Sent? && Timed(t, now, settle) && now <= e.at
    ensures var after := t + [e];
            && Timed(after, e.at, settle) && Settles(after) == Settles(t) && Commands(after) == Commands(t) + 1
            && Reconnects(after) == Reconnects(t) && Emergencies(after) == Emergencies(t)
            && Issued(after) == Issued(t) && BeforeEmergency(after) == BeforeEmergency(t)
            && ((Interlocked(b0, t, e.before) && (e.cmd.On? ==> e.before <= {e.cmd.relay})
                 && (e.after == e.before || e.after == Effect(e.cmd, e.before))) ==> Interlocked(b0, after, e.after))
  {
    assert Init(t + [e]) == t;
    TimedLater(t, now, e.at, settle);
  }

  /** What a settled return adds to a history. */
  lemma SettledReturn(b0: set<nat>, t: seq<Event>, b: set<nat>, now: real, at: real, settle: real)
    requires Timed(t, now, settle) && now + settle <= at
    ensures var after := t + [Settled(at)];
            && Timed(after, at, settle) && Settles(after) == Settles(t) + 1
            && Commands(after) == Commands(t) && Reconnects(after) == Reconnects(t) && Emergencies(after) == Emergencies(t)
            && Issued(after) == Issued(t) && (Interlocked(b0, t, b) ==> Interlocked(b0, after, b))
  {
    assert Init(t + [Settled(at)]) == t;
    TimedLater(t, now, at - settle, settle);
  }

  lemma {:induction false} TimedLater(t: seq<Event>, now: real, later: real, settle: real)
    requires Timed(t, now, settle) && now <= later
    ensures Timed(t, later, settle)
  {
    if t != [] && !Last(t).Sent? && !Last(t).Settled? {
      TimedLater(Init(t), now, later, settle);
    }
  }

  lemma {:induction false} TimedBound(t: seq<Event>, now: real, settle: real, i: nat)
    requires Timed(t, now, settle) && settle >= 0.0 && i < |t| && t[i].Sent?
    ensures t[i].at <= now
  {
    if i < |t| - 1 {
      match Last(t)
      case Sent(_, _, _, at, _) => TimedBound(Init(t), at, settle, i);
      case Settled(at) => TimedBound(Init(t), at - settle, settle, i);
      case _ => TimedBound(Init(t), now, settle, i);
    }
  }

  /** Dead time over whole runs: a settled return separates earlier and later commands by at least `settle`. */
  lemma {:induction false} DeadTimeOverRun(t: seq<Event>, now: real, settle: real, i: nat, j: nat, k: nat)
    requires Timed(t, now, settle) && settle >= 0.0
    requires i < j < k < |t| && t[i].Sent? && t[j].Settled? && t[k].Sent?
    ensures t[i].at + settle <= t[j].at <= t[k].at
    decreases |t|
  {
    var last := |t| - 1;
    match t[last]
    case Sent(_, _, _, at, _) =>
      if k < last { DeadTimeOverRun(Init(t), at, settle, i, j, k); } else { SettledBound(Init(t), at, settle, i, j); }
    case Settled(at) => DeadTimeOverRun(Init(t), at - settle, settle, i, j, k);
    case _ => DeadTimeOverRun(Init(t), now, settle, i, j, k);
  }

  lemma {:induction false} SettledBound(t: seq<Event>, now: real, settle: real, i: nat, j: nat)
    requires Timed(t, now, settle) && settle >= 0.0
    requires i < j < |t| && t[i].Sent? && t[j].Settled?
    ensures t[i].at + settle <= t[j].at <= now
    decreases |t|
  {
    var last := |t| - 1;
    match t[last]
    case Sent(_, _, _, at, _) => SettledBound(Init(t), at, settle, i, j);
    case Settled(at) =>
      if j < last { SettledBound(Init(t), at - settle, settle, i, j); } else { TimedBound(Init(t), at - settle, settle, i); }
    case _ => SettledBound(Init(t), now, settle, i, j);
  }
}
