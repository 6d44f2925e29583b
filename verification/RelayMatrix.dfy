/**
 The interlocked relay driver (hardware/relay_eth.py, with the settling wrapper of
 hardware/relay.py): `NumatoRelayMatrix`.

 The device is a bank of energised relays. Every command may be executed or not, and
 independently answered, rejected, left unanswered or cut off by a socket error; a readback
 that can be parsed is the module's own text for the bank as it is. With `faithfulWrites` a
 command that is executed does what it says; without it, a write may leave any bank behind.
 */
module RelayMatrix {
  import opened Results
  import opened RelayWire
  import Codec = BankCodec

  datatype Failure =
    | InvalidChannel
    | NotPermitted
    | CommFailure(timedOut: bool) // NIPXITimeoutError if timed out, RelayError otherwise
    | RawSocketError             // OSError raised by recv, never converted
    | Unparseable                // readback text without a mask or an on/off word
    | Mismatch(shutdownOk: bool) // RelayStateVerificationError, with the emergency outcome
    | InvalidSettleTime

  type Outcome<T> = Result<T, Failure>

  datatype Call = OpenCall(channel: int) | CloseCall(channel: int) | OpenAllCall | CloseAllCall | QueryCall(channel: int)
                | ConnectCall | DisconnectCall

  /** The logical command sequence of `_force_all_off_and_verify`. */
  ghost function ForceOffPlan(): seq<Command> {
    [ReadAll, AllOff, ReadAll]
  }

  /** The logical command sequence of `close`. */
  ghost function ClosePlan(relay: nat): seq<Command> {
    ForceOffPlan() + ActivatePlan(relay)
  }

  /** Its second half: activate, verify the one relay, verify the bank. */
  ghost function ActivatePlan(relay: nat): seq<Command> {
    [On(relay), Read(relay), ReadAll]
  }

  /** From `before` to `after`, a prefix of `plan` of at least `least` commands was issued and nothing else. */
  ghost predicate Followed(before: seq<Command>, after: seq<Command>, plan: seq<Command>, least: nat) {
    before <= after && after[|before|..] <= plan && |after| >= |before| + least
  }

  /** One plan carried out and then part of the next is a part of both in a row. */
  lemma FollowedOn(before: seq<Command>, between: seq<Command>, after: seq<Command>, first: seq<Command>, second: seq<Command>, least: nat)
    requires between == before + first && Followed(between, after, second, least)
    ensures Followed(before, after, first + second, |first| + least)
  {
    assert after[|before|..] == first + after[|between|..];
  }

  /** An answer is text that cannot be parsed or the module's own text for the bank as it is. */
  ghost predicate Truthful(cmd: Command, bank: set<nat>, width: nat, answer: string) {
    match cmd
    case ReadAll => Codec.ParseReadall(answer) == None || Codec.ParseReadall(answer) == Some(Codec.MaskOf(bank, width))
    case Read(n) => Codec.ParseRead(answer) == None || Codec.ParseRead(answer) == Some(n in bank)
    case _ => true
  }

  class NumatoRelayMatrix {
    const numChannels: nat
    const width: nat               // relays physically on the module
    const settleTime: real
    const faithfulWrites: bool
    ghost const initialBank: set<nat>

    var bank: set<nat>
    var clock: real
    var sockOpen: bool
    var connected: bool
    var lastKnownMask: Option<nat>
    ghost var wire: seq<Event>
    ghost var settled: nat                      // settled returns on the wire
    ghost var returned: seq<Option<Failure>>    // how every `open` and `close` came back

    ghost predicate Valid()
      reads this
    {
      && width <= 32 && (forall n :: n in bank ==> n < width)
      && (connected ==> sockOpen)
      && Timed(wire, clock, settleTime) && settled == Settles(wire)
      && (faithfulWrites ==> Interlocked(initialBank, wire, bank))
    }

    constructor (numChannels: nat, width: nat, settleTime: real, faithfulWrites: bool, bank: set<nat>)
      requires width <= 32 && forall n :: n in bank ==> n < width
      ensures Valid() && wire == [] && returned == [] && !connected && !sockOpen && lastKnownMask == None
      ensures this.numChannels == numChannels && this.width == width && this.settleTime == settleTime
      ensures this.faithfulWrites == faithfulWrites && this.bank == bank && initialBank == bank
    {
      this.numChannels, this.width, this.settleTime := numChannels, width, settleTime;
      this.faithfulWrites, this.bank, this.initialBank := faithfulWrites, bank, bank;
      clock, sockOpen, connected, lastKnownMask := 0.0, false, false, None;
      wire, settled, returned := [], 0, [];
    }

    /** Appends an event other than a wire command or a settled return; time may pass. */
    ghost method Note(e: Event)
      requires Valid() && !e.Sent? && !e.Settled?
      modifies `wire
      ensures Valid() && wire == old(wire) + [e]
      ensures Commands(wire) == Commands(old(wire))
      ensures Reconnects(wire) == Reconnects(old(wire)) + if e.Connecting? then 1 else 0
      ensures Emergencies(wire) == Emergencies(old(wire)) + if e.EmergencyEnd? then 1 else 0
      ensures Issued(wire) == Issued(old(wire)) + if e.Issue? then [e.cmd] else []
      ensures BeforeEmergency(wire) == if e.EmergencyBegin? then old(wire) else BeforeEmergency(old(wire))
    {
      wire := wire + [e];
      assert Init(wire) == old(wire);
    }

    // ------------------------------------------------------------ transport

    /** One command goes out and the module does with it, and answers, what it does; time passes before and after. */
    method Execute(cmd: Command) returns (reply: Reply)
      requires Valid()
      requires cmd.On? && faithfulWrites ==> bank <= {cmd.relay}
      modifies `bank, `clock, `wire
      ensures Valid() && clock >= old(clock)
      ensures wire != [] && Last(wire).Sent? && old(clock) <= Last(wire).at <= clock
      ensures wire == old(wire) + [Sent(cmd, old(bank), bank, Last(wire).at, reply)]
      ensures reply.Text? ==> Truthful(cmd, bank, width, reply.answer)
      ensures reply.Text? ==> (reply.invalid <==> Codec.Contains(Codec.Lower(reply.answer), "invalid"))
      ensures Commands(wire) == Commands(old(wire)) + 1 && BeforeEmergency(wire) == BeforeEmergency(old(wire))
      ensures Reconnects(wire) == Reconnects(old(wire)) && Emergencies(wire) == Emergencies(old(wire))
      ensures Issued(wire) == Issued(old(wire))
      ensures cmd.ReadAll? || cmd.Read? ==> bank == old(bank)
      ensures faithfulWrites ==> bank == old(bank) || bank == Effect(cmd, old(bank))
    {
      var wait, answerTime :| wait >= 0.0 && answerTime >= 0.0;
      var at := clock + wait;
      var after := BankAfter(cmd);
      reply := *;
      if reply.Text? {
        var answer := AnswerTo(cmd, after);
        reply := Text(answer, Codec.Contains(Codec.Lower(answer), "invalid"));
      }
      ghost var e := Sent(cmd, bank, after, at, reply);
      SentNext(initialBank, wire, clock, e, settleTime);
      TimedLater(wire + [e], at, at + answerTime, settleTime);
      wire, bank, clock := wire + [e], after, at + answerTime;
    }

    /** The bank a command leaves behind. */
    method BankAfter(cmd: Command) returns (after: set<nat>)
      requires forall n :: n in bank ==> n < width
      ensures forall n :: n in after ==> n < width
      ensures cmd.ReadAll? || cmd.Read? ==> after == bank
      ensures faithfulWrites ==> after == bank || after == Effect(cmd, bank)
    {
      var executed: bool := *;
      if cmd.ReadAll? || cmd.Read? || (faithfulWrites && (!executed || (cmd.On? && cmd.relay >= width))) {
        return bank;
      }
      if faithfulWrites {
        return Effect(cmd, bank);
      }
      var anything: set<nat> := *;
      return set n: nat | n in anything && n < width;
    }

    /** The text that answers a command: text that cannot be parsed, or the module's own for the bank as it is. */
    method AnswerTo(cmd: Command, after: set<nat>) returns (answer: string)
      requires width <= 32 && forall n :: n in after ==> n < width
      ensures Truthful(cmd, after, width, answer)
    {
      answer := *;
      if cmd.ReadAll? && Codec.ParseReadall(answer).Some? {
        answer := MaskText(after);
      } else if cmd.Read? && Codec.ParseRead(answer).Some? {
        answer := StateText(cmd.relay, after);
      }
    }

    /** An echo, the hexadecimal mask of the bank and blanks before the prompt. */
    method MaskText(after: set<nat>) returns (answer: string)
      requires width <= 32 && forall n :: n in after ==> n < width
      ensures Codec.ParseReadall(answer) == Some(Codec.MaskOf(after, width))
    {
      assert IsEcho("");
      var echo: string :| IsEcho(echo);
      var blanks: string :| AllBlank(blanks);
      var rest: string := *;
      assert IsEcho(echo) && AllBlank(blanks);
      Codec.MaskInRange(after, 0, width);
      Codec.ReadallRoundTrip(Codec.MaskOf(after, width), width, echo, blanks, ">" + rest);
      answer := echo + Codec.FormatHex(Codec.MaskOf(after, width), Codec.HexDigits(width)) + blanks + (">" + rest);
    }

    /** An echo that does not hold "on", the relay's word and blanks before the prompt. */
    method StateText(relay: nat, after: set<nat>) returns (answer: string)
      ensures Codec.ParseRead(answer) == Some(relay in after)
    {
      assert QuietEcho("");
      var echo: string :| QuietEcho(echo);
      var blanks: string :| AllBlank(blanks);
      var rest: string := *;
      assert QuietEcho(echo) && AllBlank(blanks);
      Codec.ReadReplyExact(echo, relay in after, blanks, ">" + rest);
      answer := echo + Codec.Word(relay in after) + blanks + (">" + rest);
    }

    /**
     `_send_and_capture`: one command and what came back for it. Text up to the prompt is the
     answer unless it says "invalid"; every other reply is its own failure.
     */
    method SendAndCapture(cmd: Command) returns (r: Outcome<string>)
      requires Valid()
      requires cmd.On? && faithfulWrites ==> bank <= {cmd.relay}
      modifies `bank, `clock, `wire
      ensures Valid() && clock >= old(clock)
      ensures !sockOpen ==> r == Err(CommFailure(false)) && wire == old(wire) && bank == old(bank)
      ensures sockOpen ==>
                && wire != [] && Last(wire).Sent? && old(clock) <= Last(wire).at <= clock
                && wire == old(wire) + [Sent(cmd, old(bank), bank, Last(wire).at, Last(wire).reply)]
                && (Accepted(Last(wire)) ==> r == Ok(Last(wire).reply.answer) && Truthful(cmd, bank, width, r.value))
                && (Last(wire).reply.Broken? ==> r == Err(RawSocketError))
                && (!Accepted(Last(wire)) && !Last(wire).reply.Broken? ==> r == Err(CommFailure(Last(wire).reply.Silent?)))
      ensures Commands(wire) == Commands(old(wire)) + if sockOpen then 1 else 0
      ensures BeforeEmergency(wire) == BeforeEmergency(old(wire))
      ensures Reconnects(wire) == Reconnects(old(wire)) && Emergencies(wire) == Emergencies(old(wire))
      ensures Issued(wire) == Issued(old(wire))
      ensures cmd.ReadAll? || cmd.Read? ==> bank == old(bank)
      ensures faithfulWrites ==> bank == old(bank) || bank == Effect(cmd, old(bank))
    {
      if !sockOpen {
        return Err(CommFailure(false));
      }
      var reply := Execute(cmd);
      match reply
      case Text(answer, _) =>
        r := if Codec.Contains(Codec.Lower(answer), "invalid") then Err(CommFailure(false)) else Ok(answer);
      case Cut => r := Err(CommFailure(false));
      case Silent => r := Err(CommFailure(true));
      case Broken => r := Err(RawSocketError);
    }

    /**
     `connect`: TCP, login, then one `relay readall` to check the command loop. It returns
     normally exactly if the login succeeded and that answer was accepted and parsed; an OSError
     during the login is raised as it is and leaves the socket in place.
     */
    method Connect() returns (r: Outcome<()>)
      requires Valid()
      modifies `bank, `clock, `wire, `sockOpen, `connected
      ensures Valid() && bank == old(bank) && r.Ok? == connected && clock >= old(clock)
      ensures old(wire) < wire && wire[|old(wire)|].Connecting?
      ensures var login := wire[|old(wire)|].login;
              && sockOpen == (login.LoggedIn? || login.Interrupted?)
              && (r == Err(RawSocketError) <==> login.Interrupted?)
              && |wire| == |old(wire)| + (if login.LoggedIn? then 2 else 1)
              && (login.LoggedIn? ==> Last(wire).Sent? && Last(wire).cmd == ReadAll)
              && (r.Ok? <==> login.LoggedIn? && Parsed(Last(wire)))
      ensures r.Err? ==> r.error == RawSocketError || r.error == CommFailure(false)
      ensures Commands(wire) <= Commands(old(wire)) + 1 && BeforeEmergency(wire) == BeforeEmergency(old(wire))
      ensures Reconnects(wire) == Reconnects(old(wire)) + 1 && Emergencies(wire) == Emergencies(old(wire))
      ensures Issued(wire) == Issued(old(wire))
    {
      sockOpen, connected := false, false;
      var login: Login := *;
      Note(Connecting(login));
      match login
      case NotReached => return Err(CommFailure(false));
      case Refused => return Err(CommFailure(false));
      case Interrupted =>
        sockOpen := true;
        return Err(RawSocketError);
      case LoggedIn =>
        sockOpen := true;
        connected := CheckLoop();
        return if connected then Ok(()) else Err(CommFailure(false));
    }

    /** The command that checks a new connection. */
    method CheckLoop() returns (ok: bool)
      requires Valid() && sockOpen
      modifies `bank, `clock, `wire
      ensures Valid() && bank == old(bank) && clock >= old(clock)
      ensures |wire| == |old(wire)| + 1 && old(wire) < wire && Last(wire).Sent? && Last(wire).cmd == ReadAll
      ensures ok <==> Parsed(Last(wire))
      ensures Commands(wire) == Commands(old(wire)) + 1 && BeforeEmergency(wire) == BeforeEmergency(old(wire))
      ensures Reconnects(wire) == Reconnects(old(wire)) && Emergencies(wire) == Emergencies(old(wire))
      ensures Issued(wire) == Issued(old(wire))
    {
      var response := SendAndCapture(ReadAll);
      ok := response.Ok? && Codec.ParseReadall(response.value).Some?;
    }

    method Disconnect()
      requires Valid()
      modifies `sockOpen, `connected
      ensures Valid() && !sockOpen && !connected
    {
      sockOpen, connected := false, false;
    }

    /**
     `_emergency_all_off`: one all-off and one readback, straight on the transport. It never
     raises and never starts another attempt; it succeeds exactly if both were accepted and the
     bank was read empty.
     */
    method EmergencyAllOff() returns (ok: bool)
      requires Valid()
      modifies `bank, `clock, `wire
      ensures Valid() && clock >= old(clock)
      ensures EndsInEmergency(wire) && Last(wire) == EmergencyEnd(ok) && BeforeEmergency(wire) == old(wire)
      ensures old(wire) + [EmergencyBegin] <= wire && |old(wire)| + 2 <= |wire| <= |old(wire)| + 4
      ensures |wire| == |old(wire)| + 2 <==> !sockOpen
      ensures sockOpen ==> wire[|old(wire)| + 1].Sent? && wire[|old(wire)| + 1].cmd == AllOff
      ensures |wire| == |old(wire)| + 4 <==> sockOpen && Accepted(wire[|old(wire)| + 1])
      ensures |wire| == |old(wire)| + 4 ==> wire[|wire| - 2].Sent? && wire[|wire| - 2].cmd == ReadAll
      ensures ok <==> |wire| == |old(wire)| + 4 && Accepted(wire[|wire| - 2]) && Codec.ParseReadall(wire[|wire| - 2].reply.answer) == Some(0)
      ensures ok ==> bank == {}
      ensures faithfulWrites ==> bank == old(bank) || bank == {}
      ensures Commands(wire) <= Commands(old(wire)) + 2
      ensures Reconnects(wire) == Reconnects(old(wire)) && Emergencies(wire) == Emergencies(old(wire)) + 1
      ensures Issued(wire) == Issued(old(wire))
    {
      Note(EmergencyBegin);
      ok := ForceOffOnce();
      Note(EmergencyEnd(ok));
    }

    /** The two commands of an emergency attempt. */
    method ForceOffOnce() returns (ok: bool)
      requires Valid()
      modifies `bank, `clock, `wire
      ensures Valid() && clock >= old(clock) && old(wire) <= wire && |wire| <= |old(wire)| + 2
      ensures wire == old(wire) <==> !sockOpen
      ensures sockOpen ==> wire[|old(wire)|].Sent? && wire[|old(wire)|].cmd == AllOff
      ensures |wire| == |old(wire)| + 2 <==> sockOpen && Accepted(wire[|old(wire)|])
      ensures |wire| == |old(wire)| + 2 ==> Last(wire).Sent? && Last(wire).cmd == ReadAll
      ensures ok <==> |wire| == |old(wire)| + 2 && Accepted(Last(wire)) && Codec.ParseReadall(Last(wire).reply.answer) == Some(0)
      ensures ok ==> bank == {}
      ensures faithfulWrites ==> bank == old(bank) || bank == {}
      ensures Commands(wire) <= Commands(old(wire)) + 2 && BeforeEmergency(wire) == BeforeEmergency(old(wire))
      ensures Reconnects(wire) == Reconnects(old(wire)) && Emergencies(wire) == Emergencies(old(wire))
      ensures Issued(wire) == Issued(old(wire))
    {
      var off := SendAndCapture(AllOff);
      if off.Err? {
        return false;
      }
      ghost var commanded := wire;
      var response := SendAndCapture(ReadAll);
      assert old(wire) <= commanded <= wire;
      if response.Err? {
        return false;
      }
      Codec.EmptyBankMask(bank, width);
      ok := Codec.ParseReadall(response.value) == Some(0);
    }

    /** The handler of a failed command: one reconnect, one retry, and an emergency attempt if either fails. */
    method ReconnectAndRetry(cmd: Command) returns (r: Outcome<string>)
      requires Valid()
      requires cmd.On? && faithfulWrites ==> bank <= {cmd.relay}
      modifies `bank, `clock, `wire, `sockOpen, `connected
      ensures Valid() && clock >= old(clock)
      ensures old(wire) < wire && wire[|old(wire)|].Connecting?
      ensures CameBack(r, wire, cmd)
      ensures r.Ok? ==> Truthful(cmd, bank, width, r.value)
      ensures EndsInEmergency(wire) && Last(wire).ok ==> bank == {}
      ensures Emergencies(wire) == Emergencies(old(wire)) + if CommFailed(r) then 1 else 0
      ensures Commands(wire) <= Commands(old(wire)) + if CommFailed(r) then 4 else 2
      ensures Reconnects(wire) == Reconnects(old(wire)) + 1
      ensures Issued(wire) == Issued(old(wire))
      ensures r.Ok? ==> sockOpen && Last(wire).after == bank
      ensures (cmd.ReadAll? || cmd.Read?) && !CommFailed(r) ==> bank == old(bank)
      ensures faithfulWrites && !cmd.On? ==> bank <= old(bank)
      ensures faithfulWrites && cmd.On? ==> bank <= {cmd.relay}
    {
      var reconnected := Connect();
      if reconnected.Err? {
        ghost var failed := wire;
        var _ := EmergencyAllOff();
        assert wire[|old(wire)|] == failed[|old(wire)|];
        return Err(CommFailure(false));
      }
      ghost var again := wire;
      r := RetryOnce(cmd);
      assert wire[|old(wire)|] == again[|old(wire)|];
    }

    /** The retry on a new connection. */
    method RetryOnce(cmd: Command) returns (r: Outcome<string>)
      requires Valid() && sockOpen
      requires |wire| > 1 && wire[|wire| - 2] == Connecting(LoggedIn) && Parsed(Last(wire)) && Last(wire).cmd == ReadAll
      requires cmd.On? && faithfulWrites ==> bank <= {cmd.relay}
      modifies `bank, `clock, `wire
      ensures Valid() && clock >= old(clock) && old(wire) <= wire
      ensures CameBack(r, wire, cmd)
      ensures r.Ok? ==> Truthful(cmd, bank, width, r.value)
      ensures EndsInEmergency(wire) && Last(wire).ok ==> bank == {}
      ensures Emergencies(wire) == Emergencies(old(wire)) + if CommFailed(r) then 1 else 0
      ensures Commands(wire) <= Commands(old(wire)) + if CommFailed(r) then 3 else 1
      ensures Reconnects(wire) == Reconnects(old(wire)) && Issued(wire) == Issued(old(wire))
      ensures r.Ok? ==> Last(wire).after == bank
      ensures (cmd.ReadAll? || cmd.Read?) && !CommFailed(r) ==> bank == old(bank)
      ensures faithfulWrites && !cmd.On? ==> bank <= old(bank)
      ensures faithfulWrites && cmd.On? ==> bank <= {cmd.relay}
    {
      r := SendAndCapture(cmd);
      if CommFailed(r) {
        ghost var sent := wire;
        assert sent[..|old(wire)|] == old(wire);
        var _ := EmergencyAllOff();
      }
    }

    /**
     `_call_with_reconnect`: one retry after one reconnect. The command comes back with the
     first answer if that is accepted, and a socket error is raised as it is, both without a
     reconnect; every other first reply, and a missing socket, costs exactly one. A communication
     failure is raised exactly when an emergency attempt was made first, because there was no new
     connection or because the retry on it failed as well.
     */
    method CallWithReconnect(cmd: Command) returns (r: Outcome<string>)
      requires Valid()
      requires cmd.On? && faithfulWrites ==> bank <= {cmd.relay}
      modifies `bank, `clock, `wire, `sockOpen, `connected
      ensures Valid() && clock >= old(clock)
      ensures old(wire) + [Issue(cmd)] <= wire
      ensures old(sockOpen) ==> |wire| > |old(wire)| + 1 && wire[|old(wire)| + 1].Sent? && wire[|old(wire)| + 1].cmd == cmd
      ensures Reconnects(wire) == Reconnects(old(wire))
              + if old(sockOpen) && (Accepted(wire[|old(wire)| + 1]) || wire[|old(wire)| + 1].reply.Broken?) then 0 else 1
      ensures CameBack(r, wire, cmd)
      ensures r.Ok? ==> Truthful(cmd, bank, width, r.value)
      ensures EndsInEmergency(wire) && Last(wire).ok ==> bank == {}
      ensures Emergencies(wire) == Emergencies(old(wire)) + if CommFailed(r) then 1 else 0
      ensures Commands(wire) <= Commands(old(wire)) + if CommFailed(r) then 5 else 3
      ensures Issued(wire) == Issued(old(wire)) + [cmd]
      ensures r.Ok? ==> sockOpen && Last(wire).after == bank
      ensures (cmd.ReadAll? || cmd.Read?) && !CommFailed(r) ==> bank == old(bank)
      ensures faithfulWrites && !cmd.On? ==> bank <= old(bank)
      ensures faithfulWrites && cmd.On? ==> bank <= {cmd.relay}
    {
      r := FirstTry(cmd);
      if CommFailed(r) {
        ghost var tried := wire;
        r := ReconnectAndRetry(cmd);
        assert tried <= wire;
      }
    }

    /** The command is issued and goes out once, if there is a socket. */
    method FirstTry(cmd: Command) returns (r: Outcome<string>)
      requires Valid()
      requires cmd.On? && faithfulWrites ==> bank <= {cmd.relay}
      modifies `bank, `clock, `wire
      ensures Valid() && clock >= old(clock)
      ensures !sockOpen ==> r == Err(CommFailure(false)) && wire == old(wire) + [Issue(cmd)] && bank == old(bank)
      ensures sockOpen ==>
                && |wire| == |old(wire)| + 2 && old(wire) + [Issue(cmd)] < wire && Last(wire).Sent? && Last(wire).cmd == cmd
                && Last(wire).after == bank
                && (Accepted(Last(wire)) ==> r == Ok(Last(wire).reply.answer) && Truthful(cmd, bank, width, r.value))
                && (Last(wire).reply.Broken? ==> r == Err(RawSocketError))
                && (!Accepted(Last(wire)) && !Last(wire).reply.Broken? ==> CommFailed(r))
      ensures Commands(wire) <= Commands(old(wire)) + 1
      ensures Reconnects(wire) == Reconnects(old(wire)) && Emergencies(wire) == Emergencies(old(wire))
      ensures Issued(wire) == Issued(old(wire)) + [cmd]
      ensures cmd.ReadAll? || cmd.Read? ==> bank == old(bank)
      ensures faithfulWrites ==> bank == old(bank) || bank == Effect(cmd, old(bank))
    {
      Note(Issue(cmd));
      ghost var issued := wire;
      r := SendAndCapture(cmd);
      assert issued <= wire;
    }

    // ---------------------------------------------------- native primitives

    /** `read_all`: a normal return is the mask that was answered, which is the true one; it alone is recorded. */
    method ReadMask() returns (r: Outcome<nat>)
      requires Valid()
      modifies `bank, `clock, `wire, `sockOpen, `connected, `lastKnownMask
      ensures Valid() && clock >= old(clock)
      ensures Explained(r, wire) && (r.Ok? <==> Parsed(Last(wire)))
      ensures r == Err(Unparseable) ==> Last(wire).cmd == ReadAll
      ensures r.Ok? ==> Last(wire).cmd == ReadAll && Some(r.value) == Codec.ParseReadall(Last(wire).reply.answer)
      ensures r.Ok? ==> r.value == Codec.MaskOf(bank, width) && bank == old(bank)
      ensures lastKnownMask == if r.Ok? then Some(r.value) else old(lastKnownMask)
      ensures r.Err? ==> r.error.CommFailure? || r.error == RawSocketError || r.error == Unparseable
      ensures EndsInEmergency(wire) <==> CommFailed(r)
      ensures EndsInEmergency(wire) && Last(wire).ok ==> bank == {}
      ensures Emergencies(wire) == Emergencies(old(wire)) + if CommFailed(r) then 1 else 0
      ensures Commands(wire) <= Commands(old(wire)) + if CommFailed(r) then 5 else 3
      ensures Reconnects(wire) <= Reconnects(old(wire)) + 1
      ensures Issued(wire) == Issued(old(wire)) + [ReadAll]
      ensures faithfulWrites ==> bank <= old(bank)
    {
      var response := CallWithReconnect(ReadAll);
      if response.Err? {
        return Err(response.error);
      }
      var mask := Codec.ParseReadall(response.value);
      if mask.None? {
        return Err(Unparseable);
      }
      lastKnownMask := mask;
      return Ok(mask.value);
    }

    /** `read_relay`: a normal return is the state that was answered, which is the relay's true one. */
    method ReadRelay(relay: nat) returns (r: Outcome<bool>)
      requires Valid()
      modifies `bank, `clock, `wire, `sockOpen, `connected
      ensures Valid() && clock >= old(clock)
      ensures Explained(r, wire) && (r.Ok? <==> Parsed(Last(wire)))
      ensures r == Err(Unparseable) ==> Last(wire).cmd == Read(relay)
      ensures r.Ok? ==> Last(wire).cmd == Read(relay) && Some(r.value) == Codec.ParseRead(Last(wire).reply.answer)
      ensures r.Ok? ==> r.value == (relay in bank) && bank == old(bank)
      ensures r.Err? ==> r.error.CommFailure? || r.error == RawSocketError || r.error == Unparseable
      ensures EndsInEmergency(wire) <==> CommFailed(r)
      ensures EndsInEmergency(wire) && Last(wire).ok ==> bank == {}
      ensures Emergencies(wire) == Emergencies(old(wire)) + if CommFailed(r) then 1 else 0
      ensures Commands(wire) <= Commands(old(wire)) + if CommFailed(r) then 5 else 3
      ensures Reconnects(wire) <= Reconnects(old(wire)) + 1
      ensures Issued(wire) == Issued(old(wire)) + [Read(relay)]
      ensures faithfulWrites ==> bank <= old(bank)
    {
      var response := CallWithReconnect(Read(relay));
      if response.Err? {
        return Err(response.error);
      }
      var state := Codec.ParseRead(response.value);
      if state.None? {
        return Err(Unparseable);
      }
      return Ok(state.value);
    }

    /**
     `verify_all`: returns exactly if the last answer was accepted and holds the expected mask,
     which is then the bank's. An accepted answer with another mask is a mismatch, raised after
     exactly one emergency attempt; one without a mask is `Unparseable` and starts none.
     */
    method VerifyAll(expected: nat) returns (r: Outcome<()>)
      requires Valid()
      modifies `bank, `clock, `wire, `sockOpen, `connected, `lastKnownMask
      ensures Valid() && clock >= old(clock)
      ensures wire != []
      ensures r.Ok? <==> Accepted(Last(wire)) && Last(wire).cmd == ReadAll && Codec.ParseReadall(Last(wire).reply.answer) == Some(expected)
      ensures r == Err(Unparseable) <==>
                Accepted(Last(wire)) && Last(wire).cmd == ReadAll && Codec.ParseReadall(Last(wire).reply.answer) == None
      ensures r == Err(RawSocketError) <==> Last(wire).Sent? && Last(wire).reply.Broken?
      ensures r.Err? && r.error.Mismatch? ==> MaskContradicts(BeforeEmergency(wire), expected)
      ensures FailsSafe(r, wire, bank)
      ensures r.Ok? ==> Codec.MaskOf(bank, width) == expected && bank == old(bank) && lastKnownMask == Some(expected)
      ensures r.Err? ==> FailedReadback(r.error)
      ensures r.Err? && r.error.Mismatch? ==>
                Codec.MaskOf(old(bank), width) != expected && lastKnownMask == Some(Codec.MaskOf(old(bank), width))
      ensures r.Err? && !r.error.Mismatch? ==> lastKnownMask == old(lastKnownMask)
      ensures Emergencies(wire) == Emergencies(old(wire)) + if EndsInEmergency(wire) then 1 else 0
      ensures Commands(wire) <= Commands(old(wire)) + if EndsInEmergency(wire) then 5 else 3
      ensures Reconnects(wire) <= Reconnects(old(wire)) + 1
      ensures Issued(wire) == Issued(old(wire)) + [ReadAll]
      ensures faithfulWrites ==> bank <= old(bank)
    {
      var mask := ReadMask();
      if mask.Err? {
        return Err(mask.error);
      }
      if mask.value != expected {
        var shutdownOk := EmergencyAllOff();
        return Err(Mismatch(shutdownOk));
      }
      return Ok(());
    }

    /** `verify_single`: as `VerifyAll`, for one relay. */
    method VerifySingle(relay: nat, expected: bool) returns (r: Outcome<()>)
      requires Valid()
      modifies `bank, `clock, `wire, `sockOpen, `connected
      ensures Valid() && clock >= old(clock)
      ensures wire != []
      ensures r.Ok? <==> Accepted(Last(wire)) && Last(wire).cmd == Read(relay) && Codec.ParseRead(Last(wire).reply.answer) == Some(expected)
      ensures r == Err(Unparseable) <==>
                Accepted(Last(wire)) && Last(wire).cmd == Read(relay) && Codec.ParseRead(Last(wire).reply.answer) == None
      ensures r == Err(RawSocketError) <==> Last(wire).Sent? && Last(wire).reply.Broken?
      ensures r.Err? && r.error.Mismatch? ==> StateContradicts(BeforeEmergency(wire), relay, expected)
      ensures FailsSafe(r, wire, bank)
      ensures r.Ok? ==> (relay in bank) == expected && bank == old(bank)
      ensures r.Err? ==> FailedReadback(r.error)
      ensures r.Err? && r.error.Mismatch? ==> (relay in old(bank)) != expected
      ensures Emergencies(wire) == Emergencies(old(wire)) + if EndsInEmergency(wire) then 1 else 0
      ensures Commands(wire) <= Commands(old(wire)) + if EndsInEmergency(wire) then 5 else 3
      ensures Reconnects(wire) <= Reconnects(old(wire)) + 1
      ensures Issued(wire) == Issued(old(wire)) + [Read(relay)]
      ensures faithfulWrites ==> bank <= old(bank)
    {
      var actual := ReadRelay(relay);
      if actual.Err? {
        return Err(actual.error);
      }
      if actual.value != expected {
        var shutdownOk := EmergencyAllOff();
        return Err(Mismatch(shutdownOk));
      }
      return Ok(());
    }

    // ------------------------------------------------------ safety sequence

    /** `check_current_relay_state`: a diagnostic read that never raises. */
    method CheckCurrentRelayState() returns (mask: Option<nat>)
      requires Valid()
      modifies `bank, `clock, `wire, `sockOpen, `connected, `lastKnownMask
      ensures Valid() && clock >= old(clock) && lastKnownMask == mask
      ensures wire != [] && (mask.Some? <==> Parsed(Last(wire)))
      ensures mask.Some? ==> Last(wire).cmd == ReadAll && mask == Codec.ParseReadall(Last(wire).reply.answer)
      ensures mask.Some? ==> mask.value == Codec.MaskOf(bank, width) && bank == old(bank)
      ensures Emergencies(wire) <= Emergencies(old(wire)) + 1
      ensures Commands(wire) <= Commands(old(wire)) + 5
      ensures Reconnects(wire) <= Reconnects(old(wire)) + 1
      ensures Issued(wire) == Issued(old(wire)) + [ReadAll]
      ensures faithfulWrites ==> bank <= old(bank)
    {
      var read := ReadMask();
      if read.Err? {
        lastKnownMask := None;
        return None;
      }
      return Some(read.value);
    }

    /** `_force_all_off_and_verify`: a normal return means the bank was read empty. */
    method ForceAllOffAndVerify() returns (r: Outcome<()>)
      requires Valid()
      modifies `bank, `clock, `wire, `sockOpen, `connected, `lastKnownMask
      ensures Valid() && clock >= old(clock)
      ensures r.Ok? ==> bank == {} && lastKnownMask == Some(0)
      ensures r.Ok? ==> wire != [] && Last(wire).Sent? && Last(wire).cmd == ReadAll
      ensures r.Ok? ==> Issued(wire) == Issued(old(wire)) + ForceOffPlan()
      ensures r.Ok? ==> Commands(wire) <= Commands(old(wire)) + 11
      ensures r.Err? ==> FailedReadback(r.error)
      ensures r.Err? ==> Followed(Issued(old(wire)), Issued(wire), ForceOffPlan(), 2)
      ensures r.Err? ==> Commands(wire) <= Commands(old(wire)) + 13
      ensures FailsSafe(r, wire, bank)
      ensures r.Err? && r.error.Mismatch? ==>
                Issued(wire) == Issued(old(wire)) + ForceOffPlan() && MaskContradicts(BeforeEmergency(wire), 0)
      ensures Emergencies(wire) <= Emergencies(old(wire)) + 1 + if r.Err? && Handled(r.error) then 1 else 0
      ensures Reconnects(wire) <= Reconnects(old(wire)) + 3
      ensures faithfulWrites ==> bank <= old(bank)
    {
      var _ := CheckCurrentRelayState();
      var written := CallWithReconnect(AllOff);
      if written.Err? {
        return Err(written.error);
      }
      r := VerifyAll(0);
      if r.Ok? {
        Codec.EmptyBankMask(bank, width);
      }
    }

    /** `settle`: blocks for the settling time, which must be positive. */
    method Settle() returns (r: Outcome<()>)
      requires Valid()
      modifies `clock, `wire, `settled
      ensures Valid() && settled == old(settled) + if r.Ok? then 1 else 0
      ensures settleTime <= 0.0 ==> r == Err(InvalidSettleTime) && clock == old(clock) && wire == old(wire)
      ensures settleTime > 0.0 ==> r == Ok(()) && clock >= old(clock) + settleTime && wire == old(wire) + [Settled(clock)]
      ensures Commands(wire) == Commands(old(wire)) && Reconnects(wire) == Reconnects(old(wire))
      ensures Emergencies(wire) == Emergencies(old(wire)) && Issued(wire) == Issued(old(wire))
    {
      if settleTime <= 0.0 {
        return Err(InvalidSettleTime);
      }
      var late :| late >= 0.0;
      SettledReturn(initialBank, wire, bank, clock, clock + settleTime + late, settleTime);
      clock := clock + settleTime + late;
      wire, settled := wire + [Settled(clock)], settled + 1;
      return Ok(());
    }

    /** Steps 3 to 5 of `_close_impl`, from a bank in which every other relay is off. */
    method ActivateAndVerify(relay: nat) returns (r: Outcome<()>)
      requires Valid()
      requires faithfulWrites ==> bank <= {relay}
      modifies `bank, `clock, `wire, `sockOpen, `connected, `lastKnownMask
      ensures Valid() && clock >= old(clock)
      ensures r.Ok? ==> bank == {relay} && lastKnownMask == Some(Codec.Pow2(relay))
      ensures r.Ok? ==> Issued(wire) == Issued(old(wire)) + ActivatePlan(relay)
      ensures r.Ok? ==> Commands(wire) <= Commands(old(wire)) + 9
      ensures r.Err? ==>
                && FailedReadback(r.error) && FailsSafe(r, wire, bank)
                && Followed(Issued(old(wire)), Issued(wire), ActivatePlan(relay), 1)
      ensures r.Err? && r.error.Mismatch? ==>
                || (Issued(wire) == Issued(old(wire)) + [On(relay), Read(relay)] && StateContradicts(BeforeEmergency(wire), relay, true))
                || (Issued(wire) == Issued(old(wire)) + ActivatePlan(relay) && MaskContradicts(BeforeEmergency(wire), Codec.Pow2(relay)))
      ensures Commands(wire) <= Commands(old(wire)) + 11
      ensures Reconnects(wire) <= Reconnects(old(wire)) + 3
      ensures Emergencies(wire) <= Emergencies(old(wire)) + if r.Ok? then 0 else 1
    {
      var written := CallWithReconnect(On(relay));
      if written.Err? {
        return Err(written.error);
      }
      r := VerifySingle(relay, true);
      if r.Err? {
        return;
      }
      r := VerifyAll(Codec.Pow2(relay));
      if r.Ok? {
        Codec.SingleRelayMask(bank, relay, width);
      }
    }

    /** `_close_impl`. */
    method CloseImpl(channel: int) returns (r: Outcome<()>)
      requires Valid()
      modifies `bank, `clock, `wire, `sockOpen, `connected, `lastKnownMask
      ensures Valid() && clock >= old(clock)
      ensures !(1 <= channel <= numChannels) <==> r == Err(InvalidChannel)
      ensures r == Err(InvalidChannel) ==> wire == old(wire) && bank == old(bank)
      ensures r.Ok? ==> bank == {channel - 1} && lastKnownMask == Some(Codec.Pow2(channel - 1))
      ensures r.Ok? ==> Issued(wire) == Issued(old(wire)) + ClosePlan(channel - 1)
      ensures r.Ok? ==> Commands(wire) <= Commands(old(wire)) + 20
      ensures r.Err? && r.error != InvalidChannel ==>
                && FailedReadback(r.error) && FailsSafe(r, wire, bank)
                && Followed(Issued(old(wire)), Issued(wire), ClosePlan(channel - 1), 2)
      ensures r.Err? && r.error.Mismatch? ==> CloseContradicted(Issued(old(wire)), wire, channel - 1)
      ensures Commands(wire) <= Commands(old(wire)) + 22
      ensures Reconnects(wire) <= Reconnects(old(wire)) + 6
      ensures Emergencies(wire) <= Emergencies(old(wire)) + 2
    {
      if !(1 <= channel <= numChannels) {
        return Err(InvalidChannel);
      }
      r := ForceAllOffAndVerify();
      if r.Ok? {
        ghost var forcedOff := Issued(wire);
        r := ActivateAndVerify(channel - 1);
        if r.Err? {
          FollowedOn(Issued(old(wire)), forcedOff, Issued(wire), ForceOffPlan(), ActivatePlan(channel - 1), 1);
        }
      }
    }

    /** `_open_impl`. */
    method OpenImpl(channel: int) returns (r: Outcome<()>)
      requires Valid()
      modifies `bank, `clock, `wire, `sockOpen, `connected, `lastKnownMask
      ensures Valid() && clock >= old(clock)
      ensures !(1 <= channel <= numChannels) <==> r == Err(InvalidChannel)
      ensures r == Err(InvalidChannel) ==> wire == old(wire) && bank == old(bank)
      ensures r.Ok? ==> bank == {} && lastKnownMask == Some(0) && Issued(wire) == Issued(old(wire)) + ForceOffPlan()
      ensures r.Err? && r.error != InvalidChannel ==>
                && FailedReadback(r.error) && FailsSafe(r, wire, bank)
                && Followed(Issued(old(wire)), Issued(wire), ForceOffPlan(), 2)
      ensures r.Err? && r.error.Mismatch? ==>
                Issued(wire) == Issued(old(wire)) + ForceOffPlan() && MaskContradicts(BeforeEmergency(wire), 0)
      ensures Commands(wire) <= Commands(old(wire)) + 13
      ensures Reconnects(wire) <= Reconnects(old(wire)) + 3
      ensures Emergencies(wire) <= Emergencies(old(wire)) + 2
      ensures faithfulWrites ==> bank <= old(bank)
    {
      if !(1 <= channel <= numChannels) {
        return Err(InvalidChannel);
      }
      r := ForceAllOffAndVerify();
    }

    // ------------------------------------------------------------ public API

    /**
     `close(channel)`: a normal return means exactly this relay is energised, all six steps
     ran in order and the settling time has passed. Every mismatch and every communication
     failure that survives its retry is raised only after an emergency attempt, and one call
     costs at most 22 commands, 6 reconnects and 2 emergency attempts.
     */
    method Close(channel: int) returns (r: Outcome<()>)
      requires Valid()
      modifies `bank, `clock, `wire, `sockOpen, `connected, `lastKnownMask, `settled, `returned
      ensures Valid()
      ensures returned == old(returned) + [if r.Ok? then None else Some(r.error)]
      ensures settled == old(settled) + if r.Ok? then 1 else 0
      ensures r.Ok? ==> 1 <= channel <= numChannels && settleTime > 0.0
      ensures r == Err(InvalidSettleTime) ==> settleTime <= 0.0
      ensures r.Ok? || r == Err(InvalidSettleTime) ==>
                && bank == {channel - 1} && lastKnownMask == Some(Codec.Pow2(channel - 1))
                && Issued(wire) == Issued(old(wire)) + ClosePlan(channel - 1)
      ensures r.Ok? ==> wire != [] && Last(wire) == Settled(clock)
      ensures !(1 <= channel <= numChannels) <==> r == Err(InvalidChannel)
      ensures r == Err(InvalidChannel) ==> wire == old(wire) && bank == old(bank)
      ensures r.Err? && r.error != InvalidChannel && r.error != InvalidSettleTime ==>
                FailedReadback(r.error) && FailsSafe(r, wire, bank)
      ensures r.Err? && r.error.Mismatch? ==> CloseContradicted(Issued(old(wire)), wire, channel - 1)
      ensures r != Err(InvalidChannel) ==> Followed(Issued(old(wire)), Issued(wire), ClosePlan(channel - 1), 2)
      ensures Commands(wire) <= Commands(old(wire)) + 22
      ensures Reconnects(wire) <= Reconnects(old(wire)) + 6
      ensures Emergencies(wire) <= Emergencies(old(wire)) + 2
    {
      r := CloseImpl(channel);
      if r.Ok? {
        r := Settle();
      }
      returned := returned + [if r.Ok? then None else Some(r.error)];
    }

    /** `open(channel)`: a normal return means the bank is empty and the settling time has passed. */
    method Open(channel: int) returns (r: Outcome<()>)
      requires Valid()
      modifies `bank, `clock, `wire, `sockOpen, `connected, `lastKnownMask, `settled, `returned
      ensures Valid()
      ensures returned == old(returned) + [if r.Ok? then None else Some(r.error)]
      ensures settled == old(settled) + if r.Ok? then 1 else 0
      ensures r.Ok? ==> 1 <= channel <= numChannels && settleTime > 0.0
      ensures r == Err(InvalidSettleTime) ==> settleTime <= 0.0
      ensures r.Ok? || r == Err(InvalidSettleTime) ==>
                bank == {} && lastKnownMask == Some(0) && Issued(wire) == Issued(old(wire)) + ForceOffPlan()
      ensures r.Ok? ==> wire != [] && Last(wire) == Settled(clock)
      ensures !(1 <= channel <= numChannels) <==> r == Err(InvalidChannel)
      ensures r == Err(InvalidChannel) ==> wire == old(wire) && bank == old(bank)
      ensures r.Err? && r.error != InvalidChannel && r.error != InvalidSettleTime ==>
                FailedReadback(r.error) && FailsSafe(r, wire, bank)
      ensures r.Err? && r.error.Mismatch? ==>
                Issued(wire) == Issued(old(wire)) + ForceOffPlan() && MaskContradicts(BeforeEmergency(wire), 0)
      ensures r != Err(InvalidChannel) ==> Followed(Issued(old(wire)), Issued(wire), ForceOffPlan(), 2)
      ensures Commands(wire) <= Commands(old(wire)) + 13
      ensures Reconnects(wire) <= Reconnects(old(wire)) + 3
      ensures Emergencies(wire) <= Emergencies(old(wire)) + 2
      ensures faithfulWrites ==> bank <= old(bank)
    {
      r := OpenImpl(channel);
      if r.Ok? {
        r := Settle();
      }
      returned := returned + [if r.Ok? then None else Some(r.error)];
    }

    /** `open_all()`: a normal return means the bank is empty; this one does not settle. */
    method OpenAll() returns (r: Outcome<()>)
      requires Valid()
      modifies `bank, `clock, `wire, `sockOpen, `connected, `lastKnownMask
      ensures Valid()
      ensures r.Ok? ==> bank == {} && lastKnownMask == Some(0) && Issued(wire) == Issued(old(wire)) + ForceOffPlan()
      ensures r.Ok? ==> wire != [] && Last(wire).Sent? && Last(wire).cmd == ReadAll
      ensures r.Err? ==> FailedReadback(r.error) && Followed(Issued(old(wire)), Issued(wire), ForceOffPlan(), 2)
      ensures FailsSafe(r, wire, bank)
      ensures r.Err? && r.error.Mismatch? ==>
                Issued(wire) == Issued(old(wire)) + ForceOffPlan() && MaskContradicts(BeforeEmergency(wire), 0)
      ensures Commands(wire) <= Commands(old(wire)) + 13
      ensures Reconnects(wire) <= Reconnects(old(wire)) + 3
      ensures Emergencies(wire) <= Emergencies(old(wire)) + 2
      ensures faithfulWrites ==> bank <= old(bank)
    {
      r := ForceAllOffAndVerify();
    }

    /** `close_all()` is refused outright. */
    method CloseAll() returns (r: Outcome<()>)
      ensures r == Err(NotPermitted)
    {
      return Err(NotPermitted);
    }

    /** `query(channel)`. */
    method Query(channel: int) returns (r: Outcome<bool>)
      requires Valid()
      modifies `bank, `clock, `wire, `sockOpen, `connected
      ensures Valid()
      ensures !(1 <= channel <= numChannels) <==> r == Err(InvalidChannel)
      ensures r == Err(InvalidChannel) ==> wire == old(wire) && bank == old(bank)
      ensures r != Err(InvalidChannel) ==> Explained(r, wire) && (r.Ok? <==> Parsed(Last(wire)))
      ensures r.Ok? ==> Last(wire).cmd == Read(channel - 1) && Some(r.value) == Codec.ParseRead(Last(wire).reply.answer)
      ensures r.Ok? ==> r.value == (channel - 1 in bank) && bank == old(bank)
      ensures EndsInEmergency(wire) && Last(wire).ok && r != Err(InvalidChannel) ==> bank == {}
      ensures faithfulWrites ==> bank <= old(bank)
    {
      if !(1 <= channel <= numChannels) {
        return Err(InvalidChannel);
      }
      r := ReadRelay(channel - 1);
    }

    /**
     Any sequence of public calls, whatever each of them meets and however each ends: the
     interlock and the dead time hold over the whole history, and at no point are more
     relays energised than max(initial count, 1).
     */
    method Session(calls: seq<Call>)
      requires Valid()
      modifies this
      ensures Valid() && old(returned) <= returned
      ensures faithfulWrites ==> |bank| <= Max(|initialBank|, 1)
      ensures faithfulWrites ==>
                forall i :: 0 <= i < |wire| && wire[i].Sent? ==>
                              && |wire[i].after| <= Max(|initialBank|, 1)
                              && (wire[i].cmd.On? ==> wire[i].before <= {wire[i].cmd.relay})
      ensures settleTime >= 0.0 ==>
                forall i, j, k :: 0 <= i < j < k < |wire| && wire[i].Sent? && wire[j].Settled? && wire[k].Sent? ==>
                                    wire[i].at + settleTime <= wire[k].at
    {
      for c := 0 to |calls|
        invariant Valid() && old(returned) <= returned
      {
        match calls[c]
        case OpenCall(ch) => var _ := Open(ch);
        case CloseCall(ch) => var _ := Close(ch);
        case OpenAllCall => var _ := OpenAll();
        case CloseAllCall => var _ := CloseAll();
        case QueryCall(ch) => var _ := Query(ch);
        case ConnectCall => var _ := Connect();
        case DisconnectCall => Disconnect();
      }
      if faithfulWrites { InterlockOverRun(initialBank, wire, bank); }
      forall i, j, k | settleTime >= 0.0 && 0 <= i < j < k < |wire| && wire[i].Sent? && wire[j].Settled? && wire[k].Sent?
        ensures wire[i].at + settleTime <= wire[k].at
      {
        DeadTimeOverRun(wire, clock, settleTime, i, j, k);
      }
    }
  }

  /** An echo that does not hold the word "on", as that of `relay read <n>` never does. */
  predicate QuietEcho(s: string) {
    IsEcho(s) && !Codec.Contains(Codec.Lower(s), "on")
  }

  /** Text before an answer: free of prompts and not running into the hexadecimal digits. */
  predicate IsEcho(s: string) {
    (s == "" || !Codec.IsHex(s[|s| - 1])) && forall i :: 0 <= i < |s| ==> s[i] != '>' && s[i] != '&'
  }

  predicate AllBlank(s: string) {
    forall i :: 0 <= i < |s| ==> Codec.IsSpace(s[i])
  }

  /** The failures a verified sequence can raise. */
  predicate FailedReadback(f: Failure) {
    f.CommFailure? || f == RawSocketError || f == Unparseable || f.Mismatch?
  }

  predicate CommFailed<T>(r: Outcome<T>) {
    r.Err? && r.error.CommFailure?
  }

  /** What the last event of the history, or the one that caused its emergency attempt, makes of a command. */
  ghost predicate CameBack(r: Outcome<string>, wire: seq<Event>, cmd: Command) {
    && wire != []
    && (r.Ok? <==> Accepted(Last(wire)))
    && (r.Ok? ==> Last(wire).cmd == cmd && r.value == Last(wire).reply.answer)
    && (r == Err(RawSocketError) <==> Last(wire).Sent? && Last(wire).reply.Broken?)
    && (EndsInEmergency(wire) <==> CommFailed(r))
    && (r.Err? ==> r.error == RawSocketError || r.error.CommFailure?)
    && (CommFailed(r) ==> GivenUp(BeforeEmergency(wire), r.error.timedOut))
    && (CommFailed(r) && !NoConnection(BeforeEmergency(wire)) ==> Last(BeforeEmergency(wire)).cmd == cmd)
  }

  /** The failures that are preceded by an emergency attempt. */
  predicate Handled(f: Failure) {
    f.CommFailure? || f.Mismatch?
  }

  /**
   Why it came back as it did: a socket error and an unparseable answer are raised exactly if
   they are the last thing on the wire, a mismatch exactly if the emergency attempt that ends the
   history was caused by an answer that could be read, and a communication failure only if
   communication was given up.
   */
  ghost predicate Explained<T>(r: Outcome<T>, wire: seq<Event>) {
    && wire != []
    && (r.Err? && r.error == RawSocketError <==> Last(wire).Sent? && Last(wire).reply.Broken?)
    && (r.Err? && r.error == Unparseable <==> Unparsed(Last(wire)))
    && (r.Err? && r.error.Mismatch? <==>
          EndsInEmergency(wire) && BeforeEmergency(wire) != [] && Parsed(Last(BeforeEmergency(wire))))
    && (CommFailed(r) ==> EndsInEmergency(wire) && GivenUp(BeforeEmergency(wire), r.error.timedOut))
  }

  /** The history ends in an accepted answer with a mask, and it is another one. */
  ghost predicate MaskContradicts(t: seq<Event>, expected: nat) {
    && t != [] && Accepted(Last(t)) && Last(t).cmd == ReadAll
    && Codec.ParseReadall(Last(t).reply.answer) != None && Codec.ParseReadall(Last(t).reply.answer) != Some(expected)
  }

  /** The history ends in an accepted answer with the relay's state, and it is the other one. */
  ghost predicate StateContradicts(t: seq<Event>, relay: nat, expected: bool) {
    && t != [] && Accepted(Last(t)) && Last(t).cmd == Read(relay)
    && Codec.ParseRead(Last(t).reply.answer) == Some(!expected)
  }

  /** The readback that stopped `close`: after the force-off, of the one relay, or of the whole bank. */
  ghost predicate CloseContradicted(before: seq<Command>, wire: seq<Event>, relay: nat) {
    var t := BeforeEmergency(wire);
    || (Issued(wire) == before + ForceOffPlan() && MaskContradicts(t, 0))
    || (Issued(wire) == before + ForceOffPlan() + [On(relay), Read(relay)] && StateContradicts(t, relay, true))
    || (Issued(wire) == before + ClosePlan(relay) && MaskContradicts(t, Codec.Pow2(relay)))
  }

  /**
   Fail-safe exit: an error is raised right after an emergency attempt exactly when it is a
   mismatch or a communication failure; an attempt reported as succeeded left the bank empty; and
   which error it is, the history says.
   */
  ghost predicate FailsSafe(r: Outcome<()>, wire: seq<Event>, bank: set<nat>) {
    && Explained(r, wire)
    && (EndsInEmergency(wire) <==> r.Err? && Handled(r.error))
    && (EndsInEmergency(wire) && Last(wire).ok ==> bank == {})
    && (r.Err? && r.error.Mismatch? ==> r.error.shutdownOk == Last(wire).ok)
  }
}
