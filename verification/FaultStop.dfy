/**
 The concurrent fault stop: orchestration/fault_bus.py, concurrent_supervisor.py and
 global_emergency_stop.py as one interleaving system.

 Every atomic action of every thread is a separate step: recording a report under the lock
 and setting the event afterwards, each liveness test, each stop request, each join and each
 look at a joined worker. Workers are numbered; their group ids are distinct.
 */
module FaultStop {
  import opened Results

  datatype FaultReport = FaultReport(group: Option<nat>, reason: string)

  datatype Bus = Bus(origin: Option<FaultReport>, all: seq<FaultReport>, tripped: bool)

  /** A live thread may be inside `report`, between recording and setting the event. */
  datatype Thread = NotStarted | Alive(setting: bool) | Ended

  datatype Mark = Stopped | UnverifiedSafe

  /** What the emergency stop did, in order. */
  datatype Act = Trip | Asked(w: nat, reason: string) | Joined(w: nat) | Marked(w: nat, mark: Mark)

  datatype Outcome = Outcome(faulted: bool, reason: Option<string>, shutdown: seq<Mark>)

  /** Where the supervisor thread is. */
  datatype Supervisor =
    | Starting(i: nat)
    | Waiting
    | Checking(i: nat)
    | Faulted
    | Triggering(origin: Option<FaultReport>)
    | Asking(origin: Option<FaultReport>, reason: string, i: nat)
    | Joining(origin: Option<FaultReport>, marks: seq<Mark>)
    | Looking(origin: Option<FaultReport>, marks: seq<Mark>)
    | Returned(outcome: Outcome)

  /** `outside` counts reporters other than workers (a SIGINT handler, an excepthook) caught between recording and setting. */
  datatype State = State(
    bus: Bus, threads: seq<Thread>, outside: nat, sup: Supervisor,
    log: seq<Act>)

  datatype Action =
    | Record(w: nat, text: string)
    | SetEvent(w: nat)
    | End(w: nat)
    | OutsideRecord(text: string)
    | OutsideSet
    | WaitTimeout
    | Supervise

  // ------------------------------------------------------------------ steps

  /** `report`, the part under the lock. */
  function Recorded(bus: Bus, r: FaultReport): Bus {
    bus.(all := bus.all + [r], origin := if bus.origin.None? then Some(r) else bus.origin)
  }

  predicate IsAlive(t: Thread) {
    t.Alive?
  }

  predicate Enabled(st: State, a: Action) {
    match a
    case Record(w, _) => w < |st.threads| && st.threads[w] == Alive(false)
    case SetEvent(w) => w < |st.threads| && st.threads[w] == Alive(true)
    case End(w) => w < |st.threads| && st.threads[w] == Alive(false)
    case OutsideRecord(_) => true
    case OutsideSet => st.outside > 0
    case WaitTimeout => st.sup.Waiting? && !st.bus.tripped
    case Supervise =>
      match st.sup
      case Waiting => st.bus.tripped
      case Starting(i) => i <= |st.threads|
      case Checking(i) => i <= |st.threads|
      case Looking(_, marks) => |marks| < |st.threads|
      case Returned(_) => false
      case _ => true
  }

  /** The supervisor's own next step. */
  function Supervised(st: State): State
    requires Enabled(st, Supervise)
  {
    var n := |st.threads|;
    match st.sup
    case Starting(i) =>
      if i == n then st.(sup := Waiting)
      else st.(threads := st.threads[i := Alive(false)], sup := Starting(i + 1))
    case Waiting => st.(sup := Faulted)
    case Checking(i) =>
      if i == n then st.(sup := Returned(Outcome(false, None, [])))
      else if IsAlive(st.threads[i]) then st.(sup := Waiting)
      else st.(sup := Checking(i + 1))
    case Faulted => st.(sup := Triggering(st.bus.origin))
    case Triggering(origin) =>
      var reason := if st.bus.origin.Some? then st.bus.origin.value.reason else "global emergency stop";
      st.(sup := Asking(origin, reason, 0), log := st.log + [Trip])
    case Asking(origin, reason, i) =>
      if i >= n then st.(sup := Joining(origin, []))
      else st.(sup := Asking(origin, reason, i + 1), log := st.log + [Asked(i, reason)])
    case Joining(origin, marks) =>
      if |marks| >= n then
        st.(sup := Returned(Outcome(true, if origin.Some? then Some(origin.value.reason) else None, marks)))
      else st.(sup := Looking(origin, marks), log := st.log + [Joined(|marks|)])
    case Looking(origin, marks) =>
      var mark := if IsAlive(st.threads[|marks|]) then UnverifiedSafe else Stopped;
      st.(sup := Joining(origin, marks + [mark]), log := st.log + [Marked(|marks|, mark)])
  }

  function Next(st: State, a: Action): State
    requires Enabled(st, a)
  {
    match a
    case Record(w, text) =>
      st.(bus := Recorded(st.bus, FaultReport(Some(w), text)), threads := st.threads[w := Alive(true)])
    case SetEvent(w) => st.(bus := st.bus.(tripped := true), threads := st.threads[w := Alive(false)])
    case End(w) => st.(threads := st.threads[w := Ended])
    case OutsideRecord(text) => st.(bus := Recorded(st.bus, FaultReport(None, text)), outside := st.outside + 1)
    case OutsideSet => st.(bus := st.bus.(tripped := true), outside := st.outside - 1)
    case WaitTimeout => st.(sup := Checking(0))
    case Supervise => Supervised(st)
  }

  function Initial(n: nat): State {
    State(Bus(None, [], false), seq(n, _ => NotStarted), 0, Starting(0), [])
  }

  /** The state a sequence of actions leads to, if each of them can happen. */
  function Exec(n: nat, actions: seq<Action>): Option<State> {
    if actions == [] then Some(Initial(n))
    else
      match Exec(n, actions[..|actions| - 1])
      case None => None
      case Some(st) => if Enabled(st, actions[|actions| - 1]) then Some(Next(st, actions[|actions| - 1])) else None
  }

  // -------------------------------------------------------------- invariant

  ghost function AskedAll(reason: string, k: nat): seq<Act> {
    seq(k, (i: nat) => Asked(i, reason))
  }

  /** Join, then look, worker by worker. */
  ghost function JoinsFor(marks: seq<Mark>): seq<Act> {
    if marks == [] then []
    else
      var k := |marks| - 1;
      JoinsFor(marks[..k]) + [Joined(k), Marked(k, marks[k])]
  }

  ghost predicate BusInv(bus: Bus, pending: bool) {
    && bus.origin == (if bus.all == [] then None else Some(bus.all[0]))
    && (bus.tripped || pending ==> bus.all != [])
  }

  ghost predicate Pending(st: State) {
    st.outside > 0 || exists w :: 0 <= w < |st.threads| && st.threads[w] == Alive(true)
  }

  ghost predicate Verified(threads: seq<Thread>, marks: seq<Mark>) {
    |marks| <= |threads| && forall w :: 0 <= w < |marks| && marks[w] == Stopped ==> threads[w] == Ended
  }

  ghost predicate SupervisorInv(st: State, n: nat)
    requires |st.threads| == n
  {
    match st.sup
    case Starting(i) => st.log == [] && i <= n && forall w :: 0 <= w < i ==> st.threads[w] != NotStarted
    case Waiting => st.log == []
    case Checking(i) => st.log == [] && i <= n && forall w :: 0 <= w < i ==> st.threads[w] == Ended
    case Faulted => st.log == [] && st.bus.tripped
    case Triggering(origin) => st.log == [] && st.bus.tripped && origin == st.bus.origin
    case Asking(origin, reason, i) =>
      && st.bus.tripped && origin == st.bus.origin && origin.Some? && reason == origin.value.reason
      && i <= n && st.log == [Trip] + AskedAll(reason, i)
    case Joining(origin, marks) =>
      && st.bus.tripped && origin == st.bus.origin && origin.Some? && Verified(st.threads, marks)
      && st.log == [Trip] + AskedAll(origin.value.reason, n) + JoinsFor(marks)
    case Looking(origin, marks) =>
      && st.bus.tripped && origin == st.bus.origin && origin.Some? && Verified(st.threads, marks) && |marks| < n
      && st.log == [Trip] + AskedAll(origin.value.reason, n) + JoinsFor(marks) + [Joined(|marks|)]
    case Returned(o) =>
      if o.faulted then
        && st.bus.tripped && st.bus.origin.Some? && o.reason == Some(st.bus.origin.value.reason)
        && |o.shutdown| == n && Verified(st.threads, o.shutdown)
        && st.log == [Trip] + AskedAll(st.bus.origin.value.reason, n) + JoinsFor(o.shutdown)
      else
        && st.log == [] && o.reason == None && o.shutdown == []
        && forall w :: 0 <= w < n ==> st.threads[w] == Ended
  }

  ghost predicate Inv(st: State, n: nat) {
    && |st.threads| == n
    && BusInv(st.bus, Pending(st))
    && (!st.sup.Starting? ==> forall w :: 0 <= w < n ==> st.threads[w] != NotStarted)
    && SupervisorInv(st, n)
  }

  /** A reporter's step keeps what is known about the bus. */
  lemma ReporterKeepsBus(st: State, n: nat, a: Action)
    requires Inv(st, n) && Enabled(st, a) && !a.Supervise? && !a.WaitTimeout?
    ensures BusInv(Next(st, a).bus, Pending(Next(st, a)))
    ensures st.bus.origin.Some? ==> Next(st, a).bus.origin == st.bus.origin
    ensures st.bus.tripped ==> Next(st, a).bus.tripped
  {
    var after := Next(st, a);
    if Pending(after) && !Pending(st) {
      assert after.bus.all != [];
    }
    assert a.SetEvent? ==> Pending(st);
  }

  /** It leaves the supervisor alone and starts and revives nobody. */
  lemma ReporterKeepsThreads(st: State, a: Action)
    requires Enabled(st, a) && !a.Supervise? && !a.WaitTimeout?
    ensures var after := Next(st, a);
            && after.sup == st.sup && after.log == st.log
            && |after.threads| == |st.threads|
            && (forall w :: 0 <= w < |st.threads| ==> (after.threads[w] == NotStarted <==> st.threads[w] == NotStarted))
            && (forall w :: 0 <= w < |st.threads| && st.threads[w] == Ended ==> after.threads[w] == Ended)
  {
  }

  lemma ReporterKeepsInv(st: State, n: nat, a: Action)
    requires Inv(st, n) && Enabled(st, a) && !a.Supervise? && !a.WaitTimeout?
    ensures Inv(Next(st, a), n)
  {
    ReporterKeepsBus(st, n, a);
    ReporterKeepsThreads(st, a);
    SupervisorUndisturbed(st, Next(st, a), n);
  }

  /** What the supervisor relies on survives any step that changes neither it nor a fixed origin nor an ended thread. */
  lemma SupervisorUndisturbed(st: State, after: State, n: nat)
    requires |st.threads| == n == |after.threads| && SupervisorInv(st, n)
    requires after.sup == st.sup && after.log == st.log
    requires st.bus.origin.Some? ==> after.bus.origin == st.bus.origin
    requires st.bus.tripped ==> after.bus.tripped && st.bus.origin.Some?
    requires forall w :: 0 <= w < n ==> (after.threads[w] == NotStarted <==> st.threads[w] == NotStarted)
    requires forall w :: 0 <= w < n && st.threads[w] == Ended ==> after.threads[w] == Ended
    ensures SupervisorInv(after, n)
  {
  }

  /** No supervisor step starts or ends a report. */
  lemma SupervisorReportsNothing(st: State)
    requires Enabled(st, Supervise)
    ensures Pending(Supervised(st)) ==> Pending(st)
    ensures Supervised(st).bus == st.bus
    ensures |Supervised(st).threads| == |st.threads|
  {
    var after := Supervised(st);
    if Pending(after) && after.outside == 0 {
      var w :| 0 <= w < |after.threads| && after.threads[w] == Alive(true);
      assert st.threads[w] == Alive(true);
    }
  }

  /** The supervisor's own part of the invariant, while it starts workers and watches. */
  lemma WatchingKeepsInv(st: State, n: nat)
    requires Inv(st, n) && Enabled(st, Supervise)
    requires st.sup.Starting? || st.sup.Waiting? || st.sup.Checking? || st.sup.Faulted?
    ensures Inv(Supervised(st), n)
  {
    SupervisorReportsNothing(st);
  }

  /** And while it asks them to stop. */
  lemma AskingKeepsInv(st: State, n: nat)
    requires Inv(st, n) && Enabled(st, Supervise)
    requires st.sup.Triggering? || st.sup.Asking?
    ensures Inv(Supervised(st), n)
  {
    SupervisorReportsNothing(st);
    var after := Supervised(st);
    if st.sup.Triggering? {
      assert after.log == [Trip] + AskedAll(after.sup.reason, 0);
    } else if st.sup.i < n {
      assert AskedAll(st.sup.reason, st.sup.i + 1) == AskedAll(st.sup.reason, st.sup.i) + [Asked(st.sup.i, st.sup.reason)];
    } else {
      assert after.log == [Trip] + AskedAll(st.sup.reason, n) + JoinsFor([]);
    }
  }

  /** And while it joins and judges them. */
  lemma JoiningKeepsInv(st: State, n: nat)
    requires Inv(st, n) && Enabled(st, Supervise)
    requires st.sup.Joining? || st.sup.Looking?
    ensures Inv(Supervised(st), n)
  {
    SupervisorReportsNothing(st);
    if st.sup.Looking? {
      var marks, after := st.sup.marks, Supervised(st);
      LookExtends([Trip] + AskedAll(st.sup.origin.value.reason, n), marks, after.sup.marks);
    }
  }

  lemma LookExtends(head: seq<Act>, marks: seq<Mark>, more: seq<Mark>)
    requires |more| == |marks| + 1 && more[..|marks|] == marks
    ensures head + JoinsFor(marks) + [Joined(|marks|)] + [Marked(|marks|, more[|marks|])] == head + JoinsFor(more)
  {
  }

  lemma {:induction false} RunInv(n: nat, actions: seq<Action>)
    requires Exec(n, actions).Some?
    ensures Inv(Exec(n, actions).value, n)
  {
    if actions == [] {
    } else {
      var init, a := actions[..|actions| - 1], actions[|actions| - 1];
      RunInv(n, init);
      var st := Exec(n, init).value;
      if a.Supervise? {
        if st.sup.Starting? || st.sup.Waiting? || st.sup.Checking? || st.sup.Faulted? {
          WatchingKeepsInv(st, n);
        } else if st.sup.Triggering? || st.sup.Asking? {
          AskingKeepsInv(st, n);
        } else {
          JoiningKeepsInv(st, n);
        }
      } else if !a.WaitTimeout? {
        ReporterKeepsInv(st, n, a);
      }
    }
  }

  // ----------------------------------------------------------- main results

  lemma GrowsInOneStep(st: State, a: Action)
    requires Enabled(st, a)
    ensures st.bus.all <= Next(st, a).bus.all
    ensures st.bus.tripped ==> Next(st, a).bus.tripped
    ensures |Next(st, a).threads| == |st.threads|
    ensures forall w :: 0 <= w < |st.threads| && st.threads[w] == Ended && !st.sup.Starting? ==> Next(st, a).threads[w] == Ended
  {
  }

  lemma {:induction false} RunGrows(n: nat, actions: seq<Action>, k: nat)
    requires k <= |actions| && Exec(n, actions).Some?
    ensures Exec(n, actions[..k]).Some?
    ensures Exec(n, actions[..k]).value.bus.all <= Exec(n, actions).value.bus.all
    ensures Exec(n, actions[..k]).value.bus.tripped ==> Exec(n, actions).value.bus.tripped
  {
    if k == |actions| {
      assert actions[..k] == actions;
    } else {
      var init, a := actions[..|actions| - 1], actions[|actions| - 1];
      RunGrows(n, init, k);
      assert init[..k] == actions[..k];
      GrowsInOneStep(Exec(n, init).value, a);
    }
  }

  /**
   The origin is the first report and never changes: at any two moments of any run, if it is
   set at the earlier one it is the same at the later one; and whoever sees the bus tripped
   sees an origin.
   */
  lemma OriginIsFirstAndStable(n: nat, actions: seq<Action>, k: nat)
    requires k <= |actions| && Exec(n, actions).Some?
    ensures Exec(n, actions[..k]).Some?
    ensures var early, late := Exec(n, actions[..k]).value.bus, Exec(n, actions).value.bus;
            && (late.origin.Some? <==> late.all != []) && (late.origin.Some? ==> late.origin.value == late.all[0])
            && (early.origin.Some? ==> late.origin == early.origin)
            && (late.tripped ==> late.origin.Some?)
            && (early.tripped ==> late.tripped)
  {
    RunGrows(n, actions, k);
    RunInv(n, actions);
    RunInv(n, actions[..k]);
  }

  /**
   A faulted result: exactly one trigger; every worker was asked to stop, with the reason of
   the first report, before the first join; workers were joined and judged one by one in
   order; and a group is reported stopped only if its thread has ended.
   */
  lemma FaultedResult(n: nat, actions: seq<Action>)
    requires Exec(n, actions).Some? && Exec(n, actions).value.sup.Returned?
    requires Exec(n, actions).value.sup.outcome.faulted
    ensures var st := Exec(n, actions).value;
            && st.bus.tripped && st.bus.origin.Some?
            && st.sup.outcome.reason == Some(st.bus.origin.value.reason)
            && st.log == [Trip] + AskedAll(st.bus.origin.value.reason, n) + JoinsFor(st.sup.outcome.shutdown)
            && |st.sup.outcome.shutdown| == n == |st.threads|
            && forall w :: 0 <= w < n && st.sup.outcome.shutdown[w] == Stopped ==> st.threads[w] == Ended
  {
    RunInv(n, actions);
  }

  /** The marks made so far. */
  ghost function MarksOf(sup: Supervisor): seq<Mark> {
    match sup
    case Joining(_, marks) => marks
    case Looking(_, marks) => marks
    case Returned(o) => o.shutdown
    case _ => []
  }

  /** The supervisor is about to look at worker `w`, which it has just joined, and `mark` says what it will see. */
  ghost predicate LookedAt(st: State, w: nat, mark: Mark) {
    && st.sup.Looking? && |st.sup.marks| == w < |st.threads|
    && st.log != [] && st.log[|st.log| - 1] == Joined(w)
    && (mark == Stopped <==> st.threads[w] == Ended)
    && (mark == UnverifiedSafe <==> st.threads[w].Alive?)
  }

  /** One more action keeps the marks, or is the look that adds the next one. */
  lemma MarkStep(st: State, n: nat, a: Action)
    requires Inv(st, n) && Enabled(st, a)
    ensures var more := MarksOf(Next(st, a).sup);
            || more == MarksOf(st.sup)
            || (a.Supervise? && |more| > 0 && more[..|more| - 1] == MarksOf(st.sup) && LookedAt(st, |more| - 1, more[|more| - 1]))
  {
  }

  /**
   A mark says exactly what was seen: for every worker that has been marked there was one look at
   it, after it had been joined, and it is marked stopped if and only if its thread had ended by
   then; otherwise it was still alive.
   */
  lemma {:induction false} MarkedAsSeen(n: nat, actions: seq<Action>, w: nat) returns (k: nat, seen: State)
    requires Exec(n, actions).Some? && w < |MarksOf(Exec(n, actions).value.sup)|
    ensures k < |actions| && actions[k] == Supervise && Exec(n, actions[..k]) == Some(seen)
    ensures LookedAt(seen, w, MarksOf(Exec(n, actions).value.sup)[w])
  {
    var before, after := LastStep(n, actions);
    k, seen := |actions| - 1, before;
    MarkStep(before, n, actions[k]);
    if w < |MarksOf(before.sup)| {
      var init := actions[..k];
      k, seen := MarkedAsSeen(n, init, w);
      assert init[..k] == actions[..k];
    }
  }

  /** A run up to its last action, and after it. */
  lemma LastStep(n: nat, actions: seq<Action>) returns (before: State, after: State)
    requires Exec(n, actions).Some? && actions != []
    ensures var a := actions[|actions| - 1];
            && Exec(n, actions[..|actions| - 1]) == Some(before) && Exec(n, actions) == Some(after)
            && Enabled(before, a) && after == Next(before, a) && Inv(before, n)
  {
    before, after := Exec(n, actions[..|actions| - 1]).value, Exec(n, actions).value;
    RunInv(n, actions[..|actions| - 1]);
  }

  predicate SetsEvent(a: Action) {
    a.SetEvent? || a.OutsideSet?
  }

  predicate NobodySets(actions: seq<Action>) {
    forall i :: 0 <= i < |actions| ==> !SetsEvent(actions[i])
  }

  predicate NoTimeout(actions: seq<Action>) {
    forall i :: 0 <= i < |actions| ==> !actions[i].WaitTimeout?
  }

  /** The event is set exactly if some reporter has set it. */
  lemma {:induction false} TrippedBySomebody(n: nat, actions: seq<Action>)
    requires Exec(n, actions).Some?
    ensures Exec(n, actions).value.bus.tripped <==> !NobodySets(actions)
  {
    if actions != [] {
      var init, a := actions[..|actions| - 1], actions[|actions| - 1];
      TrippedBySomebody(n, init);
      var before, after := LastStep(n, actions);
      TrippedStep(before, a);
      NobodySetsNext(init, a);
      assert actions == init + [a];
    }
  }

  lemma TrippedStep(st: State, a: Action)
    requires Enabled(st, a)
    ensures Next(st, a).bus.tripped <==> st.bus.tripped || SetsEvent(a)
  {
  }

  lemma NobodySetsNext(init: seq<Action>, a: Action)
    ensures NobodySets(init + [a]) <==> NobodySets(init) && !SetsEvent(a)
  {
    var actions := init + [a];
    assert SetsEvent(a) ==> SetsEvent(actions[|init|]);
    if !NobodySets(init) {
      var i :| 0 <= i < |init| && SetsEvent(init[i]);
      assert SetsEvent(actions[i]);
    }
  }

  predicate InRound(sup: Supervisor) {
    sup.Checking? || (sup.Returned? && !sup.outcome.faulted)
  }

  /** Liveness tests made in the current round, and the return as one more. */
  function Tested(sup: Supervisor, n: nat): nat {
    if sup.Checking? then sup.i else n + 1
  }

  /** A round starts with a timed-out wait and goes on by one test at a time. */
  lemma RoundStep(st: State, n: nat, a: Action)
    requires Inv(st, n) && Enabled(st, a) && InRound(Next(st, a).sup)
    ensures a.WaitTimeout? ==> !st.bus.tripped && Tested(Next(st, a).sup, n) == 0
    ensures !a.WaitTimeout? ==>
              InRound(st.sup) && Tested(Next(st, a).sup, n) == Tested(st.sup, n) + if a.Supervise? then 1 else 0
  {
  }

  /**
   Where an unfaulted result comes from: one wait that timed out before anybody had set the
   event, and after it exactly the n liveness tests and the return, without another wait.
   */
  lemma {:induction false} UnfaultedAfterOneRound(n: nat, actions: seq<Action>) returns (k: nat)
    requires Exec(n, actions).Some?
    requires InRound(Exec(n, actions).value.sup)
    ensures OneRound(actions, k, Tested(Exec(n, actions).value.sup, n))
  {
    var before, after := LastStep(n, actions);
    k := |actions| - 1;
    var init, a := actions[..k], actions[k];
    assert actions == init + [a];
    RoundStep(before, n, a);
    if a.WaitTimeout? {
      TrippedBySomebody(n, init);
      RoundStarts(init);
    } else {
      var tested := Tested(before.sup, n);
      k := UnfaultedAfterOneRound(n, init);
      RoundAppend(init, a, k, tested);
    }
  }

  /** A wait that timed out at `k` before anybody had set the event, then `tested` supervisor steps and no other wait. */
  ghost predicate OneRound(actions: seq<Action>, k: nat, tested: nat) {
    && k < |actions| && actions[k] == WaitTimeout && NobodySets(actions[..k])
    && NoTimeout(actions[k + 1..]) && Supervisions(actions[k + 1..]) == tested
  }

  lemma RoundStarts(init: seq<Action>)
    requires NobodySets(init)
    ensures OneRound(init + [WaitTimeout], |init|, 0)
  {
    assert (init + [WaitTimeout])[..|init|] == init;
  }

  /** An unfaulted result: every worker has ended, nobody was asked to stop, and no fault was set when the last wait, at `k`, timed out. */
  lemma UnfaultedResult(n: nat, actions: seq<Action>) returns (k: nat)
    requires Exec(n, actions).Some? && Exec(n, actions).value.sup.Returned?
    requires !Exec(n, actions).value.sup.outcome.faulted
    ensures var st := Exec(n, actions).value;
            && st.sup.outcome == Outcome(false, None, []) && st.log == []
            && |st.threads| == n && forall w :: 0 <= w < n ==> st.threads[w] == Ended
    ensures k < |actions| && actions[k] == WaitTimeout && NoTimeout(actions[k + 1..])
    ensures Exec(n, actions[..k]).Some? && !Exec(n, actions[..k]).value.bus.tripped
  {
    RunInv(n, actions);
    k := UnfaultedAfterOneRound(n, actions);
    RunGrows(n, actions, k);
    TrippedBySomebody(n, actions[..k]);
  }

  /** One more action after a wait that timed out at `k`. */
  lemma RoundAppend(init: seq<Action>, a: Action, k: nat, tested: nat)
    requires !a.WaitTimeout? && OneRound(init, k, tested)
    ensures OneRound(init + [a], k, tested + if a.Supervise? then 1 else 0)
  {
    assert (init + [a])[k + 1..] == init[k + 1..] + [a];
    assert (init[k + 1..] + [a])[..|init| - k - 1] == init[k + 1..];
    assert (init + [a])[..k] == init[..k];
  }

  /** The reports made, in order. */
  function Reports(actions: seq<Action>): seq<FaultReport> {
    if actions == [] then []
    else
      var a := actions[|actions| - 1];
      Reports(actions[..|actions| - 1])
      + (if a.Record? then [FaultReport(Some(a.w), a.text)] else if a.OutsideRecord? then [FaultReport(None, a.text)] else [])
  }

  /** The bus keeps every report, whoever makes it and whenever, in the order of the lock. */
  lemma {:induction false} EveryReportIsKept(n: nat, actions: seq<Action>)
    requires Exec(n, actions).Some?
    ensures Exec(n, actions).value.bus.all == Reports(actions)
  {
    if actions != [] {
      EveryReportIsKept(n, actions[..|actions| - 1]);
    }
  }

  /** The supervisor on its own, `k` steps. */
  function Alone(k: nat): (actions: seq<Action>)
    ensures |actions| == k
  {
    seq(k, _ => Supervise)
  }

  lemma AloneNext(n: nat, before: seq<Action>, k: nat)
    requires k > 0
    ensures before + Alone(k) == before + [Supervise] + Alone(k - 1)
  {
  }

  /** It starts every worker, once, and then waits. */
  lemma {:induction false} StartsEverybody(n: nat, k: nat)
    requires k <= n
    ensures Exec(n, Alone(k)) == Some(Initial(n).(threads := seq(n, i => if i < k then Alive(false) else NotStarted), sup := Starting(k)))
    ensures k == n ==> Exec(n, Alone(n + 1)) == Some(Initial(n).(threads := seq(n, _ => Alive(false)), sup := Waiting))
  {
    if k == 0 {
      assert Initial(n).threads == seq(n, i => if i < 0 then Alive(false) else NotStarted);
    } else {
      StartsEverybody(n, k - 1);
      assert Alone(k)[..k - 1] == Alone(k - 1);
      var before := seq(n, i => if i < k - 1 then Alive(false) else NotStarted);
      assert before[k - 1 := Alive(false)] == seq(n, i => if i < k then Alive(false) else NotStarted);
    }
    if k == n {
      assert Alone(n + 1)[..n] == Alone(n);
      assert seq(n, i => if i < n then Alive(false) else NotStarted) == seq(n, _ => Alive(false));
    }
  }

  lemma TestStep(st: State, first: nat)
    requires st.sup.Checking? && st.sup.i <= first <= |st.threads|
    requires (forall w :: st.sup.i <= w < first ==> !st.threads[w].Alive?) && (first < |st.threads| ==> st.threads[first].Alive?)
    ensures Next(st, Supervise) ==
            st.(sup := if st.sup.i < first then Checking(st.sup.i + 1)
                       else if first < |st.threads| then Waiting
                       else Returned(Outcome(false, None, [])))
  {
  }

  /**
   One undisturbed round of liveness tests, exactly: it goes back to waiting at the first worker
   that is alive, and returns an unfaulted result if there is none.
   */
  lemma {:induction false} RoundOfTests(n: nat, actions: seq<Action>, st: State, first: nat, more: seq<Action>)
    requires Exec(n, actions) == Some(st) && st.sup.Checking? && st.sup.i <= first <= n == |st.threads|
    requires (forall w :: st.sup.i <= w < first ==> !st.threads[w].Alive?) && (first < n ==> st.threads[first].Alive?)
    requires more == actions + Alone(first - st.sup.i + 1)
    ensures Exec(n, more) == Some(st.(sup := if first < n then Waiting else Returned(Outcome(false, None, []))))
    decreases first - st.sup.i
  {
    var i := st.sup.i;
    TestStep(st, first);
    ExecOne(n, actions, st, Supervise);
    AloneNext(n, actions, first - i + 1);
    if i < first {
      RoundOfTests(n, actions + [Supervise], st.(sup := Checking(i + 1)), first, more);
    } else {
      assert more == actions + [Supervise];
    }
  }

  /** The supervisor always has a next step of its own until it returns. */
  lemma SupervisorNeverStuck(n: nat, actions: seq<Action>)
    requires Exec(n, actions).Some?
    ensures var st := Exec(n, actions).value;
            st.sup.Returned? || Enabled(st, Supervise) || Enabled(st, WaitTimeout)
  {
    RunInv(n, actions);
  }

  /** Supervisor steps left once a fault has been seen. */
  function StepsLeft(sup: Supervisor, n: nat): nat {
    match sup
    case Faulted => 3 * n + 4
    case Triggering(_) => 3 * n + 3
    case Asking(_, _, i) => 2 * n + 2 + (if i <= n then n - i else 0)
    case Joining(_, marks) => 1 + 2 * (if |marks| <= n then n - |marks| else 0)
    case Looking(_, marks) => 2 * (if |marks| <= n then n - |marks| else 0)
    case _ => 0
  }

  /** How many of the actions are the supervisor's own. */
  function Supervisions(actions: seq<Action>): nat {
    if actions == [] then 0
    else Supervisions(actions[..|actions| - 1]) + if actions[|actions| - 1].Supervise? then 1 else 0
  }

  /**
   The stop is bounded over the whole run: from the moment `k` at which the supervisor has seen the
   fault, whatever else interleaves, each of its own steps brings it one closer to the end, it takes
   at most 3n + 4 of them, and after exactly that many it has returned a faulted result.
   */
  lemma {:induction false} StopIsBounded(n: nat, actions: seq<Action>, k: nat)
    requires k <= |actions| && Exec(n, actions).Some?
    requires Exec(n, actions[..k]).Some? && Exec(n, actions[..k]).value.sup.Faulted?
    ensures Supervisions(actions[k..]) <= 3 * n + 4
    ensures StepsLeft(Exec(n, actions).value.sup, n) == 3 * n + 4 - Supervisions(actions[k..])
    ensures Supervisions(actions[k..]) == 3 * n + 4 <==> Exec(n, actions).value.sup.Returned?
    ensures Exec(n, actions).value.sup.Returned? ==> Exec(n, actions).value.sup.outcome.faulted
  {
    if k == |actions| {
      assert actions[..k] == actions && actions[k..] == [];
    } else {
      var init, a := actions[..|actions| - 1], actions[|actions| - 1];
      assert init[..k] == actions[..k] && actions[k..] == init[k..] + [a] && (init[k..] + [a])[..|init| - k] == init[k..];
      StopIsBounded(n, init, k);
      RunInv(n, init);
      OneMoreAction(Exec(n, init).value, n, a);
    }
  }

  /** While the stop is under way only the supervisor's own steps count, one each; afterwards it has none. */
  lemma OneMoreAction(st: State, n: nat, a: Action)
    requires Inv(st, n) && Enabled(st, a)
    requires StepsLeft(st.sup, n) > 0 || (st.sup.Returned? && st.sup.outcome.faulted)
    ensures StepsLeft(st.sup, n) == 0 ==> !a.Supervise?
    ensures a.Supervise? ==> StepsLeft(Next(st, a).sup, n) == StepsLeft(st.sup, n) - 1
    ensures !a.Supervise? ==> Next(st, a).sup == st.sup
    ensures StepsLeft(Next(st, a).sup, n) == 0 <==> Next(st, a).sup.Returned?
    ensures Next(st, a).sup.Returned? ==> Next(st, a).sup.outcome.faulted
  {
    if StepsLeft(st.sup, n) > 0 { StepCounts(st, n); }
  }

  /** It can always take the next of them. */
  lemma StopGoesOn(n: nat, actions: seq<Action>)
    requires Exec(n, actions).Some? && StepsLeft(Exec(n, actions).value.sup, n) > 0
    ensures Enabled(Exec(n, actions).value, Supervise)
  {
    RunInv(n, actions);
    StepCounts(Exec(n, actions).value, n);
  }

  lemma StepCounts(st: State, n: nat)
    requires Inv(st, n) && StepsLeft(st.sup, n) > 0
    ensures Enabled(st, Supervise) && !Enabled(st, WaitTimeout)
    ensures StepsLeft(Supervised(st).sup, n) == StepsLeft(st.sup, n) - 1
    ensures StepsLeft(Supervised(st).sup, n) == 0 ==> Supervised(st).sup.Returned? && Supervised(st).sup.outcome.faulted
  {
  }

  /** A fault is set, and the supervisor is neither past a timed-out wait nor back without a fault. */
  predicate Caught(st: State) {
    st.bus.tripped && !st.sup.Checking? && !(st.sup.Returned? && !st.sup.outcome.faulted)
  }

  /**
   Outside the window between a timed-out wait and the liveness tests no fault is missed: from the
   moment one is set there, however the run goes on, the supervisor can only return a faulted result.
   */
  lemma {:induction false} FaultOutsideWindowIsCaught(n: nat, actions: seq<Action>, k: nat)
    requires Exec(n, actions).Some? && k <= |actions|
    requires Exec(n, actions[..k]).Some? && Caught(Exec(n, actions[..k]).value)
    ensures Caught(Exec(n, actions).value)
    ensures Exec(n, actions).value.sup.Returned? ==> Exec(n, actions).value.sup.outcome.faulted
  {
    if k == |actions| {
      assert actions[..k] == actions;
    } else {
      var init := actions[..|actions| - 1];
      assert init[..k] == actions[..k];
      FaultOutsideWindowIsCaught(n, init, k);
    }
  }

  /** The supervisor's step after `before`, if it is a liveness test, finds its worker ended. */
  predicate FindsEnded(n: nat, before: seq<Action>) {
    match Exec(n, before)
    case None => true
    case Some(st) => st.sup.Checking? && st.sup.i < |st.threads| ==> !IsAlive(st.threads[st.sup.i])
  }

  /** Every liveness test made from moment `k` on finds its worker ended. */
  predicate TestsFindEnded(n: nat, actions: seq<Action>, k: nat) {
    forall p {:trigger FindsEnded(n, actions[..p])} :: k <= p < |actions| && actions[p].Supervise? ==> FindsEnded(n, actions[..p])
  }

  lemma TestsAppend(n: nat, init: seq<Action>, a: Action, k: nat)
    requires k <= |init|
    ensures TestsFindEnded(n, init + [a], k) <==> TestsFindEnded(n, init, k) && (a.Supervise? ==> FindsEnded(n, init))
  {
    var actions := init + [a];
    assert actions[..|init|] == init;
    forall p | 0 <= p < |init| ensures actions[..p] == init[..p] && actions[p] == init[p] {}
    if TestsFindEnded(n, actions, k) {
      forall p | k <= p < |init| && init[p].Supervise? ensures FindsEnded(n, init[..p]) {
        assert FindsEnded(n, actions[..p]);
      }
      assert a.Supervise? ==> actions[|init|].Supervise? && FindsEnded(n, actions[..|init|]);
    }
  }

  /** With the bus tripped inside the window, one more step keeps the fault missed exactly if it is not a test that finds a live worker. */
  lemma WindowStep(st: State, n: nat, a: Action)
    requires Inv(st, n) && Enabled(st, a) && st.bus.tripped
    ensures Next(st, a).bus.tripped
    ensures Caught(st) ==> Caught(Next(st, a))
    ensures !Caught(st) ==>
              (Caught(Next(st, a)) <==> a.Supervise? && st.sup.Checking? && st.sup.i < n && IsAlive(st.threads[st.sup.i]))
  {
  }

  /**
   Inside the window, exactly: a fault is set while the supervisor is testing for liveness. However
   the run goes on, the supervisor returns an unfaulted result if and only if every liveness test it
   still makes finds its worker ended.
   */
  lemma {:induction false} WindowExactly(n: nat, actions: seq<Action>, k: nat)
    requires Exec(n, actions).Some? && k <= |actions|
    requires Exec(n, actions[..k]).Some?
    requires Exec(n, actions[..k]).value.sup.Checking? && Exec(n, actions[..k]).value.bus.tripped
    ensures Exec(n, actions).value.bus.tripped
    ensures Caught(Exec(n, actions).value) <==> !TestsFindEnded(n, actions, k)
    ensures Exec(n, actions).value.sup.Returned? ==> (!Exec(n, actions).value.sup.outcome.faulted <==> TestsFindEnded(n, actions, k))
  {
    if k == |actions| {
      assert actions[..k] == actions;
    } else {
      var init, a := actions[..|actions| - 1], actions[|actions| - 1];
      assert init[..k] == actions[..k] && actions == init + [a];
      WindowExactly(n, init, k);
      RunInv(n, init);
      TestsAppend(n, init, a, k);
      WindowStep(Exec(n, init).value, n, a);
    }
  }

  lemma ExecOne(n: nat, actions: seq<Action>, st: State, a: Action)
    requires Exec(n, actions) == Some(st) && Enabled(st, a)
    ensures Exec(n, actions + [a]) == Some(Next(st, a))
  {
    assert (actions + [a])[..|actions|] == actions;
  }

  /**
   The window between a timed-out wait and the liveness test: a run of one worker that reports
   a fault and ends inside it is returned as unfaulted, with the bus tripped.
   */
  lemma FaultMissedInWindow(text: string) returns (actions: seq<Action>)
    ensures Exec(1, actions).Some?
    ensures var st := Exec(1, actions).value;
            st.sup == Returned(Outcome(false, None, [])) && st.bus.tripped && st.bus.origin == Some(FaultReport(Some(0), text))
  {
    var checking := State(Bus(None, [], false), [Alive(false)], 0, Checking(0), []);
    ExecOne(1, [], Initial(1), Supervise);
    assert Next(Initial(1), Supervise).threads == [Alive(false)];
    ExecOne(1, [] + [Supervise], checking.(sup := Starting(1)), Supervise);
    ExecOne(1, [] + [Supervise] + [Supervise], checking.(sup := Waiting), WaitTimeout);
    actions := [] + [Supervise] + [Supervise] + [WaitTimeout];
    actions := ReportAndEnd(actions, checking, text);
  }

  /** Inside the window, the only worker reports a fault and ends, and the supervisor finds nobody alive. */
  lemma ReportAndEnd(before: seq<Action>, st: State, text: string) returns (actions: seq<Action>)
    requires Exec(1, before) == Some(st)
    requires st == State(Bus(None, [], false), [Alive(false)], 0, Checking(0), [])
    ensures Exec(1, actions).Some?
    ensures var last := Exec(1, actions).value;
            last.sup == Returned(Outcome(false, None, [])) && last.bus.tripped && last.bus.origin == Some(FaultReport(Some(0), text))
  {
    var recorded := Next(st, Record(0, text));
    var set_ := Next(recorded, SetEvent(0));
    var ended := Next(set_, End(0));
    ExecOne(1, before, st, Record(0, text));
    ExecOne(1, before + [Record(0, text)], recorded, SetEvent(0));
    ExecOne(1, before + [Record(0, text)] + [SetEvent(0)], set_, End(0));
    actions := before + [Record(0, text)] + [SetEvent(0)] + [End(0)];
    ExecOne(1, actions, ended, Supervise);
    ExecOne(1, actions + [Supervise], ended.(sup := Checking(1)), Supervise);
    actions := actions + [Supervise] + [Supervise];
  }

  // ------------------------------------------------- the code of the steps

  /** `GlobalFaultBus`, as one thread sees it while no other is inside `report`. */
  class GlobalFaultBus {
    var origin: Option<FaultReport>
    var allReports: seq<FaultReport>
    var tripped: bool

    ghost predicate Valid()
      reads this
    {
      BusInv(View(), false)
    }

    ghost function View(): Bus
      reads this
    {
      Bus(origin, allReports, tripped)
    }

    constructor ()
      ensures Valid() && View() == Bus(None, [], false)
    {
      origin, allReports, tripped := None, [], false;
    }

    /** `report`: the locked part and the event, which the interleaving system takes as two steps. */
    method Report(group: Option<nat>, reason: string)
      requires Valid()
      modifies this
      ensures Valid() && View() == Recorded(old(View()), FaultReport(group, reason)).(tripped := true)
      ensures allReports == old(allReports) + [FaultReport(group, reason)] && tripped
      ensures origin == if old(allReports) == [] then Some(FaultReport(group, reason)) else old(origin)
    {
      var record := FaultReport(group, reason);
      allReports := allReports + [record];
      if origin.None? {
        origin := Some(record);
      }
      tripped := true;
    }
  }

  /** The acts of a whole trigger that stops `|marks|` workers for `reason`. */
  ghost function TriggerActs(reason: string, marks: seq<Mark>): seq<Act> {
    [Trip] + AskedAll(reason, |marks|) + JoinsFor(marks)
  }

  /**
   Act by act: the trip, then a request to every worker, then for each worker in turn its join and,
   right after it, its mark.
   */
  lemma {:induction false} TriggerActsInOrder(reason: string, marks: seq<Mark>, w: nat)
    requires w < |marks|
    ensures var n, acts := |marks|, TriggerActs(reason, marks);
            && |acts| == 3 * n + 1 && acts[0] == Trip && acts[1 + w] == Asked(w, reason)
            && acts[1 + n + 2 * w] == Joined(w) && acts[2 + n + 2 * w] == Marked(w, marks[w])
  {
    JoinsAt(marks, w);
  }

  lemma {:induction false} JoinsAt(marks: seq<Mark>, w: nat)
    requires w < |marks|
    ensures |JoinsFor(marks)| == 2 * |marks|
    ensures JoinsFor(marks)[2 * w] == Joined(w) && JoinsFor(marks)[2 * w + 1] == Marked(w, marks[w])
  {
    if |marks| > 1 {
      JoinsAt(marks[..|marks| - 1], if w < |marks| - 1 then w else 0);
    }
  }

  /**
   `GlobalEmergencyStop.trigger` over workers whose liveness after their bounded join is `alive`:
   its acts are exactly those the supervisor of the interleaving system performs, every request
   before every join, and a worker is marked stopped if and only if it was not alive any more.
   A request that raises is logged and the loop goes on.
   */
  method Trigger(bus: GlobalFaultBus, alive: seq<bool>) returns (marks: seq<Mark>, ghost acts: seq<Act>)
    requires bus.Valid()
    ensures |marks| == |alive| && forall w :: 0 <= w < |alive| ==> (marks[w] == Stopped <==> !alive[w])
    ensures acts == TriggerActs(if bus.allReports == [] then "global emergency stop" else bus.allReports[0].reason, marks)
  {
    var reason := if bus.origin.Some? then bus.origin.value.reason else "global emergency stop";
    acts := [Trip];
    for w := 0 to |alive|
      invariant acts == [Trip] + AskedAll(reason, w)
    {
      assert AskedAll(reason, w + 1) == AskedAll(reason, w) + [Asked(w, reason)];
      acts := acts + [Asked(w, reason)];
    }
    marks := [];
    ghost var head := acts;
    for w := 0 to |alive|
      invariant |marks| == w && forall v :: 0 <= v < w ==> (marks[v] == Stopped <==> !alive[v])
      invariant acts == head + JoinsFor(marks)
    {
      var mark := if alive[w] then UnverifiedSafe else Stopped;
      acts := acts + [Joined(w)] + [Marked(w, mark)];
      LookExtends(head, marks, marks + [mark]);
      marks := marks + [mark];
    }
  }

  /** The same acts in both views: a faulted result of the interleaving system logs what `Trigger` performs. */
  lemma SupervisorPerformsTrigger(n: nat, actions: seq<Action>)
    requires Exec(n, actions).Some? && Exec(n, actions).value.sup.Returned?
    requires Exec(n, actions).value.sup.outcome.faulted
    ensures var st := Exec(n, actions).value;
            st.bus.all != [] && st.log == TriggerActs(st.bus.all[0].reason, st.sup.outcome.shutdown)
  {
    FaultedResult(n, actions);
    RunInv(n, actions);
  }
}
