/**
 Running an execution plan: a step starts only after every step it depends on has finished,
 and while it runs its worker claims and releases its resources through the arbiter.

 In every run of every plan the planner builds, conflicting workers never run together and
 some step can always go on. No claim is ever refused exactly when every two steps that share
 a resource are ordered by their dependencies, as they are when sharing implies conflict.
 */
module Scheduling {
  import opened Results
  import opened ExecutionPlanning
  import opened Arbitration

  datatype Status = Waiting | Running | Finished

  datatype State = State(status: seq<Status>, claims: Claims)

  datatype Action =
    | Start(i: nat)
    | Finish(i: nat)
    | Claim(i: nat, resource: Resource)
    | Release(i: nat, resource: Resource)

  /** The plan being run and the resources each worker may claim. */
  datatype Setup = Setup(pairs: Pairs, steps: seq<Step>, needs: map<Name, set<Resource>>)

  ghost predicate WellPlanned(s: Setup) {
    Ordered(s.pairs, s.steps)
  }

  function Needs(s: Setup, i: nat): set<Resource>
    requires i < |s.steps|
  {
    if s.steps[i].name in s.needs then s.needs[s.steps[i].name] else {}
  }

  /** The conflict relation covers every two workers that share a resource. */
  ghost predicate SharingConflicts(s: Setup) {
    forall i, j :: 0 <= i < j < |s.steps| && Needs(s, i) * Needs(s, j) != {} ==>
                     Conflict(s.pairs, s.steps[i].name, s.steps[j].name)
  }

  ghost predicate DependsOn(s: Setup, j: nat, k: nat)
    requires j < |s.steps| && k < |s.steps|
  {
    s.steps[k].name in s.steps[j].dependsOn
  }

  /** Step `j` waits for step `i`, directly or through steps in between. */
  ghost predicate Precedes(s: Setup, i: nat, j: nat)
    requires i < |s.steps| && j < |s.steps|
    decreases j
  {
    exists k :: 0 <= k < j && DependsOn(s, j, k) && (k == i || Precedes(s, i, k))
  }

  /** Of any two steps that share a resource, the later waits for the earlier. */
  ghost predicate SharingOrdered(s: Setup) {
    forall i, j :: 0 <= i < j < |s.steps| && Needs(s, i) * Needs(s, j) != {} ==> Precedes(s, i, j)
  }

  ghost predicate Ready(s: Setup, status: seq<Status>, i: nat)
    requires |status| == |s.steps| && i < |s.steps|
  {
    forall j :: 0 <= j < |s.steps| && DependsOn(s, i, j) ==> status[j] == Finished
  }

  /** Whether an action may happen. A worker finishes after releasing what it claimed. */
  ghost predicate Enabled(s: Setup, st: State, a: Action) {
    && |st.status| == |s.steps| && a.i < |s.steps|
    && match a
       case Start(i) => st.status[i] == Waiting && Ready(s, st.status, i)
       case Finish(i) => st.status[i] == Running && forall r :: r in st.claims ==> st.claims[r] != s.steps[i].name
       case Claim(i, r) => st.status[i] == Running && r in Needs(s, i)
       case Release(i, r) => st.status[i] == Running
  }

  /** The state after an enabled action; a refused claim leaves the claims as they are. */
  function Next(s: Setup, st: State, a: Action): State
    requires |st.status| == |s.steps| && a.i < |s.steps|
  {
    var name := s.steps[a.i].name;
    match a
    case Start(i) => st.(status := st.status[i := Running])
    case Finish(i) => st.(status := st.status[i := Finished])
    case Claim(_, r) => (match Claimed(st.claims, r, name) case Ok(c) => st.(claims := c) case Err(_) => st)
    case Release(_, r) => st.(claims := Released(st.claims, ClaimHandle(r, name)))
  }

  function Initial(s: Setup): State {
    State(seq(|s.steps|, _ => Waiting), map[])
  }

  /** A run: every action is enabled where it happens. */
  ghost predicate IsRun(s: Setup, actions: seq<Action>, st: State) {
    if actions == [] then st == Initial(s)
    else
      var init, a := actions[..|actions| - 1], actions[|actions| - 1];
      exists before :: IsRun(s, init, before) && Enabled(s, before, a) && st == Next(s, before, a)
  }

  // ------------------------------------------------------------ invariant

  /** A step that has started waited for all its dependencies. */
  ghost predicate Waited(s: Setup, status: seq<Status>) {
    && |status| == |s.steps|
    && forall i :: 0 <= i < |s.steps| && status[i] != Waiting ==> Ready(s, status, i)
  }

  /** A claim is held by a running worker that needs it. */
  ghost predicate Held(s: Setup, st: State) {
    |st.status| == |s.steps| && forall r :: r in st.claims ==> Holder(s, st, r)
  }

  ghost predicate Holder(s: Setup, st: State, r: Resource)
    requires |st.status| == |s.steps| && r in st.claims
  {
    exists i :: 0 <= i < |s.steps| && s.steps[i].name == st.claims[r] && st.status[i] == Running && r in Needs(s, i)
  }

  lemma SameNameSameStep(s: Setup, i: nat, j: nat)
    requires WellPlanned(s) && i < |s.steps| && j < |s.steps| && s.steps[i].name == s.steps[j].name
    ensures i == j
  {
    assert StepNames(s.steps)[i] == StepNames(s.steps)[j];
  }

  /** A later conflicting step depends on the earlier one. */
  lemma DependsOnConflicting(s: Setup, i: nat, j: nat)
    requires WellPlanned(s) && i < j < |s.steps| && Conflict(s.pairs, s.steps[i].name, s.steps[j].name)
    ensures DependsOn(s, j, i)
  {
    ConflictRecordedOnce(s.pairs, s.steps, i, j);
  }

  /** Dependencies are earlier steps. */
  lemma DependenciesAreEarlier(s: Setup, i: nat, j: nat)
    requires WellPlanned(s) && i < |s.steps| && j < |s.steps| && DependsOn(s, i, j)
    ensures j < i
  {
    var names := StepNames(s.steps);
    ConflictingMembers(s.pairs, s.steps[i].name, names[..i], s.steps[j].name);
    var k :| 0 <= k < i && names[..i][k] == s.steps[j].name;
    SameNameSameStep(s, k, j);
  }

  /** Two steps running together do not conflict, in any state satisfying the invariant. */
  lemma NoConflictRunning(s: Setup, st: State, i: nat, j: nat)
    requires WellPlanned(s) && Waited(s, st.status)
    requires i < j < |s.steps| && st.status[i] == Running && st.status[j] == Running
    ensures !Conflict(s.pairs, s.steps[i].name, s.steps[j].name)
  {
    if Conflict(s.pairs, s.steps[i].name, s.steps[j].name) {
      DependsOnConflicting(s, i, j);
      assert false;
    }
  }

  /** Whatever a started step waits for, directly or not, has finished. */
  lemma {:induction false} PredecessorsFinished(s: Setup, status: seq<Status>, i: nat, j: nat)
    requires Waited(s, status) && i < |s.steps| && j < |s.steps|
    requires Precedes(s, i, j) && status[j] != Waiting
    ensures status[i] == Finished
    decreases j
  {
    var k :| 0 <= k < j && DependsOn(s, j, k) && (k == i || Precedes(s, i, k));
    assert Ready(s, status, j);
    if k != i { PredecessorsFinished(s, status, i, k); }
  }

  /** No running worker is refused a resource it needs. */
  lemma NeverBusy(s: Setup, st: State, i: nat, r: Resource)
    requires SharingOrdered(s) && Waited(s, st.status) && Held(s, st)
    requires i < |s.steps| && st.status[i] == Running && r in Needs(s, i)
    ensures Claimed(st.claims, r, s.steps[i].name).Ok?
  {
    if r in st.claims && st.claims[r] != s.steps[i].name {
      assert Holder(s, st, r);
      var j :| 0 <= j < |s.steps| && s.steps[j].name == st.claims[r] && st.status[j] == Running && r in Needs(s, j);
      assert r in Needs(s, i) * Needs(s, j) && r in Needs(s, j) * Needs(s, i);
      if i < j { PredecessorsFinished(s, st.status, i, j); } else { PredecessorsFinished(s, st.status, j, i); }
      assert false;
    }
  }

  /** Sharing workers that conflict are ordered: a conflict relation that covers sharing is enough. */
  lemma SharingConflictsOrdered(s: Setup)
    requires WellPlanned(s) && SharingConflicts(s)
    ensures SharingOrdered(s)
  {
    forall i, j | 0 <= i < j < |s.steps| && Needs(s, i) * Needs(s, j) != {} ensures Precedes(s, i, j) {
      DependsOnConflicting(s, i, j);
    }
  }

  lemma WaitedNext(s: Setup, st: State, a: Action)
    requires WellPlanned(s) && Waited(s, st.status) && Enabled(s, st, a)
    ensures Waited(s, Next(s, st, a).status)
  {
    var after := Next(s, st, a).status;
    forall i | 0 <= i < |s.steps| && after[i] != Waiting ensures Ready(s, after, i) {
      assert Ready(s, st.status, i);
      forall j | 0 <= j < |s.steps| && DependsOn(s, i, j) ensures after[j] == Finished {
        DependenciesAreEarlier(s, i, j);
      }
    }
  }

  lemma HeldNext(s: Setup, st: State, a: Action)
    requires WellPlanned(s) && SharingOrdered(s) && Waited(s, st.status) && Held(s, st) && Enabled(s, st, a)
    ensures Held(s, Next(s, st, a))
  {
    var after := Next(s, st, a);
    if a.Claim? { NeverBusy(s, st, a.i, a.resource); }
    forall r | r in after.claims ensures Holder(s, after, r) {
      if a.Claim? && r == a.resource {
        assert s.steps[a.i].name == after.claims[r];
      } else {
        assert Holder(s, st, r);
        var j :| 0 <= j < |s.steps| && s.steps[j].name == st.claims[r] && st.status[j] == Running && r in Needs(s, j);
        assert a.Finish? ==> j != a.i;
        assert after.status[j] == Running && s.steps[j].name == after.claims[r];
      }
    }
  }

  lemma {:induction false} RunWaits(s: Setup, actions: seq<Action>, st: State)
    requires WellPlanned(s) && IsRun(s, actions, st)
    ensures Waited(s, st.status)
  {
    if actions == [] {
    } else {
      var init, a := actions[..|actions| - 1], actions[|actions| - 1];
      var before :| IsRun(s, init, before) && Enabled(s, before, a) && st == Next(s, before, a);
      RunWaits(s, init, before);
      WaitedNext(s, before, a);
    }
  }

  lemma {:induction false} RunHolds(s: Setup, actions: seq<Action>, st: State)
    requires WellPlanned(s) && SharingOrdered(s) && IsRun(s, actions, st)
    ensures Held(s, st)
  {
    if actions == [] {
    } else {
      var init, a := actions[..|actions| - 1], actions[|actions| - 1];
      var before :| IsRun(s, init, before) && Enabled(s, before, a) && st == Next(s, before, a);
      RunWaits(s, init, before);
      RunHolds(s, init, before);
      HeldNext(s, before, a);
    }
  }

  // --------------------------------------------------------- main results

  /** Schedule safety: in every run, no two conflicting workers are ever running at once. */
  lemma ScheduleSafety(s: Setup, actions: seq<Action>, st: State)
    requires WellPlanned(s) && IsRun(s, actions, st)
    ensures |st.status| == |s.steps|
    ensures forall i, j :: 0 <= i < j < |s.steps| && st.status[i] == Running && st.status[j] == Running ==>
                             !Conflict(s.pairs, s.steps[i].name, s.steps[j].name)
  {
    RunWaits(s, actions, st);
    forall i, j | 0 <= i < j < |s.steps| && st.status[i] == Running && st.status[j] == Running
      ensures !Conflict(s.pairs, s.steps[i].name, s.steps[j].name)
    {
      NoConflictRunning(s, st, i, j);
    }
  }

  /** In no run is a running worker refused a resource it needs. */
  ghost predicate NeverRefused(s: Setup) {
    forall actions, st, i, r {:trigger IsRun(s, actions, st), Claimed(st.claims, r, s.steps[i].name)} ::
      IsRun(s, actions, st) && 0 <= i < |s.steps| && Enabled(s, st, Claim(i, r)) ==> Claimed(st.claims, r, s.steps[i].name).Ok?
  }

  /**
   Planning agrees with arbitration, exactly: no claim is ever refused in any run if and only if
   every two steps that share a resource are ordered by the plan's dependencies.
   */
  lemma ArbitrationAgrees(s: Setup)
    requires WellPlanned(s)
    ensures NeverRefused(s) <==> SharingOrdered(s)
  {
    if SharingOrdered(s) {
      forall actions, st, i, r | IsRun(s, actions, st) && 0 <= i < |s.steps| && Enabled(s, st, Claim(i, r))
        ensures Claimed(st.claims, r, s.steps[i].name).Ok?
      {
        RunWaits(s, actions, st);
        RunHolds(s, actions, st);
        NeverBusy(s, st, i, r);
      }
    } else {
      var i, j :| 0 <= i < j < |s.steps| && Needs(s, i) * Needs(s, j) != {} && !Precedes(s, i, j);
      var r :| r in Needs(s, i) * Needs(s, j);
      var actions, st := RefusedRun(s, i, j, r);
      assert IsRun(s, actions, st) && !Claimed(st.claims, r, s.steps[j].name).Ok?;
    }
  }

  /** Planning agrees with arbitration for every plan whose conflict relation covers sharing. */
  lemma CoveredSharingNeverRefused(s: Setup)
    requires WellPlanned(s) && SharingConflicts(s)
    ensures NeverRefused(s)
  {
    SharingConflictsOrdered(s);
    ArbitrationAgrees(s);
  }

  // ---------------------------------------------- the run that gets refused

  lemma ExtendRun(s: Setup, actions: seq<Action>, before: State, a: Action)
    requires IsRun(s, actions, before) && Enabled(s, before, a)
    ensures IsRun(s, actions + [a], Next(s, before, a))
  {
    assert (actions + [a])[..|actions|] == actions;
  }

  lemma {:induction false} PrecedesThrough(s: Setup, d: nat, k: nat, j: nat)
    requires d < |s.steps| && k < |s.steps| && j < |s.steps|
    requires d < k && DependsOn(s, k, d) && Precedes(s, k, j)
    ensures Precedes(s, d, j)
    decreases j
  {
    var m :| 0 <= m < j && DependsOn(s, j, m) && (m == k || Precedes(s, k, m));
    if m == k {
      assert Precedes(s, d, k);
    } else {
      PrecedesThrough(s, d, k, m);
    }
  }

  lemma {:induction false} PrecedesIsEarlier(s: Setup, i: nat, j: nat)
    requires i < |s.steps| && j < |s.steps| && Precedes(s, i, j)
    ensures i < j
    decreases j
  {
    var k :| 0 <= k < j && DependsOn(s, j, k) && (k == i || Precedes(s, i, k));
    if k != i { PrecedesIsEarlier(s, i, k); }
  }

  /** A set of steps that waits for nothing outside itself. */
  ghost predicate Closed(s: Setup, steps: set<nat>) {
    forall k, d :: k in steps && k < |s.steps| && 0 <= d < |s.steps| && DependsOn(s, k, d) ==> d < k && d in steps
  }

  /** The members of `steps` below `n` are finished, nothing else has started, nothing is claimed. */
  ghost predicate Prepared(s: Setup, steps: set<nat>, n: nat, st: State) {
    && |st.status| == |s.steps| && st.claims == map[]
    && forall m :: 0 <= m < |s.steps| ==> st.status[m] == if m < n && m in steps then Finished else Waiting
  }

  /** A ready step starts and finishes while nothing is claimed. */
  lemma StartAndFinish(s: Setup, before: seq<Action>, st: State, k: nat) returns (actions: seq<Action>, after: State)
    requires IsRun(s, before, st) && |st.status| == |s.steps| && st.claims == map[]
    requires k < |s.steps| && st.status[k] == Waiting && Ready(s, st.status, k)
    ensures IsRun(s, actions, after) && after == st.(status := st.status[k := Finished])
  {
    var running := Next(s, st, Start(k));
    ExtendRun(s, before, st, Start(k));
    ExtendRun(s, before + [Start(k)], running, Finish(k));
    actions, after := before + [Start(k)] + [Finish(k)], Next(s, running, Finish(k));
    assert st.status[k := Running][k := Finished] == st.status[k := Finished];
  }

  /** A run that finishes exactly the members of a closed set below `n`. */
  lemma {:induction false} PreparedRun(s: Setup, steps: set<nat>, n: nat) returns (actions: seq<Action>, st: State)
    requires Closed(s, steps) && n <= |s.steps|
    ensures IsRun(s, actions, st) && Prepared(s, steps, n, st)
  {
    if n == 0 {
      actions, st := [], Initial(s);
    } else {
      actions, st := PreparedRun(s, steps, n - 1);
      if n - 1 in steps {
        assert Ready(s, st.status, n - 1);
        actions, st := StartAndFinish(s, actions, st, n - 1);
      }
    }
  }

  /** Whatever `i` or `j` waits for. */
  ghost function Needed(s: Setup, i: nat, j: nat): set<nat>
    requires i < |s.steps| && j < |s.steps|
  {
    set m | 0 <= m < |s.steps| && (Precedes(s, m, i) || Precedes(s, m, j))
  }

  lemma NeededStep(s: Setup, i: nat, j: nat, k: nat, d: nat)
    requires WellPlanned(s) && i < |s.steps| && j < |s.steps| && d < |s.steps| && k < |s.steps| && DependsOn(s, k, d)
    requires k == i || k == j || k in Needed(s, i, j)
    ensures d < k && d in Needed(s, i, j)
  {
    DependenciesAreEarlier(s, k, d);
    if k == i || k == j {
      assert Precedes(s, d, k);
    } else if Precedes(s, k, i) {
      PrecedesThrough(s, d, k, i);
    } else {
      PrecedesThrough(s, d, k, j);
    }
  }

  lemma NeededIsClosed(s: Setup, i: nat, j: nat)
    requires WellPlanned(s) && i < |s.steps| && j < |s.steps|
    ensures Closed(s, Needed(s, i, j))
  {
    forall k, d | k in Needed(s, i, j) && k < |s.steps| && 0 <= d < |s.steps| && DependsOn(s, k, d)
      ensures d < k && d in Needed(s, i, j)
    {
      NeededStep(s, i, j, k, d);
    }
  }

  /** Neither of two unordered steps is needed for the other. */
  lemma PairNotNeeded(s: Setup, i: nat, j: nat)
    requires i < j < |s.steps| && !Precedes(s, i, j)
    ensures i !in Needed(s, i, j) && j !in Needed(s, i, j)
  {
    if Precedes(s, i, i) { PrecedesIsEarlier(s, i, i); }
    if Precedes(s, j, i) { PrecedesIsEarlier(s, j, i); }
    if Precedes(s, j, j) { PrecedesIsEarlier(s, j, j); }
  }

  /** Once everything needed is finished, either of the pair may start. */
  lemma StartPrepared(s: Setup, i: nat, j: nat, k: nat, actions: seq<Action>, st: State)
    requires WellPlanned(s) && i < j < |s.steps| && (k == i || k == j)
    requires IsRun(s, actions, st) && |st.status| == |s.steps| && st.status[k] == Waiting
    requires forall m :: m in Needed(s, i, j) ==> m < |st.status| && st.status[m] == Finished
    ensures Enabled(s, st, Start(k)) && IsRun(s, actions + [Start(k)], Next(s, st, Start(k)))
  {
    forall d | 0 <= d < |s.steps| && DependsOn(s, k, d) ensures st.status[d] == Finished {
      NeededStep(s, i, j, k, d);
    }
    ExtendRun(s, actions, st, Start(k));
  }

  /** Two unordered steps can run together, with nothing claimed. */
  lemma RunTogether(s: Setup, i: nat, j: nat) returns (actions: seq<Action>, st: State)
    requires WellPlanned(s) && i < j < |s.steps| && !Precedes(s, i, j)
    ensures IsRun(s, actions, st) && st.claims == map[]
    ensures |st.status| == |s.steps| && st.status[i] == Running && st.status[j] == Running
  {
    NeededIsClosed(s, i, j);
    PairNotNeeded(s, i, j);
    actions, st := PreparedRun(s, Needed(s, i, j), |s.steps|);
    StartPrepared(s, i, j, i, actions, st);
    actions, st := actions + [Start(i)], Next(s, st, Start(i));
    StartPrepared(s, i, j, j, actions, st);
    actions, st := actions + [Start(j)], Next(s, st, Start(j));
  }

  /** If they share a resource, the second claim is then refused. */
  lemma RefusedRun(s: Setup, i: nat, j: nat, r: Resource) returns (actions: seq<Action>, st: State)
    requires WellPlanned(s) && i < j < |s.steps| && !Precedes(s, i, j)
    requires r in Needs(s, i) && r in Needs(s, j)
    ensures IsRun(s, actions, st) && Enabled(s, st, Claim(j, r))
    ensures Claimed(st.claims, r, s.steps[j].name) == Err(ResourceBusy(s.steps[i].name))
  {
    actions, st := RunTogether(s, i, j);
    ExtendRun(s, actions, st, Claim(i, r));
    actions, st := actions + [Claim(i, r)], Next(s, st, Claim(i, r));
    if s.steps[i].name == s.steps[j].name { SameNameSameStep(s, i, j); }
  }

  lemma {:induction false} FirstUnfinished(status: seq<Status>) returns (i: nat)
    requires exists k :: 0 <= k < |status| && status[k] != Finished
    ensures i < |status| && status[i] != Finished
    ensures forall j :: 0 <= j < i ==> status[j] == Finished
  {
    i := 0;
    while status[i] == Finished
      invariant i < |status|
      invariant forall j :: 0 <= j < i ==> status[j] == Finished
      decreases |status| - i
    {
      i := i + 1;
    }
  }

  /** Progress: as long as a step is unfinished, some step is running or may start. */
  lemma ScheduleProgress(s: Setup, actions: seq<Action>, st: State) returns (i: nat)
    requires WellPlanned(s) && IsRun(s, actions, st)
    requires exists k :: 0 <= k < |st.status| && st.status[k] != Finished
    ensures i < |st.status| == |s.steps|
    ensures st.status[i] == Running || Enabled(s, st, Start(i))
  {
    RunWaits(s, actions, st);
    i := FirstUnfinished(st.status);
    forall j | 0 <= j < |s.steps| && DependsOn(s, i, j) ensures st.status[j] == Finished {
      DependenciesAreEarlier(s, i, j);
    }
  }

  /** The steps still to be started and finished. */
  ghost function Remaining(status: seq<Status>): nat {
    if status == [] then 0
    else Remaining(status[..|status| - 1])
         + match status[|status| - 1] case Waiting => 2 case Running => 1 case Finished => 0
  }

  lemma {:induction false} RemainingUpdate(status: seq<Status>, i: nat, to: Status)
    requires i < |status|
    requires (status[i] == Waiting && to == Running) || (status[i] == Running && to == Finished)
    ensures Remaining(status[i := to]) == Remaining(status) - 1
  {
    var n := |status| - 1;
    var updated := status[i := to];
    if i == n {
      assert updated[..n] == status[..n];
    } else {
      RemainingUpdate(status[..n], i, to);
      assert updated[..n] == status[..n][i := to];
    }
  }

  lemma {:induction false} RemainingInitially(n: nat)
    ensures Remaining(seq(n, _ => Waiting)) == 2 * n
  {
    if n == 0 {
    } else {
      RemainingInitially(n - 1);
      assert seq(n, _ => Waiting)[..n - 1] == seq(n - 1, _ => Waiting);
    }
  }

  ghost function Moves(actions: seq<Action>): nat {
    if actions == [] then 0
    else Moves(actions[..|actions| - 1]) + if actions[|actions| - 1].Start? || actions[|actions| - 1].Finish? then 1 else 0
  }

  /** Every run makes at most two moves per step, and exactly that many once everything is finished. */
  lemma {:induction false} RunLength(s: Setup, actions: seq<Action>, st: State)
    requires IsRun(s, actions, st)
    ensures |st.status| == |s.steps| && Moves(actions) + Remaining(st.status) == 2 * |s.steps|
  {
    if actions == [] {
      RemainingInitially(|s.steps|);
    } else {
      var init, a := actions[..|actions| - 1], actions[|actions| - 1];
      var before :| IsRun(s, init, before) && Enabled(s, before, a) && st == Next(s, before, a);
      RunLength(s, init, before);
      match a
      case Start(i) => RemainingUpdate(before.status, i, Running);
      case Finish(i) => RemainingUpdate(before.status, i, Finished);
      case _ =>
    }
  }
}
