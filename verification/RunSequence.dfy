/**
 Global run numbering (data/storage.py, `_allocate_sequence_number` and `_new_run_id`).

 Any number of storage instances allocate from one counter row. Every SQL statement is a step
 of its own, so the instances interleave freely; a write transaction is exclusive from BEGIN
 IMMEDIATE to its commit or rollback, and every statement may fail. A failed commit leaves the
 transaction open until the connection commits or closes later.
 */
module RunSequence {
  import opened Results

  const MAX_RETRIES: nat := 5

  /** Where one instance is in its allocation; `attempt` counts the retry loop's iterations. */
  datatype Phase =
    | Idle
    | Trying(attempt: nat)
    | Begun(attempt: nat)
    | Fetched(attempt: nat, value: nat)
    | Updated(attempt: nat, value: nat)
    | Returned(value: nat)
    | Raised
    | FellThrough   // the loop ended without returning or raising

  /** `next` is the committed counter, `owner` the instance whose write transaction is open, `pending` its uncommitted increment. */
  datatype State = State(next: nat, owner: Option<nat>, pending: bool, phases: seq<Phase>, returned: seq<nat>)

  datatype Action =
    | Call(i: nat)
    | Begin(i: nat)
    | BeginFails(i: nat)
    | Fetch(i: nat)
    | Update(i: nat)
    | StatementFails(i: nat, lockError: bool, rolledBack: bool)
    | Commit(i: nat)
    | CommitFails(i: nat, lockError: bool)
    | LeaveLoop(i: nat)
    | LateCommit(i: nat)
    | LateRollback(i: nat)

  /** The `except OperationalError` branch: sleep and retry, or re-raise on the last attempt. */
  function AfterLockError(attempt: nat): Phase {
    if attempt == MAX_RETRIES - 1 then Raised else Trying(attempt + 1)
  }

  predicate InTransaction(p: Phase) {
    p.Begun? || p.Fetched? || p.Updated?
  }

  predicate Enabled(st: State, a: Action) {
    a.i < |st.phases|
    && var p := st.phases[a.i];
       match a
       case Call(_) => p.Idle? || p.Returned? || p.Raised?
       case Begin(_) => p.Trying? && p.attempt < MAX_RETRIES && st.owner.None?
       case BeginFails(_) => p.Trying? && p.attempt < MAX_RETRIES
       case Fetch(_) => p.Begun?
       case Update(_) => p.Fetched?
       case StatementFails(_, _, _) => p.Begun? || p.Fetched?
       case Commit(_) => p.Updated?
       case CommitFails(_, _) => p.Updated?
       case LeaveLoop(_) => p.Trying? && p.attempt >= MAX_RETRIES
       case LateCommit(i) => !InTransaction(p) && st.owner == Some(i)
       case LateRollback(i) => !InTransaction(p) && st.owner == Some(i)
  }

  function Next(st: State, a: Action): State
    requires Enabled(st, a)
  {
    var p := st.phases[a.i];
    var here := (q: Phase) => st.(phases := st.phases[a.i := q]);
    match a
    case Call(_) => here(Trying(0))
    case Begin(i) => here(Begun(p.attempt)).(owner := Some(i), pending := false)
    case BeginFails(_) => here(AfterLockError(p.attempt))
    case Fetch(_) => here(Fetched(p.attempt, st.next))
    case Update(_) => here(Updated(p.attempt, p.value)).(pending := true)
    case StatementFails(_, lockError, rolledBack) =>
      var failed := here(if lockError then AfterLockError(p.attempt) else Raised);
      if rolledBack then failed.(owner := None, pending := false) else failed
    case Commit(_) =>
      here(Returned(p.value)).(next := st.next + 1, owner := None, pending := false, returned := st.returned + [p.value])
    case CommitFails(_, lockError) => here(if lockError then AfterLockError(p.attempt) else Raised)
    case LeaveLoop(_) => here(FellThrough)
    case LateCommit(_) => st.(next := st.next + (if st.pending then 1 else 0), owner := None, pending := false)
    case LateRollback(_) => st.(owner := None, pending := false)
  }

  /** `instances` storage objects over a counter whose stored value is `first`. */
  function Initial(instances: nat, first: nat): State {
    State(first, None, false, seq(instances, _ => Idle), [])
  }

  function Exec(instances: nat, first: nat, actions: seq<Action>): Option<State> {
    if actions == [] then Some(Initial(instances, first))
    else
      match Exec(instances, first, actions[..|actions| - 1])
      case None => None
      case Some(st) => if Enabled(st, actions[|actions| - 1]) then Some(Next(st, actions[|actions| - 1])) else None
  }

  // -------------------------------------------------------------- invariant

  ghost predicate Increasing(s: seq<nat>) {
    forall i, j :: 0 <= i < j < |s| ==> s[i] < s[j]
  }

  /** What each phase guarantees: an open transaction is its own, and the value it read is still the counter. */
  ghost predicate PhaseInv(st: State, i: nat)
    requires i < |st.phases|
  {
    match st.phases[i]
    case Trying(a) => a < MAX_RETRIES
    case Begun(a) => a < MAX_RETRIES && st.owner == Some(i) && !st.pending
    case Fetched(a, v) => a < MAX_RETRIES && st.owner == Some(i) && !st.pending && v == st.next
    case Updated(a, v) => a < MAX_RETRIES && st.owner == Some(i) && st.pending && v == st.next
    case Returned(v) => v in st.returned
    case FellThrough => false
    case _ => true
  }

  ghost predicate Inv(st: State, first: nat) {
    && Increasing(st.returned)
    && (forall k :: 0 <= k < |st.returned| ==> first <= st.returned[k] < st.next)
    && first <= st.next
    && forall i :: 0 <= i < |st.phases| ==> PhaseInv(st, i)
  }

  lemma InvNext(st: State, first: nat, a: Action)
    requires Inv(st, first) && Enabled(st, a)
    ensures Inv(Next(st, a), first)
  {
    var after := Next(st, a);
    assert PhaseInv(st, a.i);
    forall i | 0 <= i < |after.phases| ensures PhaseInv(after, i) {
      assert PhaseInv(st, i);
    }
  }

  lemma {:induction false} RunInv(instances: nat, first: nat, actions: seq<Action>)
    requires Exec(instances, first, actions).Some?
    ensures Inv(Exec(instances, first, actions).value, first)
  {
    if actions == [] {
    } else {
      var init, a := actions[..|actions| - 1], actions[|actions| - 1];
      RunInv(instances, first, init);
      InvNext(Exec(instances, first, init).value, first, a);
    }
  }

  // ----------------------------------------------------------- main results

  /**
   Run numbers are unique in every interleaving: the numbers handed out increase in commit
   order, lie below the committed counter and are never handed out twice.
   */
  lemma RunNumbersUnique(instances: nat, first: nat, actions: seq<Action>)
    requires Exec(instances, first, actions).Some?
    ensures var st := Exec(instances, first, actions).value;
            && (forall i, j :: 0 <= i < j < |st.returned| ==> st.returned[i] < st.returned[j])
            && (forall i :: 0 <= i < |st.returned| ==> first <= st.returned[i] < st.next)
            && (forall i :: 0 <= i < |st.phases| && st.phases[i].Returned? ==> st.phases[i].value in st.returned)
  {
    RunInv(instances, first, actions);
    var st := Exec(instances, first, actions).value;
    forall i | 0 <= i < |st.phases| && st.phases[i].Returned? ensures st.phases[i].value in st.returned {
      assert PhaseInv(st, i);
    }
  }

  /** Two instances holding a number at the same time hold different ones. */
  lemma {:induction false} HoldersDiffer(instances: nat, first: nat, actions: seq<Action>, i: nat, j: nat)
    requires Exec(instances, first, actions).Some?
    requires i != j && i < |Exec(instances, first, actions).value.phases| && j < |Exec(instances, first, actions).value.phases|
    ensures var ps := Exec(instances, first, actions).value.phases;
            ps[i].Returned? && ps[j].Returned? ==> ps[i].value != ps[j].value
  {
    if actions == [] {
    } else {
      var init, a := actions[..|actions| - 1], actions[|actions| - 1];
      var before := Exec(instances, first, init).value;
      HoldersDiffer(instances, first, init, i, j);
      RunInv(instances, first, init);
      assert PhaseInv(before, i) && PhaseInv(before, j) && PhaseInv(before, a.i);
    }
  }

  /** The retry loop always ends in a number or an exception: no reachable state has fallen out of it. */
  lemma NeverFallsThrough(instances: nat, first: nat, actions: seq<Action>, i: nat)
    requires Exec(instances, first, actions).Some? && i < |Exec(instances, first, actions).value.phases|
    ensures var st := Exec(instances, first, actions).value;
            !st.phases[i].FellThrough? && !Enabled(st, LeaveLoop(i))
  {
    RunInv(instances, first, actions);
    assert PhaseInv(Exec(instances, first, actions).value, i);
  }

  /** How often the call that instance `i` is in, or was last in, has failed, with a lock error or otherwise. */
  function Failures(actions: seq<Action>, i: nat, lockError: bool): nat {
    if actions == [] then 0
    else
      var a := actions[|actions| - 1];
      if a == Call(i) then 0
      else
        Failures(actions[..|actions| - 1], i, lockError)
        + match a
          case BeginFails(j) => if i == j && lockError then 1 else 0
          case StatementFails(j, locked, _) => if i == j && lockError == locked then 1 else 0
          case CommitFails(j, locked) => if i == j && lockError == locked then 1 else 0
          case _ => 0
  }

  ghost predicate Retried(p: Phase, lockErrors: nat, otherErrors: nat) {
    match p
    case Idle => true
    case Trying(a) => a == lockErrors < 5 && otherErrors == 0
    case Begun(a) => a == lockErrors < 5 && otherErrors == 0
    case Fetched(a, _) => a == lockErrors < 5 && otherErrors == 0
    case Updated(a, _) => a == lockErrors < 5 && otherErrors == 0
    case Returned(_) => lockErrors < 5 && otherErrors == 0
    case Raised => (lockErrors == 5 && otherErrors == 0) || (lockErrors < 5 && otherErrors == 1)
    case FellThrough => false
  }

  /**
   The retry policy over whole runs: a call raises exactly after its fifth lock error or after its
   first error of another kind, and until then it goes on trying; in every interleaving.
   */
  lemma {:induction false} RetriesExactly(instances: nat, first: nat, actions: seq<Action>, i: nat)
    requires Exec(instances, first, actions).Some? && i < |Exec(instances, first, actions).value.phases|
    ensures Retried(Exec(instances, first, actions).value.phases[i], Failures(actions, i, true), Failures(actions, i, false))
  {
    if actions == [] {
    } else {
      var init, a := actions[..|actions| - 1], actions[|actions| - 1];
      var before := Exec(instances, first, init).value;
      RetriesExactly(instances, first, init, i);
      RunInv(instances, first, init);
      assert PhaseInv(before, i);
    }
  }

  /** Late commits: the connection commits an increment whose own commit had failed. */
  function LateCommits(actions: seq<Action>): nat {
    if actions == [] then 0
    else LateCommits(actions[..|actions| - 1]) + if actions[|actions| - 1].LateCommit? then 1 else 0
  }

  /**
   Nothing but an allocation or a late commit moves the counter, and by one: numbers are skipped
   only by late commits, and without them they are `first`, `first` + 1 and so on.
   */
  lemma {:induction false} NumbersAreConsecutive(instances: nat, first: nat, actions: seq<Action>)
    requires Exec(instances, first, actions).Some?
    ensures var st := Exec(instances, first, actions).value;
            && first + |st.returned| <= st.next <= first + |st.returned| + LateCommits(actions)
            && (LateCommits(actions) == 0 ==> forall k :: 0 <= k < |st.returned| ==> st.returned[k] == first + k)
  {
    if actions == [] {
    } else {
      var init, a := actions[..|actions| - 1], actions[|actions| - 1];
      NumbersAreConsecutive(instances, first, init);
      RunInv(instances, first, init);
      assert PhaseInv(Exec(instances, first, init).value, a.i);
    }
  }

  // ---------------------------------------------------------------- run ids

  function DecimalDigit(d: nat): char
    requires d < 10
  {
    ('0' as int + d) as char
  }

  /** `f"{n:0<width>d}"`. */
  function Padded(n: nat, width: nat): string
    decreases width + n
  {
    if n < 10 && width <= 1 then [DecimalDigit(n)]
    else Padded(n / 10, if width == 0 then 0 else width - 1) + [DecimalDigit(n % 10)]
  }

  function DecimalValue(s: string): int {
    if s == "" then 0 else 10 * DecimalValue(s[..|s| - 1]) + (s[|s| - 1] as int - '0' as int)
  }

  lemma {:induction false} PaddedValue(n: nat, width: nat)
    ensures DecimalValue(Padded(n, width)) == n
    decreases width + n
  {
    var s := Padded(n, width);
    if n < 10 && width <= 1 {
      assert s[..|s| - 1] == "";
    } else {
      var w := if width == 0 then 0 else width - 1;
      PaddedValue(n / 10, w);
      assert s[..|s| - 1] == Padded(n / 10, w);
    }
  }

  /** `_new_run_id`: the station prefix and the number padded to eight digits. */
  function RunId(station: string, n: nat): string {
    station + "-" + Padded(n, 8)
  }

  /** Distinct numbers give distinct run ids, also beyond eight digits. */
  lemma RunIdsDistinct(station: string, m: nat, n: nat)
    ensures RunId(station, m) == RunId(station, n) ==> m == n
  {
    if RunId(station, m) == RunId(station, n) {
      assert RunId(station, m)[|station| + 1..] == Padded(m, 8);
      assert RunId(station, n)[|station| + 1..] == Padded(n, 8);
      PaddedValue(m, 8);
      PaddedValue(n, 8);
    }
  }

  /** In every interleaving, the run ids made from the numbers handed out are pairwise distinct. */
  lemma RunIdsUnique(instances: nat, first: nat, actions: seq<Action>, station: string, i: nat, j: nat)
    requires Exec(instances, first, actions).Some?
    requires i < j < |Exec(instances, first, actions).value.returned|
    ensures var returned := Exec(instances, first, actions).value.returned;
            RunId(station, returned[i]) != RunId(station, returned[j])
  {
    RunNumbersUnique(instances, first, actions);
    var returned := Exec(instances, first, actions).value.returned;
    RunIdsDistinct(station, returned[i], returned[j]);
  }
}
