/**
 Execution planning (orchestration/execution_plan.py): greedy first-fit batches over the
 conflict graph, ordered steps and their dependencies.

 Workers have distinct names (they are keyed by SMU); the conflict relation is any set of
 pairs, read symmetrically.
 */
module ExecutionPlanning {
  import opened Collections
  import opened Results

  type Name = string

  datatype Worker = Worker(name: Name, groups: seq<string>)

  datatype Step = Step(name: Name, groups: seq<string>, dependsOn: seq<Name>)

  datatype Plan = Plan(steps: seq<Step>, batches: seq<seq<Name>>, excluded: seq<Name>)

  type Pairs = set<(Name, Name)>

  predicate Conflict(pairs: Pairs, a: Name, b: Name) {
    (a, b) in pairs || (b, a) in pairs
  }

  function Names(ws: seq<Worker>): (ns: seq<Name>)
    ensures |ns| == |ws| && forall i :: 0 <= i < |ws| ==> ns[i] == ws[i].name
  {
    seq(|ws|, i requires 0 <= i < |ws| => ws[i].name)
  }

  predicate Selected(w: Worker, enabled: Option<set<Name>>) {
    enabled.None? || w.name in enabled.value
  }

  /** The workers the caller selected, in discovery order. */
  function Included(ws: seq<Worker>, enabled: Option<set<Name>>): seq<Worker> {
    if ws == [] then []
    else
      var rest := Included(ws[..|ws| - 1], enabled);
      if Selected(ws[|ws| - 1], enabled) then rest + [ws[|ws| - 1]] else rest
  }

  /** The names left out, in discovery order. */
  function Excluded(ws: seq<Worker>, enabled: Option<set<Name>>): seq<Name> {
    if ws == [] then []
    else
      var rest := Excluded(ws[..|ws| - 1], enabled);
      if Selected(ws[|ws| - 1], enabled) then rest else rest + [ws[|ws| - 1].name]
  }

  predicate ConflictsWith(pairs: Pairs, name: Name, others: seq<Name>) {
    exists i :: 0 <= i < |others| && Conflict(pairs, name, others[i])
  }

  function Flatten(batches: seq<seq<Name>>): seq<Name> {
    if batches == [] then [] else Flatten(batches[..|batches| - 1]) + batches[|batches| - 1]
  }

  /** The names of `others` that conflict with `name`, in their order. */
  function ConflictingIn(pairs: Pairs, name: Name, others: seq<Name>): seq<Name> {
    if others == [] then []
    else
      var rest := ConflictingIn(pairs, name, others[..|others| - 1]);
      if Conflict(pairs, name, others[|others| - 1]) then rest + [others[|others| - 1]] else rest
  }

  /** Position of the first batch, from `k` on, that `name` can join; the number of batches if none. */
  function FirstFree(pairs: Pairs, batches: seq<seq<Name>>, name: Name, k: nat): (r: nat)
    requires k <= |batches|
    ensures k <= r <= |batches|
    ensures forall j :: k <= j < r ==> ConflictsWith(pairs, name, batches[j])
    ensures r < |batches| ==> !ConflictsWith(pairs, name, batches[r])
    decreases |batches| - k
  {
    if k == |batches| || !ConflictsWith(pairs, name, batches[k]) then k
    else FirstFree(pairs, batches, name, k + 1)
  }

  /** `batches` with `name` placed in the first batch it does not conflict with. */
  function Place(pairs: Pairs, batches: seq<seq<Name>>, name: Name): seq<seq<Name>> {
    var k := FirstFree(pairs, batches, name, 0);
    if k == |batches| then batches + [[name]] else batches[k := batches[k] + [name]]
  }

  /** First-fit colouring of `names` in order. */
  function Greedy(pairs: Pairs, names: seq<Name>): seq<seq<Name>> {
    if names == [] then [] else Place(pairs, Greedy(pairs, names[..|names| - 1]), names[|names| - 1])
  }

  // -------------------------------------------------- what the colouring is

  ghost predicate InSomeBatch(batches: seq<seq<Name>>, name: Name) {
    exists k :: 0 <= k < |batches| && name in batches[k]
  }

  /** Batches that hold exactly `names`, each once. */
  ghost predicate Partitions(batches: seq<seq<Name>>, names: seq<Name>) {
    && (forall name :: InSomeBatch(batches, name) <==> name in names)
    && (forall k :: 0 <= k < |batches| ==> batches[k] != [] && Distinct(batches[k]))
    && (forall j, k, name :: 0 <= j < k < |batches| && name in batches[j] ==> name !in batches[k])
  }

  /** No batch holds a conflict. */
  ghost predicate Independent(pairs: Pairs, batches: seq<seq<Name>>) {
    forall k, i, j :: 0 <= k < |batches| && 0 <= i < j < |batches[k]| ==> !Conflict(pairs, batches[k][j], batches[k][i])
  }

  /** Every worker conflicts with some worker of every earlier batch. */
  ghost predicate Blocked(pairs: Pairs, batches: seq<seq<Name>>) {
    forall j, k, i :: 0 <= j < k < |batches| && 0 <= i < |batches[k]| ==> ConflictsWith(pairs, batches[k][i], batches[j])
  }

  lemma {:induction false} PlaceKeeps(pairs: Pairs, batches: seq<seq<Name>>, names: seq<Name>, name: Name)
    requires Partitions(batches, names) && Independent(pairs, batches) && Blocked(pairs, batches)
    requires name !in names
    ensures Partitions(Place(pairs, batches, name), names + [name])
    ensures Independent(pairs, Place(pairs, batches, name)) && Blocked(pairs, Place(pairs, batches, name))
  {
    forall b | 0 <= b < |batches| ensures name !in batches[b] {
      assert InSomeBatch(batches, name) <==> name in names;
    }
    PlacePartitions(batches, Place(pairs, batches, name), names, name, FirstFree(pairs, batches, name, 0));
    PlaceBlocked(pairs, batches, name);
    PlaceIndependent(pairs, batches, name);
  }

  lemma PlaceBlocked(pairs: Pairs, batches: seq<seq<Name>>, name: Name)
    requires Blocked(pairs, batches)
    ensures Blocked(pairs, Place(pairs, batches, name))
  {
    var k := FirstFree(pairs, batches, name, 0);
    var placed := Place(pairs, batches, name);
    forall j, c, i | 0 <= j < c < |placed| && 0 <= i < |placed[c]|
      ensures ConflictsWith(pairs, placed[c][i], placed[j])
    {
      if c == k && i == |placed[c]| - 1 {
        assert placed[j] == batches[j] && placed[c][i] == name;
      } else {
        assert ConflictsWith(pairs, batches[c][i], batches[j]);
        var u :| 0 <= u < |batches[j]| && Conflict(pairs, batches[c][i], batches[j][u]);
        assert placed[j][u] == batches[j][u];
      }
    }
  }

  lemma PlaceIndependent(pairs: Pairs, batches: seq<seq<Name>>, name: Name)
    requires Independent(pairs, batches)
    ensures Independent(pairs, Place(pairs, batches, name))
  {
    var k := FirstFree(pairs, batches, name, 0);
    var placed := Place(pairs, batches, name);
    forall c, i, j | 0 <= c < |placed| && 0 <= i < j < |placed[c]|
      ensures !Conflict(pairs, placed[c][j], placed[c][i])
    {
      if c == k && j == |placed[c]| - 1 {
        assert placed[c][i] == batches[c][i] && placed[c][j] == name;
      } else {
        assert placed[c][i] == batches[c][i] && placed[c][j] == batches[c][j];
      }
    }
  }

  lemma PlacePartitions(batches: seq<seq<Name>>, placed: seq<seq<Name>>, names: seq<Name>, name: Name, k: nat)
    requires Partitions(batches, names) && k <= |batches|
    requires forall b :: 0 <= b < |batches| ==> name !in batches[b]
    requires placed == if k == |batches| then batches + [[name]] else batches[k := batches[k] + [name]]
    ensures Partitions(placed, names + [name])
  {
    forall n ensures InSomeBatch(placed, n) <==> n in names + [name] {
      assert InSomeBatch(batches, n) <==> n in names;
      if InSomeBatch(placed, n) {
        var b :| 0 <= b < |placed| && n in placed[b];
        if n != name { assert b < |batches| && n in batches[b]; }
      }
      if InSomeBatch(batches, n) {
        var b :| 0 <= b < |batches| && n in batches[b];
        assert n in placed[b];
      }
      if n == name { assert name in placed[k]; }
    }
  }

  /** First-fit colouring: a partition into independent batches, each worker blocked by every earlier batch. */
  lemma {:induction false} GreedyIsFirstFit(pairs: Pairs, names: seq<Name>)
    requires Distinct(names)
    ensures Partitions(Greedy(pairs, names), names)
    ensures Independent(pairs, Greedy(pairs, names)) && Blocked(pairs, Greedy(pairs, names))
  {
    if names == [] {
    } else {
      var init, last := names[..|names| - 1], names[|names| - 1];
      GreedyIsFirstFit(pairs, init);
      PlaceKeeps(pairs, Greedy(pairs, init), init, last);
      assert init + [last] == names;
    }
  }

  /** The workers `name` conflicts with. */
  ghost function Neighbours(pairs: Pairs, names: seq<Name>, name: Name): set<Name> {
    set other | other in names && Conflict(pairs, name, other)
  }

  /** One conflicting worker from each of the first `k` batches. */
  lemma {:induction false} Blockers(pairs: Pairs, batches: seq<seq<Name>>, names: seq<Name>, c: nat, k: nat) returns (found: set<Name>)
    requires Partitions(batches, names) && Blocked(pairs, batches)
    requires k <= c < |batches|
    ensures |found| == k && found <= Neighbours(pairs, names, batches[c][0])
    ensures forall n :: n in found ==> exists j :: 0 <= j < k && n in batches[j]
  {
    if k == 0 {
      found := {};
    } else {
      var before := Blockers(pairs, batches, names, c, k - 1);
      assert ConflictsWith(pairs, batches[c][0], batches[k - 1]);
      var u :| 0 <= u < |batches[k - 1]| && Conflict(pairs, batches[c][0], batches[k - 1][u]);
      var n := batches[k - 1][u];
      assert InSomeBatch(batches, n);
      assert n !in before;
      found := before + {n};
    }
  }

  /** Colour bound: there are at most (largest degree + 1) batches. */
  lemma BatchBound(pairs: Pairs, names: seq<Name>, degree: nat)
    requires Distinct(names)
    requires forall n :: n in names ==> |Neighbours(pairs, names, n)| <= degree
    ensures |Greedy(pairs, names)| <= degree + 1
  {
    var batches := Greedy(pairs, names);
    GreedyIsFirstFit(pairs, names);
    if batches != [] {
      var c := |batches| - 1;
      var w := batches[c][0];
      assert InSomeBatch(batches, w);
      var found := Blockers(pairs, batches, names, c, c);
      SubsetSize(found, Neighbours(pairs, names, w));
    }
  }

  // ---------------------------------------------------------------- steps

  /** The step order lists the batches one after the other. */
  ghost function StepNames(steps: seq<Step>): (ns: seq<Name>)
    ensures |ns| == |steps| && forall i :: 0 <= i < |steps| ==> ns[i] == steps[i].name
  {
    seq(|steps|, i requires 0 <= i < |steps| => steps[i].name)
  }

  /** Each step waits for exactly the conflicting workers scheduled before it, in schedule order. */
  ghost predicate WaitsForEarlier(pairs: Pairs, steps: seq<Step>) {
    forall i :: 0 <= i < |steps| ==> steps[i].dependsOn == ConflictingIn(pairs, steps[i].name, StepNames(steps)[..i])
  }

  /** A valid step order: every name once, each after the conflicting ones it waits for. */
  ghost predicate Ordered(pairs: Pairs, steps: seq<Step>) {
    Distinct(StepNames(steps)) && WaitsForEarlier(pairs, steps)
  }

  lemma {:induction false} ConflictingAppend(pairs: Pairs, name: Name, a: seq<Name>, b: seq<Name>)
    ensures ConflictingIn(pairs, name, a + b) == ConflictingIn(pairs, name, a) + ConflictingIn(pairs, name, b)
  {
    if b == [] {
      assert a + b == a;
    } else {
      ConflictingAppend(pairs, name, a, b[..|b| - 1]);
      assert (a + b)[..|a + b| - 1] == a + b[..|b| - 1];
    }
  }

  lemma {:induction false} NoneConflicting(pairs: Pairs, name: Name, others: seq<Name>)
    requires forall i :: 0 <= i < |others| ==> !Conflict(pairs, name, others[i])
    ensures ConflictingIn(pairs, name, others) == []
  {
    if others == [] {
    } else {
      NoneConflicting(pairs, name, others[..|others| - 1]);
    }
  }

  lemma {:induction false} ConflictingMembers(pairs: Pairs, name: Name, others: seq<Name>, n: Name)
    requires Distinct(others)
    ensures n in ConflictingIn(pairs, name, others) <==> n in others && Conflict(pairs, name, n)
    ensures Distinct(ConflictingIn(pairs, name, others))
  {
    if others == [] {
    } else {
      var init, last := others[..|others| - 1], others[|others| - 1];
      ConflictingMembers(pairs, name, init, n);
      ConflictingMembers(pairs, name, init, last);
      assert others == init + [last];
    }
  }

  /** Batch by batch: the names of a batch stand together, after those of all earlier batches and before those of all later ones. */
  lemma {:induction false} BatchByBatch(batches: seq<seq<Name>>, b: nat)
    requires b < |batches|
    ensures Flatten(batches) == Flatten(batches[..b]) + batches[b] + Flatten(batches[b + 1..])
  {
    var init := batches[..|batches| - 1];
    if b < |init| {
      BatchByBatch(init, b);
      assert init[..b] == batches[..b] && init[b + 1..] == batches[b + 1..][..|batches| - b - 2];
    } else {
      assert batches[b + 1..] == [];
    }
  }

  lemma {:induction false} FlattenMembers(batches: seq<seq<Name>>, n: Name)
    ensures n in Flatten(batches) <==> InSomeBatch(batches, n)
  {
    if batches == [] {
    } else {
      var init := batches[..|batches| - 1];
      FlattenMembers(init, n);
      assert forall k :: 0 <= k < |init| ==> init[k] == batches[k];
    }
  }

  /** A partition lists every name once. */
  lemma {:induction false} FlattenDistinct(batches: seq<seq<Name>>)
    requires forall k :: 0 <= k < |batches| ==> Distinct(batches[k])
    requires forall j, k, name :: 0 <= j < k < |batches| && name in batches[j] ==> name !in batches[k]
    ensures Distinct(Flatten(batches))
  {
    if batches == [] {
    } else {
      var init, last := batches[..|batches| - 1], batches[|batches| - 1];
      FlattenDistinct(init);
      forall n | n in last ensures n !in Flatten(init) {
        FlattenMembers(init, n);
      }
      DistinctAppend(Flatten(init), last);
    }
  }

  lemma DistinctAppend(a: seq<Name>, b: seq<Name>)
    requires Distinct(a) && Distinct(b)
    requires forall n :: n in b ==> n !in a
    ensures Distinct(a + b)
  {
    forall i, j | 0 <= i < j < |a + b| ensures (a + b)[i] != (a + b)[j] {
      if i < |a| <= j {
        assert (a + b)[j] in b;
      }
    }
  }

  /** Each ordered pair of conflicting steps is recorded exactly once, as the later waiting for the earlier. */
  lemma ConflictRecordedOnce(pairs: Pairs, steps: seq<Step>, i: nat, j: nat)
    requires Ordered(pairs, steps) && i < j < |steps|
    requires Conflict(pairs, steps[i].name, steps[j].name)
    ensures multiset(steps[j].dependsOn)[steps[i].name] == 1
    ensures steps[j].name !in steps[i].dependsOn
  {
    var names := StepNames(steps);
    assert Distinct(names[..j]) && Distinct(names[..i]);
    assert names[..j][i] == steps[i].name;
    ConflictingMembers(pairs, steps[j].name, names[..j], steps[i].name);
    DistinctCount(steps[j].dependsOn, steps[i].name);
    ConflictingMembers(pairs, steps[i].name, names[..i], steps[j].name);
  }

  lemma {:induction false} DistinctCount(s: seq<Name>, n: Name)
    requires Distinct(s) && n in s
    ensures multiset(s)[n] == 1
  {
    var k :| 0 <= k < |s| && s[k] == n;
    assert s == s[..k] + [n] + s[k + 1..];
    assert n !in s[..k] && n !in s[k + 1..];
  }

  // -------------------------------------------------------------- the planner

  /** The conflict pairs between included workers. */
  function Restrict(conflicts: Pairs, names: seq<Name>): Pairs {
    set p | p in conflicts && p.0 in names && p.1 in names
  }

  /** Exactly the selected workers are included, whatever their names, and nobody is lost. */
  lemma {:induction false} IncludedExactly(ws: seq<Worker>, enabled: Option<set<Name>>, w: Worker)
    ensures w in Included(ws, enabled) <==> w in ws && Selected(w, enabled)
    ensures |Included(ws, enabled)| + |Excluded(ws, enabled)| == |ws|
  {
    if ws == [] {
    } else {
      var init, last := ws[..|ws| - 1], ws[|ws| - 1];
      IncludedExactly(init, enabled, w);
      assert w in ws <==> w in init || w == last;
    }
  }

  lemma {:induction false} IncludedDistinct(ws: seq<Worker>, enabled: Option<set<Name>>)
    requires Distinct(Names(ws))
    ensures Distinct(Names(Included(ws, enabled)))
  {
    if ws == [] {
    } else {
      var init, last := ws[..|ws| - 1], ws[|ws| - 1];
      assert Names(init) == Names(ws)[..|ws| - 1];
      IncludedDistinct(init, enabled);
      forall v | v in Included(init, enabled) ensures v.name != last.name {
        IncludedExactly(init, enabled, v);
        var k :| 0 <= k < |init| && init[k] == v;
        assert Names(ws)[k] == v.name && Names(ws)[|init|] == last.name;
      }
      AnotherName(Included(init, enabled), last);
    }
  }

  /**
   The filter, exactly: a worker is included if there is no selection or its name is selected, its
   name is excluded otherwise, and nobody is lost.
   */
  lemma IncludedMembers(ws: seq<Worker>, enabled: Option<set<Name>>, w: Worker)
    requires Distinct(Names(ws))
    ensures w in Included(ws, enabled) <==> w in ws && (enabled.None? || w.name in enabled.value)
    ensures w in ws ==> (w.name in Excluded(ws, enabled) <==> enabled.Some? && w.name !in enabled.value)
    ensures forall n :: n in Excluded(ws, enabled) ==> n in Names(ws)
    ensures Distinct(Names(Included(ws, enabled)))
    ensures |Included(ws, enabled)| + |Excluded(ws, enabled)| == |ws|
  {
    IncludedExactly(ws, enabled, w);
    IncludedDistinct(ws, enabled);
    if w in ws { ExcludedExactly(ws, enabled, w.name); }
    forall n | n in Excluded(ws, enabled) ensures n in Names(ws) {
      ExcludedExactly(ws, enabled, n);
    }
  }

  lemma {:induction false} ExcludedExactly(ws: seq<Worker>, enabled: Option<set<Name>>, n: Name)
    ensures n in Excluded(ws, enabled) <==> n in Names(ws) && enabled.Some? && n !in enabled.value
  {
    if ws == [] {
    } else {
      var init := ws[..|ws| - 1];
      ExcludedExactly(init, enabled, n);
      assert Names(ws) == Names(init) + [ws[|ws| - 1].name];
    }
  }

  /** `part` can be had from `whole` by leaving names out. */
  ghost predicate KeepsOrder(part: seq<Name>, whole: seq<Name>) {
    || part == []
    || (whole != []
        && (KeepsOrder(part, whole[..|whole| - 1])
            || (part[|part| - 1] == whole[|whole| - 1] && KeepsOrder(part[..|part| - 1], whole[..|whole| - 1]))))
  }

  lemma KeepsOrderAppend(part: seq<Name>, whole: seq<Name>, name: Name)
    requires KeepsOrder(part, whole)
    ensures KeepsOrder(part, whole + [name]) && KeepsOrder(part + [name], whole + [name])
  {
    assert (whole + [name])[..|whole|] == whole && (part + [name])[..|part|] == part;
  }

  /** Discovery order is kept by both lists and within every batch. */
  lemma {:induction false} FilterKeepsOrder(ws: seq<Worker>, enabled: Option<set<Name>>)
    ensures KeepsOrder(Names(Included(ws, enabled)), Names(ws)) && KeepsOrder(Excluded(ws, enabled), Names(ws))
  {
    if ws == [] {
    } else {
      var init, last := ws[..|ws| - 1], ws[|ws| - 1];
      FilterKeepsOrder(init, enabled);
      KeepsOrderAppend(Names(Included(init, enabled)), Names(init), last.name);
      KeepsOrderAppend(Excluded(init, enabled), Names(init), last.name);
      assert Names(init) + [last.name] == Names(ws);
      assert Names(Included(init, enabled) + [last]) == Names(Included(init, enabled)) + [last.name];
    }
  }

  lemma {:induction false} BatchesKeepOrder(pairs: Pairs, names: seq<Name>, k: nat)
    requires k < |Greedy(pairs, names)|
    ensures KeepsOrder(Greedy(pairs, names)[k], names)
  {
    var init, last := names[..|names| - 1], names[|names| - 1];
    var before := Greedy(pairs, init);
    assert names == init + [last];
    if k < |before| {
      BatchesKeepOrder(pairs, init, k);
      KeepsOrderAppend(before[k], init, last);
    } else {
      KeepsOrderAppend([], init, last);
      assert [] + [last] == [last];
    }
  }

  /** What a step waits for is listed in schedule order. */
  lemma {:induction false} ConflictingKeepsOrder(pairs: Pairs, name: Name, others: seq<Name>)
    ensures KeepsOrder(ConflictingIn(pairs, name, others), others)
  {
    if others == [] {
    } else {
      var init, last := others[..|others| - 1], others[|others| - 1];
      ConflictingKeepsOrder(pairs, name, init);
      KeepsOrderAppend(ConflictingIn(pairs, name, init), init, last);
      assert init + [last] == others;
    }
  }

  /** The conflict was given as `(a, b)` or as `(b, a)`. */
  ghost predicate Given(conflicts: Pairs, a: Name, b: Name) {
    (a, b) in conflicts || (b, a) in conflicts
  }

  /** Each step waits for exactly the earlier steps that conflict with it as given. */
  ghost predicate WaitsExactly(conflicts: Pairs, steps: seq<Step>) {
    && (forall i, j :: 0 <= i < j < |steps| ==>
          (steps[i].name in steps[j].dependsOn <==> Given(conflicts, steps[i].name, steps[j].name)))
    && (forall i, j :: 0 <= j <= i < |steps| ==> steps[i].name !in steps[j].dependsOn)
    && (forall j, n :: 0 <= j < |steps| && n in steps[j].dependsOn ==> exists i :: 0 <= i < j && steps[i].name == n)
  }

  lemma DependenciesExactly(conflicts: Pairs, names: seq<Name>, steps: seq<Step>)
    requires Ordered(Restrict(conflicts, names), steps)
    requires forall i :: 0 <= i < |steps| ==> steps[i].name in names
    ensures WaitsExactly(conflicts, steps)
  {
    var pairs, order := Restrict(conflicts, names), StepNames(steps);
    forall i, j | 0 <= i < |steps| && 0 <= j < |steps|
      ensures steps[i].name in steps[j].dependsOn <==> i < j && Given(conflicts, steps[i].name, steps[j].name)
    {
      assert Distinct(order[..j]);
      ConflictingMembers(pairs, steps[j].name, order[..j], steps[i].name);
      if i < j { assert order[..j][i] == steps[i].name; }
      if steps[i].name in order[..j] {
        var k :| 0 <= k < j && order[..j][k] == steps[i].name;
        assert order[k] == order[i];
      }
    }
    forall j, n | 0 <= j < |steps| && n in steps[j].dependsOn ensures exists i :: 0 <= i < j && steps[i].name == n {
      assert Distinct(order[..j]);
      ConflictingMembers(pairs, steps[j].name, order[..j], n);
      var i :| 0 <= i < j && order[..j][i] == n;
      assert steps[i].name == n;
    }
  }

  lemma AnotherName(ws: seq<Worker>, last: Worker)
    requires Distinct(Names(ws)) && forall v :: v in ws ==> v.name != last.name
    ensures Distinct(Names(ws + [last]))
  {
    assert Names(ws + [last]) == Names(ws) + [last.name];
    forall i | 0 <= i < |ws| ensures Names(ws)[i] != last.name {
      assert ws[i] in ws;
    }
  }

  lemma SameNameSameWorker(ws: seq<Worker>)
    requires Distinct(Names(ws))
    ensures forall v, w :: v in ws && w in ws && v.name == w.name ==> v == w
  {
    forall v, w | v in ws && w in ws && v.name == w.name ensures v == w {
      var i :| 0 <= i < |ws| && ws[i] == v;
      var j :| 0 <= j < |ws| && ws[j] == w;
      assert Names(ws)[i] == Names(ws)[j];
    }
  }

  /** Placing the next worker, as the loop over batches with its `else` branch does it. */
  method PlaceWorker(pairs: Pairs, batches: seq<seq<Name>>, name: Name) returns (placed: seq<seq<Name>>)
    ensures placed == Place(pairs, batches, name)
  {
    var k := 0;
    while k < |batches|
      invariant k <= |batches|
      invariant FirstFree(pairs, batches, name, 0) == FirstFree(pairs, batches, name, k)
    {
      if !ConflictsWith(pairs, name, batches[k]) {
        return batches[k := batches[k] + [name]];
      }
      k := k + 1;
    }
    return batches + [[name]];
  }

  /** The colouring loop: every worker in order. */
  method PlaceWorkers(pairs: Pairs, included: seq<Worker>) returns (batches: seq<seq<Name>>)
    ensures batches == Greedy(pairs, Names(included))
  {
    batches := [];
    for w := 0 to |included|
      invariant batches == Greedy(pairs, Names(included)[..w])
    {
      batches := PlaceWorker(pairs, batches, included[w].name);
      assert Names(included)[..w + 1][..w] == Names(included)[..w];
    }
    assert Names(included)[..|included|] == Names(included);
  }

  /** `build_execution_plan`. */
  method BuildExecutionPlan(workers: seq<Worker>, conflicts: Pairs, enabled: Option<set<Name>>) returns (plan: Plan)
    requires Distinct(Names(workers))
    ensures plan.excluded == Excluded(workers, enabled)
    ensures var included := Included(workers, enabled);
            var names := Names(included);
            var pairs := Restrict(conflicts, names);
            && plan.batches == Greedy(pairs, names)
            && Partitions(plan.batches, names) && Independent(pairs, plan.batches) && Blocked(pairs, plan.batches)
            && StepNames(plan.steps) == Flatten(plan.batches)
            && Ordered(pairs, plan.steps) && GroupsCopied(included, plan.steps)
    ensures WaitsExactly(conflicts, plan.steps)
  {
    var included := Included(workers, enabled);
    var names := Names(included);
    var pairs := Restrict(conflicts, names);
    var batches := PlaceWorkers(pairs, included);
    assert Distinct(names) by {
      if included != [] { IncludedMembers(workers, enabled, included[0]); }
    }
    GreedyIsFirstFit(pairs, names);
    SameNameSameWorker(included);
    var workersByName := map w | w in included :: w.name := w;
    var steps := BuildSteps(included, workersByName, pairs, batches);
    forall i | 0 <= i < |steps| ensures steps[i].name in names {
      FlattenMembers(batches, StepNames(steps)[i]);
    }
    DependenciesExactly(conflicts, names, steps);
    plan := Plan(steps, batches, Excluded(workers, enabled));
  }

  /** Every step carries its own worker's groups. */
  ghost predicate GroupsCopied(included: seq<Worker>, steps: seq<Step>) {
    forall s :: s in steps ==> Worker(s.name, s.groups) in included
  }

  ghost predicate ByName(included: seq<Worker>, table: map<Name, Worker>) {
    forall n :: n in Names(included) ==> n in table && table[n].name == n && table[n] in included
  }

  /** The step list of a batching: batches one after the other, each step after its conflicting predecessors. */
  method BuildSteps(included: seq<Worker>, workersByName: map<Name, Worker>, pairs: Pairs, batches: seq<seq<Name>>)
    returns (steps: seq<Step>)
    requires ByName(included, workersByName)
    requires Partitions(batches, Names(included)) && Independent(pairs, batches)
    ensures StepNames(steps) == Flatten(batches) && Ordered(pairs, steps) && GroupsCopied(included, steps)
  {
    steps := [];
    var scheduledBefore: seq<Name> := [];
    for b := 0 to |batches|
      invariant scheduledBefore == Flatten(batches[..b]) == StepNames(steps)
      invariant WaitsForEarlier(pairs, steps) && GroupsCopied(included, steps)
    {
      var batch := batches[b];
      forall i | 0 <= i < |batch| ensures batch[i] in Names(included) {
        assert InSomeBatch(batches, batch[i]);
      }
      steps := AddBatch(included, workersByName, pairs, steps, scheduledBefore, batch);
      assert batches[..b + 1][..b] == batches[..b];
      scheduledBefore := scheduledBefore + batch;
    }
    assert batches[..|batches|] == batches;
    FlattenDistinct(batches);
  }

  /** The steps of one batch; none of them waits for another of the same batch. */
  method AddBatch(included: seq<Worker>, workersByName: map<Name, Worker>, pairs: Pairs,
                  before: seq<Step>, scheduledBefore: seq<Name>, batch: seq<Name>)
    returns (steps: seq<Step>)
    requires ByName(included, workersByName)
    requires scheduledBefore == StepNames(before)
    requires WaitsForEarlier(pairs, before) && GroupsCopied(included, before)
    requires forall i :: 0 <= i < |batch| ==> batch[i] in Names(included)
    requires forall i, j :: 0 <= i < j < |batch| ==> !Conflict(pairs, batch[j], batch[i])
    ensures StepNames(steps) == scheduledBefore + batch
    ensures WaitsForEarlier(pairs, steps) && GroupsCopied(included, steps)
  {
    steps := before;
    for i := 0 to |batch|
      invariant StepNames(steps) == scheduledBefore + batch[..i]
      invariant WaitsForEarlier(pairs, steps) && GroupsCopied(included, steps)
    {
      var name := batch[i];
      var dependsOn := ConflictingIn(pairs, name, scheduledBefore);
      var step := Step(name, workersByName[name].groups, dependsOn);
      NextInBatch(included, pairs, steps, scheduledBefore, batch, i, step);
      steps := steps + [step];
    }
    assert batch[..|batch|] == batch;
  }

  lemma NextInBatch(included: seq<Worker>, pairs: Pairs, steps: seq<Step>, before: seq<Name>, batch: seq<Name>, i: nat, s: Step)
    requires i < |batch| && StepNames(steps) == before + batch[..i]
    requires WaitsForEarlier(pairs, steps) && GroupsCopied(included, steps) && Worker(s.name, s.groups) in included
    requires forall j :: 0 <= j < i ==> !Conflict(pairs, batch[i], batch[j])
    requires s.name == batch[i] && s.dependsOn == ConflictingIn(pairs, batch[i], before)
    ensures WaitsForEarlier(pairs, steps + [s]) && GroupsCopied(included, steps + [s])
    ensures StepNames(steps + [s]) == before + batch[..i + 1]
  {
    SameBatchAddsNothing(pairs, before, batch, i);
    AppendStep(included, pairs, steps, s);
    OneLonger(before, batch, i);
  }

  lemma OneLonger(before: seq<Name>, batch: seq<Name>, i: nat)
    requires i < |batch|
    ensures before + batch[..i + 1] == before + batch[..i] + [batch[i]]
  {
  }

  lemma SameBatchAddsNothing(pairs: Pairs, before: seq<Name>, batch: seq<Name>, i: nat)
    requires i < |batch|
    requires forall j :: 0 <= j < i ==> !Conflict(pairs, batch[i], batch[j])
    ensures ConflictingIn(pairs, batch[i], before + batch[..i]) == ConflictingIn(pairs, batch[i], before)
  {
    NoneConflicting(pairs, batch[i], batch[..i]);
    ConflictingAppend(pairs, batch[i], before, batch[..i]);
  }

  lemma AppendStep(included: seq<Worker>, pairs: Pairs, steps: seq<Step>, s: Step)
    requires WaitsForEarlier(pairs, steps) && GroupsCopied(included, steps) && Worker(s.name, s.groups) in included
    requires s.dependsOn == ConflictingIn(pairs, s.name, StepNames(steps))
    ensures WaitsForEarlier(pairs, steps + [s]) && GroupsCopied(included, steps + [s])
    ensures StepNames(steps + [s]) == StepNames(steps) + [s.name]
  {
    var more := steps + [s];
    forall i | 0 <= i < |more| ensures more[i].dependsOn == ConflictingIn(pairs, more[i].name, StepNames(more)[..i]) {
      assert StepNames(more)[..i] == StepNames(steps)[..i];
      if i == |steps| { assert StepNames(steps)[..i] == StepNames(steps); }
    }
  }
}
