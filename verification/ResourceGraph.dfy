/**
 From the station's configuration to a safe plan: worker discovery (orchestration/workers.py),
 topology discovery (orchestration/topology.py) and the resource dependency graph
 (orchestration/resource_graph.py), feeding the planner.

 The battery groups are a list in configuration order, with distinct names.
 */
module ResourceGraph {
  import opened Collections
  import opened Results
  import opened ExecutionPlanning
  import Scheduling
  import Arbitration

  datatype Role = RelayMatrixName | SmuName | DmmName | DaqName | NtcDaqName

  datatype Group = Group(
    name: string, enabled: bool, relayMatrix: Option<string>, smu: Option<string>,
    dmm: Option<string>, daq: Option<string>, ntcDaq: Option<string>)

  datatype Key = Key(role: Role, resource: string)

  const ROLES: seq<Role> := [RelayMatrixName, SmuName, DmmName, DaqName, NtcDaqName]

  /** The resource a group has for a role; an unset or empty NTC DAQ falls back to the DAQ. */
  function Assigned(g: Group, role: Role): Option<string> {
    match role
    case RelayMatrixName => g.relayMatrix
    case SmuName => g.smu
    case DmmName => g.dmm
    case DaqName => g.daq
    case NtcDaqName => if g.ntcDaq.Some? && g.ntcDaq.value != "" then g.ntcDaq else g.daq
  }

  predicate Uses(g: Group, k: Key) {
    g.enabled && Assigned(g, k.role) == Some(k.resource)
  }

  function GroupNames(groups: seq<Group>): (ns: seq<string>)
    ensures |ns| == |groups| && forall i :: 0 <= i < |groups| ==> ns[i] == groups[i].name
  {
    seq(|groups|, i requires 0 <= i < |groups| => groups[i].name)
  }

  // -------------------------------------------------------------- topology

  type Usage = map<Key, set<string>>

  /** The groups that use a resource in a role. */
  ghost function Users(groups: seq<Group>, k: Key): set<string> {
    set i | 0 <= i < |groups| && Uses(groups[i], k) :: groups[i].name
  }

  ghost function Entry(usage: Usage, k: Key): set<string> {
    if k in usage then usage[k] else {}
  }

  /** No entry without a user, and every entry lists all of them. */
  ghost predicate IsTopology(groups: seq<Group>, usage: Usage) {
    && (forall k :: k in usage ==> usage[k] != {})
    && (forall k :: Entry(usage, k) == Users(groups, k))
  }

  /** The loop state while group `g` has entered its first `r` roles. */
  ghost predicate PartTopology(groups: seq<Group>, g: Group, r: nat, usage: Usage)
    requires r <= |ROLES|
  {
    && (forall k :: k in usage ==> usage[k] != {})
    && (forall k :: Entry(usage, k) == Users(groups, k) + if Uses(g, k) && k.role in ROLES[..r] then {g.name} else {})
  }

  lemma UsersAppend(groups: seq<Group>, g: Group, k: Key)
    ensures Users(groups + [g], k) == Users(groups, k) + if Uses(g, k) then {g.name} else {}
  {
    var more := groups + [g];
    forall n | n in Users(groups, k) ensures n in Users(more, k) {
      var i :| 0 <= i < |groups| && Uses(groups[i], k) && groups[i].name == n;
      assert more[i] == groups[i];
    }
    assert more[|groups|] == g;
  }

  /** `discover_topology`. */
  method DiscoverTopology(groups: seq<Group>) returns (usage: Usage)
    ensures IsTopology(groups, usage)
  {
    usage := map[];
    for i := 0 to |groups|
      invariant IsTopology(groups[..i], usage)
    {
      var g := groups[i];
      assert groups[..i + 1] == groups[..i] + [g];
      forall k ensures Users(groups[..i + 1], k) == Users(groups[..i], k) + if Uses(g, k) then {g.name} else {} {
        UsersAppend(groups[..i], g, k);
      }
      if g.enabled {
        usage := EnterRoles(groups[..i], g, usage);
      }
    }
    assert groups[..|groups|] == groups;
  }

  lemma EveryRole(role: Role)
    ensures role in ROLES[..|ROLES|]
  {
    assert ROLES[..|ROLES|] == ROLES;
    assert ROLES[0] == RelayMatrixName && ROLES[1] == SmuName && ROLES[2] == DmmName && ROLES[3] == DaqName && ROLES[4] == NtcDaqName;
  }

  /** One more role of a group is entered. */
  lemma RoleEntered(groups: seq<Group>, g: Group, r: nat, usage: Usage)
    requires g.enabled && r < |ROLES| && PartTopology(groups, g, r, usage)
    ensures var resource := Assigned(g, ROLES[r]);
            if resource.None? then PartTopology(groups, g, r + 1, usage)
            else var key := Key(ROLES[r], resource.value);
                 PartTopology(groups, g, r + 1, usage[key := Entry(usage, key) + {g.name}])
  {
    assert ROLES[..r + 1] == ROLES[..r] + [ROLES[r]];
  }

  /** The inner loop: one enabled group enters itself under each of its roles. */
  method EnterRoles(groups: seq<Group>, g: Group, before: Usage) returns (usage: Usage)
    requires g.enabled && IsTopology(groups, before)
    ensures forall k :: k in usage ==> usage[k] != {}
    ensures forall k :: Entry(usage, k) == Users(groups, k) + if Uses(g, k) then {g.name} else {}
  {
    usage := before;
    for r := 0 to |ROLES|
      invariant PartTopology(groups, g, r, usage)
    {
      var role := ROLES[r];
      RoleEntered(groups, g, r, usage);
      var resource := Assigned(g, role);
      if resource.Some? {
        var key := Key(role, resource.value);
        usage := usage[key := (if key in usage then usage[key] else {}) + {g.name}];
      }
    }
    forall k: Key ensures k.role in ROLES[..|ROLES|] {
      EveryRole(k.role);
    }
  }

  /**
   What the topology says of one group, in the configuration's own fields: it stands under a name in
   a role exactly if it is enabled and names it there, its DAQ standing in for an NTC DAQ that is
   unset or empty.
   */
  lemma GroupInTopology(groups: seq<Group>, usage: Usage, i: nat, name: string)
    requires Distinct(GroupNames(groups)) && IsTopology(groups, usage) && i < |groups|
    ensures var g := groups[i];
            && (g.name in Entry(usage, Key(RelayMatrixName, name)) <==> g.enabled && g.relayMatrix == Some(name))
            && (g.name in Entry(usage, Key(SmuName, name)) <==> g.enabled && g.smu == Some(name))
            && (g.name in Entry(usage, Key(DmmName, name)) <==> g.enabled && g.dmm == Some(name))
            && (g.name in Entry(usage, Key(DaqName, name)) <==> g.enabled && g.daq == Some(name))
            && (g.name in Entry(usage, Key(NtcDaqName, name)) <==>
                  g.enabled && if g.ntcDaq.Some? && g.ntcDaq != Some("") then g.ntcDaq == Some(name) else g.daq == Some(name))
  {
    forall role ensures groups[i].name in Entry(usage, Key(role, name)) <==> Uses(groups[i], Key(role, name)) {
      NamedUser(groups, i, Key(role, name));
      assert Entry(usage, Key(role, name)) == Users(groups, Key(role, name));
    }
  }

  lemma NamedUser(groups: seq<Group>, i: nat, k: Key)
    requires Distinct(GroupNames(groups)) && i < |groups|
    ensures groups[i].name in Users(groups, k) <==> Uses(groups[i], k)
  {
    if groups[i].name in Users(groups, k) {
      var j :| 0 <= j < |groups| && Uses(groups[j], k) && groups[j].name == groups[i].name;
      assert GroupNames(groups)[i] == GroupNames(groups)[j];
    }
  }

  // --------------------------------------------------------------- workers

  /** The SMU that anchors a group, if the group can run at all. */
  function Anchor(g: Group): Option<string> {
    if g.enabled then g.smu else None
  }

  /** The names of the groups an SMU anchors, in configuration order. */
  function AnchoredBy(groups: seq<Group>, smu: string): seq<string> {
    if groups == [] then []
    else
      var rest := AnchoredBy(groups[..|groups| - 1], smu);
      var last := groups[|groups| - 1];
      if Anchor(last) == Some(smu) then rest + [last.name] else rest
  }

  /** The anchoring SMUs in the order in which they are first met. */
  function Anchors(groups: seq<Group>): seq<string> {
    if groups == [] then []
    else
      var rest := Anchors(groups[..|groups| - 1]);
      var smu := Anchor(groups[|groups| - 1]);
      if smu.Some? && smu.value !in rest then rest + [smu.value] else rest
  }

  lemma {:induction false} AnchorsDistinct(groups: seq<Group>, smu: string)
    ensures Distinct(Anchors(groups))
    ensures smu in Anchors(groups) <==> AnchoredBy(groups, smu) != []
  {
    if groups == [] {
    } else {
      var init := groups[..|groups| - 1];
      AnchorsDistinct(init, smu);
    }
  }

  lemma {:induction false} AnchoredMembers(groups: seq<Group>, smu: string, n: string)
    ensures n in AnchoredBy(groups, smu) <==> exists i :: 0 <= i < |groups| && groups[i].name == n && Anchor(groups[i]) == Some(smu)
  {
    if groups == [] {
    } else {
      var init, last := groups[..|groups| - 1], groups[|groups| - 1];
      AnchoredMembers(init, smu, n);
      forall i | 0 <= i < |init| ensures init[i] == groups[i] {}
      if n in AnchoredBy(init, smu) {
        var i :| 0 <= i < |init| && init[i].name == n && Anchor(init[i]) == Some(smu);
        assert groups[i].name == n;
      }
      if exists i :: 0 <= i < |groups| && groups[i].name == n && Anchor(groups[i]) == Some(smu) {
        var i :| 0 <= i < |groups| && groups[i].name == n && Anchor(groups[i]) == Some(smu);
        if i < |init| { assert init[i].name == n; }
      }
    }
  }

  /** One worker per anchoring SMU, holding exactly the groups it anchors. */
  ghost predicate AreWorkers(groups: seq<Group>, workers: seq<Worker>) {
    && Names(workers) == Anchors(groups) && Distinct(Names(workers))
    && forall w :: w in workers ==> w.groups == AnchoredBy(groups, w.name)
  }

  /** The groups of a worker and the workers themselves, in the configuration's own fields. */
  lemma WorkersInConfiguration(groups: seq<Group>, workers: seq<Worker>, smu: string)
    requires AreWorkers(groups, workers)
    ensures smu in Names(workers) <==> exists i :: 0 <= i < |groups| && groups[i].enabled && groups[i].smu == Some(smu)
    ensures forall w, n :: w in workers && w.name == smu ==>
              (n in w.groups <==> exists i :: 0 <= i < |groups| && groups[i].name == n && groups[i].enabled && groups[i].smu == Some(smu))
  {
    AnchorsDistinct(groups, smu);
    forall n ensures n in AnchoredBy(groups, smu) <==>
                     exists i :: 0 <= i < |groups| && groups[i].name == n && groups[i].enabled && groups[i].smu == Some(smu)
    {
      AnchoredMembers(groups, smu, n);
    }
    if AnchoredBy(groups, smu) != [] {
      assert AnchoredBy(groups, smu)[0] in AnchoredBy(groups, smu);
    }
    if i :| 0 <= i < |groups| && groups[i].enabled && groups[i].smu == Some(smu) {
      assert groups[i].name in AnchoredBy(groups, smu);
    }
  }

  /** `discover_workers`: the dictionary keyed by SMU, with its insertion order. */
  method DiscoverWorkers(groups: seq<Group>) returns (workers: seq<Worker>)
    ensures AreWorkers(groups, workers)
  {
    var bySmu: map<string, seq<string>>, order: seq<string> := map[], [];
    for i := 0 to |groups|
      invariant order == Anchors(groups[..i])
      invariant forall smu :: smu in bySmu <==> smu in order
      invariant forall smu :: AnchoredBy(groups[..i], smu) == if smu in bySmu then bySmu[smu] else []
    {
      var g := groups[i];
      assert groups[..i + 1][..i] == groups[..i];
      if g.enabled && g.smu.Some? {
        if g.smu.value !in bySmu {
          bySmu, order := bySmu[g.smu.value := []], order + [g.smu.value];
        }
        bySmu := bySmu[g.smu.value := bySmu[g.smu.value] + [g.name]];
      }
    }
    assert groups[..|groups|] == groups;
    AnchorsDistinct(groups, "");
    workers := seq(|order|, i requires 0 <= i < |order| => Worker(order[i], bySmu[order[i]]));
  }

  // -------------------------------------------------------- shared resources

  /** A group anchored by `smu` uses `resource` in some role other than its SMU. */
  ghost predicate SharedBy(groups: seq<Group>, smu: string, resource: string) {
    exists i, role :: 0 <= i < |groups| && Anchor(groups[i]) == Some(smu) && role != SmuName && Assigned(groups[i], role) == Some(resource)
  }

  ghost predicate AreShared(groups: seq<Group>, smu: string, shared: set<string>) {
    forall resource :: resource in shared <==> SharedBy(groups, smu, resource)
  }

  /** The inner loop of `build_resource_graph`: what a worker's groups use besides the SMU. */
  method SharedDependencies(groups: seq<Group>, usage: Usage, w: Worker) returns (shared: set<string>)
    requires Distinct(GroupNames(groups)) && IsTopology(groups, usage)
    requires w.groups == AnchoredBy(groups, w.name)
    ensures AreShared(groups, w.name, shared)
  {
    var own := set n | n in w.groups;
    shared := {};
    var todo := usage.Keys;
    while todo != {}
      invariant todo <= usage.Keys
      invariant shared == set k | k in usage.Keys - todo && k.role != SmuName && usage[k] * own != {} :: k.resource
      decreases todo
    {
      var key :| key in todo;
      todo := todo - {key};
      if key.role != SmuName && usage[key] * own != {} {
        shared := shared + {key.resource};
      }
    }
    forall resource ensures resource in shared <==> SharedBy(groups, w.name, resource) {
      if resource in shared {
        var k :| k in usage && k.role != SmuName && usage[k] * own != {} && k.resource == resource;
        UsedByOwnGroup(groups, usage, w, k);
      }
      if SharedBy(groups, w.name, resource) {
        var i, role :| 0 <= i < |groups| && Anchor(groups[i]) == Some(w.name) && role != SmuName && Assigned(groups[i], role) == Some(resource);
        OwnGroupUses(groups, usage, w, i, Key(role, resource));
      }
    }
  }

  lemma UsedByOwnGroup(groups: seq<Group>, usage: Usage, w: Worker, k: Key)
    requires Distinct(GroupNames(groups)) && IsTopology(groups, usage) && w.groups == AnchoredBy(groups, w.name)
    requires k in usage && k.role != SmuName && usage[k] * (set n | n in w.groups) != {}
    ensures SharedBy(groups, w.name, k.resource)
  {
    var n :| n in usage[k] * (set n | n in w.groups);
    assert Entry(usage, k) == Users(groups, k);
    var i :| 0 <= i < |groups| && Uses(groups[i], k) && groups[i].name == n;
    AnchoredMembers(groups, w.name, n);
    var j :| 0 <= j < |groups| && groups[j].name == n && Anchor(groups[j]) == Some(w.name);
    assert GroupNames(groups)[i] == GroupNames(groups)[j];
    assert Anchor(groups[i]) == Some(w.name) && Assigned(groups[i], k.role) == Some(k.resource);
  }

  lemma OwnGroupUses(groups: seq<Group>, usage: Usage, w: Worker, i: nat, k: Key)
    requires IsTopology(groups, usage) && w.groups == AnchoredBy(groups, w.name)
    requires i < |groups| && Anchor(groups[i]) == Some(w.name) && Assigned(groups[i], k.role) == Some(k.resource)
    ensures k in usage && usage[k] * (set n | n in w.groups) != {}
  {
    var n := groups[i].name;
    assert Entry(usage, k) == Users(groups, k);
    assert n in Users(groups, k);
    AnchoredMembers(groups, w.name, n);
    assert n in usage[k] * (set n | n in w.groups);
  }

  type Conflicts = map<(Name, Name), set<string>>

  /** Workers in discovery order, what each of them shares, and the conflicts with their overlaps. */
  datatype Graph = Graph(workers: seq<Worker>, shared: seq<set<string>>, conflicts: Conflicts)

  function Pair(names: seq<Name>, a: nat, b: nat): (Name, Name)
    requires a < |names| && b < |names|
  {
    (names[a], names[b])
  }

  /** The entry of the pair `(a, b)` when `combinations` has come to `(i, j)`: its overlap, once examined, if there is any. */
  ghost predicate Entered(names: seq<Name>, shared: seq<set<string>>, conflicts: Conflicts, i: nat, j: nat, a: nat, b: nat)
    requires a < |names| == |shared| && b < |names|
  {
    var p, overlap := Pair(names, a, b), shared[a] * shared[b];
    && (p in conflicts <==> (a < i || (a == i && b < j)) && overlap != {})
    && (p in conflicts ==> conflicts[p] == overlap)
  }

  ghost predicate OrderedPair(names: seq<Name>, p: (Name, Name)) {
    exists a, b :: 0 <= a < b < |names| && p == Pair(names, a, b)
  }

  ghost predicate PartConflicts(names: seq<Name>, shared: seq<set<string>>, i: nat, j: nat, conflicts: Conflicts)
    requires |names| == |shared|
  {
    && (forall a, b :: 0 <= a < b < |names| ==> Entered(names, shared, conflicts, i, j, a, b))
    && (forall p :: p in conflicts ==> OrderedPair(names, p))
  }

  /** Every pair of workers, in discovery order, conflicts exactly over what both use. */
  ghost predicate AreConflicts(names: seq<Name>, shared: seq<set<string>>, conflicts: Conflicts)
    requires |names| == |shared|
  {
    PartConflicts(names, shared, |names|, 0, conflicts)
  }

  ghost predicate IsGraph(groups: seq<Group>, g: Graph) {
    && AreWorkers(groups, g.workers) && |g.shared| == |g.workers|
    && (forall i :: 0 <= i < |g.workers| ==> AreShared(groups, g.workers[i].name, g.shared[i]))
    && AreConflicts(Names(g.workers), g.shared, g.conflicts)
  }

  lemma NextPair(names: seq<Name>, shared: seq<set<string>>, i: nat, j: nat, before: Conflicts, after: Conflicts)
    requires Distinct(names) && |names| == |shared| && i < j < |names| && PartConflicts(names, shared, i, j, before)
    requires after == if shared[i] * shared[j] != {} then before[Pair(names, i, j) := shared[i] * shared[j]] else before
    ensures PartConflicts(names, shared, i, j + 1, after)
  {
    assert OrderedPair(names, Pair(names, i, j));
    var next := j + 1;
    forall a, b | 0 <= a < b < |names| ensures Entered(names, shared, after, i, next, a, b) {
      assert Entered(names, shared, before, i, j, a, b);
      if Pair(names, a, b) == Pair(names, i, j) { assert a == i && b == j; }
    }
  }

  /** Moving on without a new pair in between. */
  lemma NextRow(names: seq<Name>, shared: seq<set<string>>, i: nat, conflicts: Conflicts)
    requires |names| == |shared| && PartConflicts(names, shared, i, |names|, conflicts)
    ensures PartConflicts(names, shared, i + 1, i + 2, conflicts)
  {
    var row, column := i + 1, i + 2;
    forall a, b | 0 <= a < b < |names| ensures Entered(names, shared, conflicts, row, column, a, b) {
      assert Entered(names, shared, conflicts, i, |names|, a, b);
    }
  }

  /** The conflict loop of `build_resource_graph`. */
  method FindConflicts(names: seq<Name>, shared: seq<set<string>>) returns (conflicts: Conflicts)
    requires Distinct(names) && |names| == |shared|
    ensures AreConflicts(names, shared, conflicts)
  {
    conflicts := map[];
    for i := 0 to |names|
      invariant PartConflicts(names, shared, i, i + 1, conflicts)
    {
      for j := i + 1 to |names|
        invariant PartConflicts(names, shared, i, j, conflicts)
      {
        var overlap := shared[i] * shared[j];
        ghost var before := conflicts;
        if overlap != {} {
          conflicts := conflicts[Pair(names, i, j) := overlap];
        }
        NextPair(names, shared, i, j, before, conflicts);
      }
      NextRow(names, shared, i, conflicts);
    }
    forall a, b | 0 <= a < b < |names| ensures Entered(names, shared, conflicts, |names|, 0, a, b) {
      assert Entered(names, shared, conflicts, |names|, |names| + 1, a, b);
    }
  }

  /** `build_resource_graph`. */
  method BuildResourceGraph(groups: seq<Group>) returns (g: Graph)
    requires Distinct(GroupNames(groups))
    ensures IsGraph(groups, g)
  {
    var workers := DiscoverWorkers(groups);
    var usage := DiscoverTopology(groups);
    var shared: seq<set<string>> := [];
    for i := 0 to |workers|
      invariant |shared| == i
      invariant forall a :: 0 <= a < i ==> AreShared(groups, workers[a].name, shared[a])
    {
      var mine := SharedDependencies(groups, usage, workers[i]);
      shared := shared + [mine];
    }
    var conflicts := FindConflicts(Names(workers), shared);
    g := Graph(workers, shared, conflicts);
  }

  // ------------------------------------------------------ from config to run

  /** What each worker claims while it runs: what it shares and, if `withSmu`, its own SMU. */
  function Claims(g: Graph, withSmu: bool): (needs: map<Name, set<string>>)
    requires Distinct(Names(g.workers)) && |g.shared| == |g.workers|
    ensures forall i :: 0 <= i < |g.workers| ==> g.workers[i].name in needs
    ensures forall i :: 0 <= i < |g.workers| ==>
              needs[g.workers[i].name] == g.shared[i] + if withSmu then {g.workers[i].name} else {}
  {
    assert forall i, j :: 0 <= i < j < |g.workers| ==> Names(g.workers)[i] != Names(g.workers)[j];
    map i | 0 <= i < |g.workers| :: g.workers[i].name := g.shared[i] + if withSmu then {g.workers[i].name} else {}
  }

  /** A plan built from a station's graph. */
  ghost predicate PlannedFrom(groups: seq<Group>, g: Graph, plan: Plan) {
    && IsGraph(groups, g)
    && (forall n :: n in StepNames(plan.steps) ==> n in Names(g.workers))
    && Ordered(Restrict(g.conflicts.Keys, StepNames(plan.steps)), plan.steps)
  }

  ghost function SetupOf(groups: seq<Group>, g: Graph, plan: Plan, withSmu: bool): Scheduling.Setup
    requires PlannedFrom(groups, g, plan)
  {
    Scheduling.Setup(Restrict(g.conflicts.Keys, StepNames(plan.steps)), plan.steps, Claims(g, withSmu))
  }

  /** No worker's SMU goes by the name of something another worker shares. */
  ghost predicate SmuNamesApart(g: Graph)
    requires |g.shared| == |g.workers|
  {
    forall i, j :: 0 <= i < |g.workers| && 0 <= j < |g.workers| && i != j ==> g.workers[i].name !in g.shared[j]
  }

  /** Discovery, graph and plan of a whole station. */
  method PlanStation(groups: seq<Group>, enabled: Option<set<Name>>) returns (g: Graph, plan: Plan)
    requires Distinct(GroupNames(groups))
    ensures PlannedFrom(groups, g, plan)
    ensures forall n :: n in StepNames(plan.steps) <==> n in Names(g.workers) && (enabled.None? || n in enabled.value)
  {
    g := BuildResourceGraph(groups);
    plan := BuildExecutionPlan(g.workers, g.conflicts.Keys, enabled);
    ghost var names := Names(Included(g.workers, enabled));
    forall n ensures n in StepNames(plan.steps) <==> n in names {
      FlattenMembers(plan.batches, n);
      assert InSomeBatch(plan.batches, n) <==> n in names;
    }
    assert Restrict(g.conflicts.Keys, names) == Restrict(g.conflicts.Keys, StepNames(plan.steps));
    forall n ensures n in names <==> n in Names(g.workers) && (enabled.None? || n in enabled.value) {
      IncludedNames(g.workers, enabled, n);
    }
  }

  lemma IncludedNames(ws: seq<Worker>, enabled: Option<set<Name>>, n: Name)
    requires Distinct(Names(ws))
    ensures n in Names(Included(ws, enabled)) <==> n in Names(ws) && (enabled.None? || n in enabled.value)
  {
    var inc := Included(ws, enabled);
    if n in Names(inc) {
      var i :| 0 <= i < |inc| && Names(inc)[i] == n;
      IncludedMembers(ws, enabled, inc[i]);
      var j :| 0 <= j < |ws| && ws[j] == inc[i];
      assert Names(ws)[j] == n;
    }
    if n in Names(ws) && (enabled.None? || n in enabled.value) {
      var j :| 0 <= j < |ws| && Names(ws)[j] == n;
      IncludedMembers(ws, enabled, ws[j]);
      var i :| 0 <= i < |inc| && inc[i] == ws[j];
      assert Names(inc)[i] == n;
    }
  }

  lemma WorkerOf(groups: seq<Group>, g: Graph, plan: Plan, i: nat) returns (a: nat)
    requires PlannedFrom(groups, g, plan) && i < |plan.steps|
    ensures a < |g.workers| && g.workers[a].name == plan.steps[i].name == Names(g.workers)[a]
  {
    assert StepNames(plan.steps)[i] in Names(g.workers);
    a :| 0 <= a < |g.workers| && Names(g.workers)[a] == plan.steps[i].name;
  }

  /** Two steps whose workers share a resource conflict in the plan. */
  lemma StepsConflict(groups: seq<Group>, g: Graph, plan: Plan, i: nat, j: nat, a: nat, b: nat)
    requires PlannedFrom(groups, g, plan) && i < j < |plan.steps| && a < |g.workers| && b < |g.workers|
    requires g.workers[a].name == plan.steps[i].name && g.workers[b].name == plan.steps[j].name
    requires g.shared[a] * g.shared[b] != {}
    ensures Conflict(Restrict(g.conflicts.Keys, StepNames(plan.steps)), plan.steps[i].name, plan.steps[j].name)
  {
    var names := StepNames(plan.steps);
    assert names[i] != names[j] && names[i] in names && names[j] in names;
    OverlapIsConflict(groups, g, a, b);
  }

  /** What two different workers both claim, they share. */
  lemma ClaimedIsShared(g: Graph, withSmu: bool, a: nat, b: nat, r: string)
    requires Distinct(Names(g.workers)) && |g.shared| == |g.workers| && (withSmu ==> SmuNamesApart(g))
    requires a < |g.workers| && b < |g.workers| && g.workers[a].name != g.workers[b].name
    requires r in Claims(g, withSmu)[g.workers[a].name] && r in Claims(g, withSmu)[g.workers[b].name]
    ensures r in g.shared[a] * g.shared[b]
  {
  }

  lemma SharingStepsConflict(groups: seq<Group>, g: Graph, plan: Plan, withSmu: bool, i: nat, j: nat, r: string)
    requires PlannedFrom(groups, g, plan) && (withSmu ==> SmuNamesApart(g)) && i < j < |plan.steps|
    requires r in Scheduling.Needs(SetupOf(groups, g, plan, withSmu), i)
    requires r in Scheduling.Needs(SetupOf(groups, g, plan, withSmu), j)
    ensures Conflict(Restrict(g.conflicts.Keys, StepNames(plan.steps)), plan.steps[i].name, plan.steps[j].name)
  {
    var a := WorkerOf(groups, g, plan, i);
    var b := WorkerOf(groups, g, plan, j);
    assert StepNames(plan.steps)[i] != StepNames(plan.steps)[j];
    ClaimedIsShared(g, withSmu, a, b, r);
    StepsConflict(groups, g, plan, i, j, a, b);
  }

  /** The graph covers sharing: two steps that claim a common resource conflict. */
  lemma PlannedSharingConflicts(groups: seq<Group>, g: Graph, plan: Plan, withSmu: bool)
    requires PlannedFrom(groups, g, plan) && (withSmu ==> SmuNamesApart(g))
    ensures Scheduling.SharingConflicts(SetupOf(groups, g, plan, withSmu))
  {
    var s := SetupOf(groups, g, plan, withSmu);
    forall i, j | 0 <= i < j < |s.steps| && Scheduling.Needs(s, i) * Scheduling.Needs(s, j) != {}
      ensures Conflict(s.pairs, s.steps[i].name, s.steps[j].name)
    {
      var r :| r in Scheduling.Needs(s, i) * Scheduling.Needs(s, j);
      SharingStepsConflict(groups, g, plan, withSmu, i, j, r);
    }
  }

  lemma OverlapIsConflict(groups: seq<Group>, g: Graph, a: nat, b: nat)
    requires IsGraph(groups, g) && a < |g.workers| && b < |g.workers| && a != b && g.shared[a] * g.shared[b] != {}
    ensures Conflict(g.conflicts.Keys, g.workers[a].name, g.workers[b].name)
  {
    var names := Names(g.workers);
    if a < b {
      assert Entered(names, g.shared, g.conflicts, |names|, 0, a, b);
    } else {
      assert g.shared[b] * g.shared[a] == g.shared[a] * g.shared[b];
      assert Entered(names, g.shared, g.conflicts, |names|, 0, b, a);
    }
  }

  /**
   From configuration to run: whatever the battery groups are, no run of the plan built from them
   ever has a claim refused, as long as workers claim the resources they share; claiming the SMU
   too is safe when no SMU goes by the name of another worker's shared resource.
   */
  lemma PlannedNeverRefused(groups: seq<Group>, g: Graph, plan: Plan, withSmu: bool)
    requires PlannedFrom(groups, g, plan) && (withSmu ==> SmuNamesApart(g))
    ensures Scheduling.NeverRefused(SetupOf(groups, g, plan, withSmu))
  {
    PlannedSharingConflicts(groups, g, plan, withSmu);
    Scheduling.CoveredSharingNeverRefused(SetupOf(groups, g, plan, withSmu));
  }

  // ---------------------------------------------- claims on the SMU as well

  /** One of two steps has an SMU that goes by the name of something a group of the other uses. */
  ghost predicate SmuUsedAcross(groups: seq<Group>, steps: seq<Step>, i: nat, j: nat)
    requires i < |steps| && j < |steps|
  {
    SharedBy(groups, steps[i].name, steps[j].name) || SharedBy(groups, steps[j].name, steps[i].name)
  }

  /** With the SMU claimed too, two steps claim something in common exactly when they share it or one SMU is used across. */
  lemma ClaimsOverlap(groups: seq<Group>, g: Graph, plan: Plan, i: nat, j: nat)
    requires PlannedFrom(groups, g, plan) && i < j < |plan.steps|
    ensures var with, without := SetupOf(groups, g, plan, true), SetupOf(groups, g, plan, false);
            Scheduling.Needs(with, i) * Scheduling.Needs(with, j) != {} <==>
            Scheduling.Needs(without, i) * Scheduling.Needs(without, j) != {} || SmuUsedAcross(groups, plan.steps, i, j)
  {
    var a := WorkerOf(groups, g, plan, i);
    var b := WorkerOf(groups, g, plan, j);
    var p, q := plan.steps[i].name, plan.steps[j].name;
    assert StepNames(plan.steps)[i] != StepNames(plan.steps)[j];
    assert AreShared(groups, p, g.shared[a]) && AreShared(groups, q, g.shared[b]);
    OverlapWithNames(g.shared[a], g.shared[b], p, q);
  }

  lemma OverlapWithNames(s: set<string>, t: set<string>, p: string, q: string)
    requires p != q
    ensures (s + {p}) * (t + {q}) != {} <==> s * t != {} || p in t || q in s
    ensures s + {} == s && t + {} == t
  {
    if s * t != {} {
      var r :| r in s * t;
      assert r in (s + {p}) * (t + {q});
    } else if p in t {
      assert p in (s + {p}) * (t + {q});
    } else if q in s {
      assert q in (s + {p}) * (t + {q});
    }
  }

  /**
   Claims that include the SMU, exactly: for every configuration, no run of the plan built from it
   has a claim refused if and only if the plan orders every two steps one of whose SMUs goes by
   the name of something the other's groups use.
   */
  lemma SmuClaimsAgree(groups: seq<Group>, g: Graph, plan: Plan)
    requires PlannedFrom(groups, g, plan)
    ensures Scheduling.NeverRefused(SetupOf(groups, g, plan, true)) <==>
            forall i, j :: 0 <= i < j < |plan.steps| && SmuUsedAcross(groups, plan.steps, i, j) ==>
                             Scheduling.Precedes(SetupOf(groups, g, plan, true), i, j)
  {
    var s := SetupOf(groups, g, plan, true);
    Scheduling.ArbitrationAgrees(s);
    PlannedSharingConflicts(groups, g, plan, false);
    forall i, j | 0 <= i < j < |plan.steps|
      ensures SmuUsedAcross(groups, plan.steps, i, j) ==> Scheduling.Needs(s, i) * Scheduling.Needs(s, j) != {}
      ensures Scheduling.Needs(s, i) * Scheduling.Needs(s, j) != {} ==>
                SmuUsedAcross(groups, plan.steps, i, j) || Scheduling.Precedes(s, i, j)
    {
      ClaimsOverlap(groups, g, plan, i, j);
      var without := SetupOf(groups, g, plan, false);
      if Scheduling.Needs(without, i) * Scheduling.Needs(without, j) != {} {
        Scheduling.DependsOnConflicting(s, i, j);
      }
    }
  }

  /** Two groups, one of which has the other's SMU for its DMM. */
  const CROSS_NAMED: seq<Group> :=
    [Group("first", true, None, Some("A"), Some("X"), None, None), Group("second", true, None, Some("B"), Some("A"), None, None)]

  lemma CrossNamedShares(smu: string, resource: string)
    ensures SharedBy(CROSS_NAMED, smu, resource) <==> (smu, resource) == ("A", "X") || (smu, resource) == ("B", "A")
  {
    assert Assigned(CROSS_NAMED[0], DmmName) == Some("X") && Assigned(CROSS_NAMED[1], DmmName) == Some("A");
    assert Anchor(CROSS_NAMED[0]) == Some("A") && Anchor(CROSS_NAMED[1]) == Some("B");
  }

  /** Its two workers share nothing, so its graph has no conflict. */
  lemma CrossNamedConflicts(g: Graph)
    requires IsGraph(CROSS_NAMED, g)
    ensures g.conflicts == map[]
  {
    var names := Names(g.workers);
    forall p | p in g.conflicts ensures false {
      assert OrderedPair(names, p);
      var a, b :| 0 <= a < b < |names| && p == Pair(names, a, b);
      assert Entered(names, g.shared, g.conflicts, |names|, 0, a, b);
      var r :| r in g.shared[a] * g.shared[b];
      assert AreShared(CROSS_NAMED, names[a], g.shared[a]) && AreShared(CROSS_NAMED, names[b], g.shared[b]);
      CrossNamedShares(names[a], r);
      CrossNamedShares(names[b], r);
    }
  }

  /** A plan without conflicts orders nothing. */
  lemma NothingOrdered(s: Scheduling.Setup, i: nat, j: nat)
    requires Scheduling.WellPlanned(s) && s.pairs == {} && i < |s.steps| && j < |s.steps|
    ensures !Scheduling.Precedes(s, i, j)
  {
    forall k | 0 <= k < |s.steps| ensures !Scheduling.DependsOn(s, j, k) {
      ConflictingMembers(s.pairs, s.steps[j].name, StepNames(s.steps)[..j], s.steps[k].name);
    }
  }

  /** Both of its workers claim the resource `A`. */
  lemma CrossNamedClaims(g: Graph, plan: Plan, i: nat)
    requires PlannedFrom(CROSS_NAMED, g, plan) && i < |plan.steps| && plan.steps[i].name in {"A", "B"}
    ensures "A" in Scheduling.Needs(SetupOf(CROSS_NAMED, g, plan, true), i)
  {
    var a := WorkerOf(CROSS_NAMED, g, plan, i);
    CrossNamedShares("B", "A");
    assert AreShared(CROSS_NAMED, g.workers[a].name, g.shared[a]);
  }

  /**
   The case the graph does not see: the plan of that configuration has a run in which a worker is
   refused the resource `A`, held by the worker that runs beside it.
   */
  lemma CrossNamedRefused(g: Graph, plan: Plan, i: nat, j: nat) returns (actions: seq<Scheduling.Action>, st: Scheduling.State)
    requires PlannedFrom(CROSS_NAMED, g, plan) && i < j < |plan.steps|
    requires plan.steps[i].name in {"A", "B"} && plan.steps[j].name in {"A", "B"}
    ensures g.conflicts == map[]
    ensures var s := SetupOf(CROSS_NAMED, g, plan, true);
            && Scheduling.IsRun(s, actions, st) && Scheduling.Enabled(s, st, Scheduling.Claim(j, "A"))
            && Arbitration.Claimed(st.claims, "A", plan.steps[j].name) == Err(Arbitration.ResourceBusy(plan.steps[i].name))
  {
    CrossNamedConflicts(g);
    CrossNamedClaims(g, plan, i);
    CrossNamedClaims(g, plan, j);
    var s := SetupOf(CROSS_NAMED, g, plan, true);
    assert s.pairs == {};
    NothingOrdered(s, i, j);
    actions, st := Scheduling.RefusedRun(s, i, j, "A");
  }

  /** Two groups of different steps with a resource in common, neither as its SMU, make the steps conflict. */
  lemma CommonResourceConflicts(groups: seq<Group>, g: Graph, plan: Plan, i: nat, j: nat, p: Group, q: Group, role: Role, other: Role)
    requires PlannedFrom(groups, g, plan) && i < j < |plan.steps|
    requires p in groups && q in groups && Anchor(p) == Some(plan.steps[i].name) && Anchor(q) == Some(plan.steps[j].name)
    requires role != SmuName && other != SmuName && Assigned(p, role).Some? && Assigned(p, role) == Assigned(q, other)
    ensures Conflict(Restrict(g.conflicts.Keys, StepNames(plan.steps)), plan.steps[i].name, plan.steps[j].name)
  {
    var a := WorkerOf(groups, g, plan, i);
    var b := WorkerOf(groups, g, plan, j);
    var r := Assigned(p, role).value;
    assert SharedBy(groups, g.workers[a].name, r) && SharedBy(groups, g.workers[b].name, r);
    assert AreShared(groups, g.workers[a].name, g.shared[a]) && AreShared(groups, g.workers[b].name, g.shared[b]);
    assert r in g.shared[a] * g.shared[b];
    StepsConflict(groups, g, plan, i, j, a, b);
  }

  /**
   From configuration to run: the battery groups of two workers that run at the same time have
   different SMUs and no relay matrix, DMM, DAQ or NTC DAQ in common.
   */
  lemma RunningGroupsShareNothing(groups: seq<Group>, g: Graph, plan: Plan, actions: seq<Scheduling.Action>, st: Scheduling.State,
                                  i: nat, j: nat, p: Group, q: Group)
    requires PlannedFrom(groups, g, plan) && Scheduling.IsRun(SetupOf(groups, g, plan, false), actions, st)
    requires i < j < |plan.steps| == |st.status| && st.status[i] == Scheduling.Running && st.status[j] == Scheduling.Running
    requires p in groups && q in groups && Anchor(p) == Some(plan.steps[i].name) && Anchor(q) == Some(plan.steps[j].name)
    ensures p.smu != q.smu
    ensures forall role, other :: role != SmuName && other != SmuName && Assigned(p, role).Some? ==> Assigned(p, role) != Assigned(q, other)
  {
    assert StepNames(plan.steps)[i] != StepNames(plan.steps)[j];
    Scheduling.ScheduleSafety(SetupOf(groups, g, plan, false), actions, st);
    forall role, other | role != SmuName && other != SmuName && Assigned(p, role).Some?
      ensures Assigned(p, role) != Assigned(q, other)
    {
      if Assigned(p, role) == Assigned(q, other) {
        CommonResourceConflicts(groups, g, plan, i, j, p, q, role, other);
        assert false;
      }
    }
  }
}
