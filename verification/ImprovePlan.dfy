/** The plan of an improve run: its rosters, its limits, and the accounting of the refs it removes. */
module ImprovePlan {
  import opened Basics

  const MAX_SAFE := 9007199254740991

  /** What the shape checks leave of a count: a safe integer that is not negative. */
  type Count = n: int | 0 <= n <= 9007199254740991

  // ---- sums of doubles ----

  /** How a double rounds a sum too large to be exact; never below the first unsafe integer. */
  ghost predicate IsRounding(round: nat -> nat) {
    forall n :: n > MAX_SAFE ==> round(n) > MAX_SAFE
  }

  function Add(round: nat -> nat, a: nat, b: nat): nat {
    if a + b <= MAX_SAFE then a + b else round(a + b)
  }

  /** A rounded sum and the exact one are the same safe integer, or neither is safe. */
  predicate Agree(rounded: nat, exact: nat) {
    if exact <= MAX_SAFE then rounded == exact else rounded > MAX_SAFE
  }

  // ---- rosters ----

  datatype Roster = Roster(required: seq<string>, optional: set<string>)

  const GATES := Roster(["profile", "cleanup", "validation", "signal", "disk", "limit"], {"retrieval"})

  const PROCESSES := Roster(
    ["reflect", "distill", "consolidate", "memoryInference", "extract", "validation", "triage", "proactiveMaintenance"],
    {"triage.judgment", "graphExtraction"})

  predicate Fills(roster: Roster, names: seq<string>) {
    && Distinct(names)
    && (forall i | 0 <= i < |names| :: names[i] in roster.required || names[i] in roster.optional)
    && (forall i | 0 <= i < |roster.required| :: roster.required[i] in names)
  }

  lemma {:induction false} Occurrences(names: seq<string>, x: string)
    requires Distinct(names)
    ensures multiset(names)[x] == if x in names then 1 else 0
  {
    if names != [] {
      Occurrences(names[1..], x);
      assert names == [names[0]] + names[1..];
    }
  }

  /** Every required name stands exactly once, every optional one at most once, and nothing else stands. */
  lemma FillsExactly(roster: Roster, names: seq<string>, x: string)
    requires Fills(roster, names)
    ensures x in roster.required ==> multiset(names)[x] == 1
    ensures x in roster.optional ==> multiset(names)[x] <= 1
    ensures x !in roster.required && x !in roster.optional ==> multiset(names)[x] == 0
  {
    Occurrences(names, x);
  }

  /** The six gates, with or without the retrieval gate of older plans, fill the roster. */
  lemma GatesFill()
    ensures Fills(GATES, ["profile", "cleanup", "validation", "signal", "disk", "limit"])
    ensures Fills(GATES, ["profile", "cleanup", "validation", "retrieval", "signal", "disk", "limit"])
  {
  }

  /** So do the eight processes, with or without the two rows older runs may carry. */
  lemma ProcessesFill()
    ensures Fills(PROCESSES, ["reflect", "distill", "consolidate", "memoryInference", "extract", "validation", "triage",
                              "proactiveMaintenance"])
    ensures Fills(PROCESSES, ["reflect", "distill", "consolidate", "memoryInference", "extract", "validation", "triage",
                              "proactiveMaintenance", "triage.judgment", "graphExtraction"])
  {
  }

  /** The loop that rejects unknown and repeated names, then the one that looks for missing ones. */
  method CheckRoster(roster: Roster, names: seq<string>) returns (ok: bool)
    ensures ok <==> Fills(roster, names)
  {
    var seen: set<string> := {};
    var k := 0;
    while k < |names|
      invariant 0 <= k <= |names|
      invariant forall x :: x in seen <==> x in names[..k]
      invariant Distinct(names[..k])
      invariant forall i | 0 <= i < k :: names[i] in roster.required || names[i] in roster.optional
    {
      if names[k] !in roster.required && names[k] !in roster.optional { return false; }
      if names[k] in seen {
        var j :| 0 <= j < k && names[..k][j] == names[k];
        assert names[j] == names[k];
        return false;
      }
      assert names[..k + 1] == names[..k] + [names[k]];
      seen := seen + {names[k]};
      k := k + 1;
    }
    assert names[..k] == names;
    k := 0;
    while k < |roster.required|
      invariant 0 <= k <= |roster.required|
      invariant forall i | 0 <= i < k :: roster.required[i] in names
    {
      if roster.required[k] !in seen { return false; }
      k := k + 1;
    }
    return true;
  }

  // ---- plans ----

  datatype Gate = Gate(name: string, removed: Count)

  datatype Lane = Replay | Ordinary(lane: string)

  datatype PlannedRef = PlannedRef(ref: string, lane: Lane)

  datatype Limits = Limits(effective: Option<Count>, replayAllowance: Count, totalCeiling: Option<Count>)

  datatype Plan = Plan(
    isExecution: bool, dispatch: bool,
    rawInScope: Count, selected: Count, effective: Count,
    limits: Limits, gates: seq<Gate>, effectiveRefs: seq<PlannedRef>,
    processes: Option<seq<string>>, proactive: Option<Proactive>)

  datatype Proactive = Proactive(selected: Count, selectedRefs: seq<string>)

  function GateNames(gates: seq<Gate>): (names: seq<string>)
    ensures |names| == |gates|
  {
    seq(|gates|, i requires 0 <= i < |gates| => gates[i].name)
  }

  function RefNames(refs: seq<PlannedRef>): (names: seq<string>)
    ensures |names| == |refs|
  {
    seq(|refs|, i requires 0 <= i < |refs| => refs[i].ref)
  }

  /** What the gates other than the limit removed. */
  function RemovedBeforeLimit(gates: seq<Gate>): nat {
    if gates == [] then 0
    else
      var gate := gates[|gates| - 1];
      RemovedBeforeLimit(gates[..|gates| - 1]) + if gate.name == "limit" then 0 else gate.removed
  }

  function RemovedByLimit(gates: seq<Gate>): nat {
    if gates == [] then 0
    else
      var gate := gates[|gates| - 1];
      RemovedByLimit(gates[..|gates| - 1]) + if gate.name == "limit" then gate.removed else 0
  }

  function RemovedInAll(gates: seq<Gate>): nat {
    if gates == [] then 0 else RemovedInAll(gates[..|gates| - 1]) + gates[|gates| - 1].removed
  }

  function ReplayCount(refs: seq<PlannedRef>): nat {
    if refs == [] then 0 else ReplayCount(refs[..|refs| - 1]) + if refs[|refs| - 1].lane.Replay? then 1 else 0
  }

  predicate LimitsAddUp(limits: Limits) {
    match limits.effective
    case None => limits.totalCeiling == None
    case Some(limit) => limits.totalCeiling.Some? && limits.totalCeiling.value == limit + limits.replayAllowance
  }

  /** The refs that are no replays keep within the effective limit. */
  predicate OrdinaryRefsFit(plan: Plan) {
    plan.limits.effective.Some? ==>
      |plan.effectiveRefs| - ReplayCount(plan.effectiveRefs) <= plan.limits.effective.value
  }

  /** What a plan has to satisfy; nothing is said of the total ceiling but how it is made up. */
  predicate IsSound(plan: Plan, dryRun: bool, plannedRefs: seq<string>) {
    && plan.isExecution == plan.dispatch == !dryRun
    && plan.effective <= plan.selected <= plan.rawInScope
    && LimitsAddUp(plan.limits)
    && Fills(GATES, GateNames(plan.gates))
    && RemovedBeforeLimit(plan.gates) == plan.rawInScope - plan.selected
    && RemovedByLimit(plan.gates) == plan.selected - plan.effective
    && plan.effective == |plan.effectiveRefs|
    && Distinct(RefNames(plan.effectiveRefs)) && plannedRefs == RefNames(plan.effectiveRefs)
    && ReplayCount(plan.effectiveRefs) <= plan.limits.replayAllowance
    && OrdinaryRefsFit(plan)
    && (plan.processes.Some? ==> Fills(PROCESSES, plan.processes.value))
    && (plan.proactive.Some? ==> plan.proactive.value.selected == |plan.proactive.value.selectedRefs|)
  }

  lemma {:induction false} GatesAddUp(gates: seq<Gate>)
    ensures RemovedInAll(gates) == RemovedBeforeLimit(gates) + RemovedByLimit(gates)
  {
    if gates != [] {
      GatesAddUp(gates[..|gates| - 1]);
    }
  }

  /** Every ref in scope is removed by one gate or planned, no ref is planned twice, and the plan keeps
      under its ceiling. */
  lemma SoundPlansConserveRefs(plan: Plan, dryRun: bool, plannedRefs: seq<string>)
    requires IsSound(plan, dryRun, plannedRefs)
    ensures plan.rawInScope == RemovedInAll(plan.gates) + |plannedRefs|
    ensures Distinct(plannedRefs)
    ensures forall i | 0 <= i < |GATES.required| :: multiset(GateNames(plan.gates))[GATES.required[i]] == 1
    ensures plan.limits.totalCeiling.Some? ==> |plannedRefs| <= plan.limits.totalCeiling.value
  {
    GatesAddUp(plan.gates);
    forall i | 0 <= i < |GATES.required| ensures multiset(GateNames(plan.gates))[GATES.required[i]] == 1 {
      FillsExactly(GATES, GateNames(plan.gates), GATES.required[i]);
    }
  }

  function Replays(refs: seq<PlannedRef>): set<int> {
    set i | 0 <= i < |refs| && refs[i].lane.Replay?
  }

  /** The replays are counted, each once. */
  lemma {:induction false} ReplaysAreCounted(refs: seq<PlannedRef>)
    ensures ReplayCount(refs) == |Replays(refs)|
  {
    if refs != [] {
      var n := |refs| - 1;
      ReplaysAreCounted(refs[..n]);
      assert Replays(refs) == Replays(refs[..n]) + if refs[n].lane.Replay? then {n} else {};
    }
  }

  /** A plan without replays that keeps within its effective limit needs no allowance for them. */
  lemma OrdinaryPlansNeedNoAllowance(plan: Plan, dryRun: bool, limit: Count)
    requires plan.isExecution != dryRun && plan.dispatch != dryRun
    requires plan.effective <= plan.selected <= plan.rawInScope && plan.effective == |plan.effectiveRefs| <= limit
    requires plan.limits == Limits(Some(limit), 0, Some(limit))
    requires Fills(GATES, GateNames(plan.gates)) && RemovedByLimit(plan.gates) == plan.selected - plan.effective
    requires RemovedInAll(plan.gates) == plan.rawInScope - plan.effective
    requires Distinct(RefNames(plan.effectiveRefs))
    requires forall i | 0 <= i < |plan.effectiveRefs| :: plan.effectiveRefs[i].lane.Ordinary?
    requires plan.processes == None && plan.proactive == None
    ensures IsSound(plan, dryRun, RefNames(plan.effectiveRefs))
  {
    ReplaysAreCounted(plan.effectiveRefs);
    assert Replays(plan.effectiveRefs) == {};
    GatesAddUp(plan.gates);
  }

  /** More replays than the allowance are never accepted. */
  lemma ReplaysNeedAllowance(plan: Plan, dryRun: bool, plannedRefs: seq<string>)
    requires |plan.effectiveRefs| > plan.limits.replayAllowance
    requires forall i | 0 <= i < |plan.effectiveRefs| :: plan.effectiveRefs[i].lane.Replay?
    ensures !IsSound(plan, dryRun, plannedRefs)
  {
    AllReplay(plan.effectiveRefs);
  }

  lemma {:induction false} AllReplay(refs: seq<PlannedRef>)
    requires forall i | 0 <= i < |refs| :: refs[i].lane.Replay?
    ensures ReplayCount(refs) == |refs|
  {
    if refs != [] {
      AllReplay(refs[..|refs| - 1]);
    }
  }

  lemma {:induction false} LimitOnce(gates: seq<Gate>, k: nat)
    requires k < |gates| && gates[k].name == "limit" && Distinct(GateNames(gates))
    ensures RemovedByLimit(gates) == gates[k].removed
  {
    var n := |gates| - 1;
    assert GateNames(gates)[k] == "limit" && GateNames(gates)[n] == gates[n].name;
    assert GateNames(gates[..n]) == GateNames(gates)[..n];
    if k < n {
      LimitOnce(gates[..n], k);
    } else {
      NoLimit(gates[..n]);
    }
  }

  lemma {:induction false} NoLimit(gates: seq<Gate>)
    requires "limit" !in GateNames(gates)
    ensures RemovedByLimit(gates) == 0
  {
    if gates != [] {
      var n := |gates| - 1;
      assert GateNames(gates[..n]) == GateNames(gates)[..n] && GateNames(gates)[n] == gates[n].name;
      NoLimit(gates[..n]);
    }
  }

  /** The gates are summed as doubles; what they come to is right all the same. */
  method SumGates(round: nat -> nat, gates: seq<Gate>) returns (beforeLimit: nat, byLimit: Option<Count>)
    requires IsRounding(round) && Fills(GATES, GateNames(gates))
    ensures Agree(beforeLimit, RemovedBeforeLimit(gates))
    ensures byLimit == Some(RemovedByLimit(gates))
  {
    beforeLimit, byLimit := 0, None;
    var k := 0;
    while k < |gates|
      invariant 0 <= k <= |gates|
      invariant Agree(beforeLimit, RemovedBeforeLimit(gates[..k]))
      invariant byLimit.None? ==> forall i | 0 <= i < k :: gates[i].name != "limit"
      invariant byLimit.Some? ==> exists i | 0 <= i < k :: gates[i].name == "limit" && gates[i].removed == byLimit.value
    {
      assert gates[..k + 1][..k] == gates[..k];
      if gates[k].name == "limit" {
        byLimit := Some(gates[k].removed);
      } else {
        beforeLimit := Add(round, beforeLimit, gates[k].removed);
      }
      k := k + 1;
    }
    assert gates[..k] == gates;
    assert GATES.required[5] == "limit" && "limit" in GateNames(gates);
    var at :| 0 <= at < |gates| && GateNames(gates)[at] == "limit";
    assert gates[at].name == "limit";
    var i :| 0 <= i < |gates| && gates[i].name == "limit" && gates[i].removed == byLimit.value;
    LimitOnce(gates, i);
  }

  method ValidateImprovePlan(round: nat -> nat, plan: Plan, dryRun: bool, plannedRefs: seq<string>) returns (ok: bool)
    requires IsRounding(round)
    ensures ok <==> IsSound(plan, dryRun, plannedRefs)
  {
    if plan.isExecution != plan.dispatch { return false; }
    if (dryRun && plan.isExecution) || (!dryRun && !plan.isExecution) { return false; }
    if plan.rawInScope < plan.selected || plan.selected < plan.effective { return false; }
    ok := CheckLimits(round, plan.limits);
    if !ok { return; }
    ok := CheckRoster(GATES, GateNames(plan.gates));
    if !ok { return; }
    var beforeLimit, byLimit := SumGates(round, plan.gates);
    if beforeLimit != plan.rawInScope - plan.selected { return false; }
    if byLimit != Some(plan.selected - plan.effective) { return false; }
    ok := CheckRefs(plan, plannedRefs);
    if ok && plan.processes.Some? {
      ok := CheckRoster(PROCESSES, plan.processes.value);
    }
    if ok && plan.proactive.Some? {
      ok := plan.proactive.value.selected == |plan.proactive.value.selectedRefs|;
    }
  }

  method CheckLimits(round: nat -> nat, limits: Limits) returns (ok: bool)
    requires IsRounding(round)
    ensures ok <==> LimitsAddUp(limits)
  {
    if limits.effective.None? { return limits.totalCeiling.None?; }
    return limits.totalCeiling.Some?
           && limits.totalCeiling.value == Add(round, limits.effective.value, limits.replayAllowance);
  }

  method CheckRefs(plan: Plan, plannedRefs: seq<string>) returns (ok: bool)
    requires LimitsAddUp(plan.limits)
    ensures ok <==>
      && plan.effective == |plan.effectiveRefs|
      && Distinct(RefNames(plan.effectiveRefs)) && plannedRefs == RefNames(plan.effectiveRefs)
      && ReplayCount(plan.effectiveRefs) <= plan.limits.replayAllowance
      && OrdinaryRefsFit(plan)
  {
    var names := RefNames(plan.effectiveRefs);
    if plan.effective != |names| { return false; }
    DistinctBySize(names);
    if |Members(names)| != |names| { return false; }
    if plannedRefs != names { return false; }
    var replay, k := 0, 0;
    while k < |plan.effectiveRefs|
      invariant 0 <= k <= |plan.effectiveRefs|
      invariant replay == ReplayCount(plan.effectiveRefs[..k]) <= k
    {
      assert plan.effectiveRefs[..k + 1][..k] == plan.effectiveRefs[..k];
      if plan.effectiveRefs[k].lane.Replay? { replay := replay + 1; }
      k := k + 1;
    }
    assert plan.effectiveRefs[..k] == plan.effectiveRefs;
    if replay > plan.limits.replayAllowance { return false; }
    if plan.limits.effective.Some? && |names| - replay > plan.limits.effective.value { return false; }
    return !(plan.limits.totalCeiling.Some? && |names| > plan.limits.totalCeiling.value);
  }

  lemma DistinctSnoc(names: seq<string>, n: nat)
    requires |names| == n + 1
    ensures Members(names) == Members(names[..n]) + {names[n]}
    ensures Distinct(names) <==> Distinct(names[..n]) && names[n] !in Members(names[..n])
  {
    if Distinct(names[..n]) && names[n] !in Members(names[..n]) {
      forall i, j | 0 <= i < j < |names| ensures names[i] != names[j] {
        assert names[..n][i] == names[i];
        if j < n { assert names[..n][j] == names[j]; }
      }
    }
  }

  lemma {:induction false} DistinctBySize(names: seq<string>)
    ensures |Members(names)| <= |names|
    ensures |Members(names)| == |names| <==> Distinct(names)
  {
    if names != [] {
      DistinctBySize(names[..|names| - 1]);
      DistinctSnoc(names, |names| - 1);
    }
  }
}
