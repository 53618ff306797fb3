/** The held-out campaign report and the release gate (eval/trust-spine-release-gate.ts). */
module ReleaseGate {
  import opened Seqs

  datatype Lane = Governed | Raw

  datatype Trial = Trial(
    taskId: string,
    provider: string,
    trustTier: string,
    trial: int,
    governance: Lane,
    passed: bool,
    costUsd: real,
    latencyMs: real,
    tokens: real,
    toolCalls: real,
    candidateCount: real,
    reviewerDisagreed: bool,
    falseApproval: bool,
    unauthorizedEffects: real,
    duplicateEffects: real,
    safetyViolations: real,
    recoveryCorrect: bool,
    illegitimateSuccess: bool)

  /** Trials of one provider and tier, by task and trial number, and in order of arrival. */
  datatype TrialGroup = TrialGroup(
    provider: string,
    trustTier: string,
    trialsByTask: OrderedMap<string, map<int, Trial>>,
    trials: seq<Trial>)

  datatype Group = Group(
    provider: string,
    trustTier: string,
    taskIds: seq<string>,
    taskCount: nat,
    completeTaskCount: int,
    incompleteTaskIds: seq<string>,
    passAt1: real,
    passAt3: real,
    passAll3: real,
    meanCostUsd: real,
    meanLatencyMs: real,
    meanTokens: real,
    meanToolCalls: real,
    meanCandidateCount: real,
    reviewerDisagreementCount: nat,
    falseApprovalCount: nat,
    unauthorizedEffectCount: real,
    duplicateEffectCount: real,
    safetyViolationCount: real,
    recoveryCorrectRate: real,
    illegitimateSuccessCount: nat)

  datatype Report = Report(governedTrialCount: nat, rawTrialCount: nat, groups: seq<Group>)

  function GroupKey(provider: string, trustTier: string): string { provider + "/" + trustTier }

  function KeyOf(x: Trial): string { GroupKey(x.provider, x.trustTier) }

  function KeyOfGroup(g: Group): string { GroupKey(g.provider, g.trustTier) }

  predicate ValidTrial(x: Trial) {
    && x.taskId != "" && x.provider != "" && x.trustTier != ""
    && 1 <= x.trial <= 3
    && x.costUsd >= 0.0 && x.latencyMs >= 0.0 && x.tokens >= 0.0
    && x.toolCalls >= 0.0 && x.candidateCount >= 0.0
    && x.unauthorizedEffects >= 0.0 && x.duplicateEffects >= 0.0 && x.safetyViolations >= 0.0
  }

  predicate AllValid(trials: seq<Trial>) { forall x :: x in trials ==> ValidTrial(x) }

  // ------------------------------------------------------------- grouping

  function GovernedOf(trials: seq<Trial>): (r: seq<Trial>)
    ensures |r| <= |trials|
  {
    if trials == [] then []
    else
      var n := |trials| - 1;
      var rest := GovernedOf(trials[..n]);
      if trials[n].governance.Governed? then rest + [trials[n]] else rest
  }

  lemma {:induction false} GovernedMembers(trials: seq<Trial>, x: Trial)
    ensures x in GovernedOf(trials) <==> x in trials && x.governance.Governed?
  {
    if trials != [] {
      GovernedMembers(trials[..|trials| - 1], x);
      assert trials == trials[..|trials| - 1] + [trials[|trials| - 1]];
    }
  }

  /** The trials that carry one group key, in order. */
  function OfGroup(k: string, trials: seq<Trial>): (r: seq<Trial>) {
    if trials == [] then []
    else
      var n := |trials| - 1;
      var rest := OfGroup(k, trials[..n]);
      if KeyOf(trials[n]) == k then rest + [trials[n]] else rest
  }

  lemma {:induction false} GroupMembers(k: string, trials: seq<Trial>, x: Trial)
    ensures x in OfGroup(k, trials) <==> x in trials && KeyOf(x) == k
  {
    if trials != [] {
      GroupMembers(k, trials[..|trials| - 1], x);
      assert trials == trials[..|trials| - 1] + [trials[|trials| - 1]];
    }
  }

  predicate SameSlot(x: Trial, y: Trial) {
    KeyOf(x) == KeyOf(y) && x.taskId == y.taskId && x.trial == y.trial
  }

  /** Some two trials claim the same group, task and trial number. */
  predicate HasDuplicate(trials: seq<Trial>) {
    exists i, j :: 0 <= i < j < |trials| && SameSlot(trials[i], trials[j])
  }

  type TaskMap = OrderedMap<string, map<int, Trial>>

  predicate Taken(tasks: TaskMap, task: string, n: int) { task in tasks.at && n in tasks.at[task] }

  function AddTask(tasks: TaskMap, x: Trial): TaskMap {
    var taskTrials := if x.taskId in tasks.at then tasks.at[x.taskId] else map[];
    Put(tasks, x.taskId, taskTrials[x.trial := x])
  }

  function TasksOf(trials: seq<Trial>): TaskMap {
    if trials == [] then OrderedMap([], map[])
    else AddTask(TasksOf(trials[..|trials| - 1]), trials[|trials| - 1])
  }

  function MakeGroup(trials: seq<Trial>): TrialGroup
    requires trials != []
  {
    TrialGroup(trials[0].provider, trials[0].trustTier, TasksOf(trials), trials)
  }

  function AddToGroup(g: TrialGroup, x: Trial): TrialGroup {
    g.(trialsByTask := AddTask(g.trialsByTask, x), trials := g.trials + [x])
  }

  function EmptyGroup(x: Trial): TrialGroup {
    TrialGroup(x.provider, x.trustTier, OrderedMap([], map[]), [])
  }

  function AddTrial(groups: OrderedMap<string, TrialGroup>, x: Trial): OrderedMap<string, TrialGroup> {
    var g := if KeyOf(x) in groups.at then groups.at[KeyOf(x)] else EmptyGroup(x);
    Put(groups, KeyOf(x), AddToGroup(g, x))
  }

  function Grouped(trials: seq<Trial>): OrderedMap<string, TrialGroup> {
    if trials == [] then OrderedMap([], map[])
    else AddTrial(Grouped(trials[..|trials| - 1]), trials[|trials| - 1])
  }

  lemma {:induction false} MakeGroupStart(x: Trial)
    ensures MakeGroup([x]) == AddToGroup(EmptyGroup(x), x)
  {
    assert TasksOf([x]) == AddTask(TasksOf([]), x);
  }

  lemma {:induction false} MakeGroupStep(s: seq<Trial>, x: Trial)
    requires s != []
    ensures MakeGroup(s + [x]) == AddToGroup(MakeGroup(s), x)
  {
    assert (s + [x])[..|s|] == s;
  }

  lemma {:induction false} GroupedKeyed(trials: seq<Trial>)
    ensures WellKeyed(Grouped(trials))
  {
    if trials != [] {
      var s, x := trials[..|trials| - 1], trials[|trials| - 1];
      GroupedKeyed(s);
      PutKeyed(Grouped(s), KeyOf(x), Grouped(trials).at[KeyOf(x)]);
    }
  }

  /** What the grouping holds under a key: exactly the trials that carry it. */
  lemma {:induction false} GroupedAt(trials: seq<Trial>, k: string)
    ensures k in Grouped(trials).at <==> OfGroup(k, trials) != []
    ensures k in Grouped(trials).at ==> Grouped(trials).at[k] == MakeGroup(OfGroup(k, trials))
  {
    if trials != [] {
      var s, x := trials[..|trials| - 1], trials[|trials| - 1];
      GroupedAt(s, k);
      if k == KeyOf(x) {
        assert OfGroup(k, trials) == OfGroup(k, s) + [x];
        if OfGroup(k, s) == [] {
          MakeGroupStart(x);
        } else {
          MakeGroupStep(OfGroup(k, s), x);
        }
      }
    }
  }

  lemma {:induction false} TasksKeyed(trials: seq<Trial>)
    ensures WellKeyed(TasksOf(trials))
  {
    if trials != [] {
      var s, x := trials[..|trials| - 1], trials[|trials| - 1];
      TasksKeyed(s);
      PutKeyed(TasksOf(s), x.taskId, TasksOf(trials).at[x.taskId]);
    }
  }

  predicate Claims(x: Trial, task: string, n: int) { x.taskId == task && x.trial == n }

  /** A slot is filled exactly when some trial of the list claims it. */
  lemma {:induction false} SlotTaken(trials: seq<Trial>, task: string, n: int)
    ensures Taken(TasksOf(trials), task, n) <==> exists x :: x in trials && Claims(x, task, n)
    ensures Taken(TasksOf(trials), task, n) ==>
              TasksOf(trials).at[task][n] in trials && Claims(TasksOf(trials).at[task][n], task, n)
  {
    if trials != [] {
      var m := |trials| - 1;
      var s, x := trials[..m], trials[m];
      SlotTaken(s, task, n);
      assert trials == s + [x];
      assert TasksOf(trials) == AddTask(TasksOf(s), x);
      if Claims(x, task, n) {
        assert x in trials;
      }
    }
  }

  lemma {:induction false} TaskKnown(trials: seq<Trial>, task: string)
    ensures task in TasksOf(trials).at <==> exists i :: 0 <= i < |trials| && trials[i].taskId == task
  {
    if trials != [] {
      var m := |trials| - 1;
      TaskKnown(trials[..m], task);
      assert trials == trials[..m] + [trials[m]];
    }
  }

  lemma {:induction false} SlotTakenInGroup(trials: seq<Trial>, x: Trial)
    ensures Taken(TasksOf(OfGroup(KeyOf(x), trials)), x.taskId, x.trial) <==>
            exists y :: y in trials && SameSlot(y, x)
  {
    var g := OfGroup(KeyOf(x), trials);
    SlotTaken(g, x.taskId, x.trial);
    if y :| y in g && Claims(y, x.taskId, x.trial) {
      GroupMembers(KeyOf(x), trials, y);
      assert SameSlot(y, x);
    }
    if y :| y in trials && SameSlot(y, x) {
      GroupMembers(KeyOf(x), trials, y);
      assert Claims(y, x.taskId, x.trial);
    }
  }

  /** A list gains a duplicate at trial `i` exactly when the maps built so far hold that slot. */
  lemma {:induction false} DuplicateStep(trials: seq<Trial>, i: nat)
    requires i < |trials| && !HasDuplicate(trials[..i])
    ensures HasDuplicate(trials[..i + 1]) <==>
            Taken(TasksOf(OfGroup(KeyOf(trials[i]), trials[..i])), trials[i].taskId, trials[i].trial)
  {
    var s, t, x := trials[..i], trials[..i + 1], trials[i];
    SlotTakenInGroup(s, x);
    assert t == s + [x];
    if y :| y in s && SameSlot(y, x) {
      var a :| 0 <= a < i && s[a] == y;
      assert SameSlot(t[a], t[i]);
    }
    if a, b :| 0 <= a < b < |t| && SameSlot(t[a], t[b]) {
      assert s[a] == t[a] && s[a] in s;
      assert b == i;
    }
  }

  lemma {:induction false} DuplicateGrows(trials: seq<Trial>, i: nat)
    requires i <= |trials| && HasDuplicate(trials[..i])
    ensures HasDuplicate(trials)
  {
    var a, b :| 0 <= a < b < i && SameSlot(trials[..i][a], trials[..i][b]);
    assert SameSlot(trials[a], trials[b]);
  }

  lemma {:induction false} GroupedStep(trials: seq<Trial>, i: nat)
    requires i < |trials|
    ensures Grouped(trials[..i + 1]) == AddTrial(Grouped(trials[..i]), trials[i])
  {
    assert trials[..i + 1][..i] == trials[..i];
  }

  /** What the grouping loop looks at to refuse a trial is whether it repeats a slot. */
  lemma {:induction false} TakenMeansDuplicate(trials: seq<Trial>, i: nat)
    requires i < |trials| && !HasDuplicate(trials[..i])
    ensures var x := trials[i];
            var groups := Grouped(trials[..i]);
            var g := if KeyOf(x) in groups.at then groups.at[KeyOf(x)] else EmptyGroup(x);
            Taken(g.trialsByTask, x.taskId, x.trial) <==> HasDuplicate(trials[..i + 1])
  {
    GroupedAt(trials[..i], KeyOf(trials[i]));
    DuplicateStep(trials, i);
  }

  /** groupGovernedTrials: one pass, refusing a slot that is already taken. */
  method GroupGovernedTrials(trials: seq<Trial>) returns (r: Option<OrderedMap<string, TrialGroup>>)
    ensures r.None? <==> HasDuplicate(trials)
    ensures r.Some? ==> r.value == Grouped(trials)
  {
    var groups := OrderedMap<string, TrialGroup>.OrderedMap([], map[]);
    for i := 0 to |trials|
      invariant groups == Grouped(trials[..i])
      invariant !HasDuplicate(trials[..i])
    {
      var x := trials[i];
      var key := KeyOf(x);
      var group := if key in groups.at then groups.at[key] else EmptyGroup(x);
      TakenMeansDuplicate(trials, i);
      if Taken(group.trialsByTask, x.taskId, x.trial) {
        DuplicateGrows(trials, i + 1);
        return None;
      }
      GroupedStep(trials, i);
      groups := Put(groups, key, AddToGroup(group, x));
    }
    assert trials[..|trials|] == trials;
    return Some(groups);
  }

  // ------------------------------------------------------- one group's figures

  predicate HasCompleteTrialSet(trials: map<int, Trial>) {
    forall n :: 1 <= n <= 3 ==> n in trials
  }

  predicate Selected(trials: map<int, Trial>, count: int, every: bool) {
    if every then forall n :: 1 <= n <= count ==> n in trials && trials[n].passed
    else exists n :: 1 <= n <= count && n in trials && trials[n].passed
  }

  function PassedTasks(byTask: map<string, map<int, Trial>>, count: int, every: bool): set<string> {
    set task | task in byTask && Selected(byTask[task], count, every)
  }

  function Ratio(part: nat, whole: nat): real {
    if whole == 0 then 0.0 else part as real / whole as real
  }

  function Total(select: Trial -> real, trials: seq<Trial>): real {
    if trials == [] then 0.0
    else Total(select, trials[..|trials| - 1]) + select(trials[|trials| - 1])
  }

  function Mean(select: Trial -> real, trials: seq<Trial>): real {
    if |trials| == 0 then 0.0 else Total(select, trials) / |trials| as real
  }

  function Count(select: Trial -> bool, trials: seq<Trial>): nat {
    if trials == [] then 0
    else Count(select, trials[..|trials| - 1]) + if select(trials[|trials| - 1]) then 1 else 0
  }

  function Same(s: string): string { s }

  function Incomplete(byTask: OrderedMap<string, map<int, Trial>>, keys: seq<string>): (r: seq<string>)
    ensures forall x :: x in r <==> x in keys && !(x in byTask.at && HasCompleteTrialSet(byTask.at[x]))
    ensures |r| <= |keys|
    ensures Distinct(keys) ==> Distinct(r)
  {
    if keys == [] then []
    else
      var n := |keys| - 1;
      assert keys == keys[..n] + [keys[n]];
      var rest := Incomplete(byTask, keys[..n]);
      assert Distinct(keys) ==> keys[n] !in keys[..n];
      if keys[n] in byTask.at && HasCompleteTrialSet(byTask.at[keys[n]]) then rest else rest + [keys[n]]
  }

  function ComputeGroup(g: TrialGroup): Group {
    var byTask := g.trialsByTask;
    var taskCount := |byTask.keys|;
    var incomplete := Incomplete(byTask, byTask.keys);
    Group(
      g.provider,
      g.trustTier,
      Sort(Same, StrLe, byTask.keys),
      taskCount,
      taskCount - |incomplete|,
      Sort(Same, StrLe, incomplete),
      Ratio(|PassedTasks(byTask.at, 1, false)|, taskCount),
      Ratio(|PassedTasks(byTask.at, 3, false)|, taskCount),
      Ratio(|PassedTasks(byTask.at, 3, true)|, taskCount),
      Mean((x: Trial) => x.costUsd, g.trials),
      Mean((x: Trial) => x.latencyMs, g.trials),
      Mean((x: Trial) => x.tokens, g.trials),
      Mean((x: Trial) => x.toolCalls, g.trials),
      Mean((x: Trial) => x.candidateCount, g.trials),
      Count((x: Trial) => x.reviewerDisagreed, g.trials),
      Count((x: Trial) => x.falseApproval, g.trials),
      Total((x: Trial) => x.unauthorizedEffects, g.trials),
      Total((x: Trial) => x.duplicateEffects, g.trials),
      Total((x: Trial) => x.safetyViolations, g.trials),
      Mean((x: Trial) => if x.recoveryCorrect then 1.0 else 0.0, g.trials),
      Count((x: Trial) => x.illegitimateSuccess, g.trials))
  }

  function ComputeGroups(groups: OrderedMap<string, TrialGroup>, keys: seq<string>): (r: seq<Group>)
    requires forall k :: k in keys ==> k in groups.at
    ensures |r| == |keys|
  {
    if keys == [] then []
    else ComputeGroups(groups, keys[..|keys| - 1]) + [ComputeGroup(groups.at[keys[|keys| - 1]])]
  }

  lemma {:induction false} ComputedAt(groups: OrderedMap<string, TrialGroup>, keys: seq<string>, i: nat)
    requires i < |keys| && forall k :: k in keys ==> k in groups.at
    ensures keys[i] in groups.at && ComputeGroups(groups, keys)[i] == ComputeGroup(groups.at[keys[i]])
  {
    if i < |keys| - 1 { ComputedAt(groups, keys[..|keys| - 1], i); }
  }

  /** `a.localeCompare(b) <= 0`: the host's collation, under which distinct strings may tie. */
  type Collation = (string, string) -> bool

  /** The report of a trial list, or nothing when the source throws. */
  function ComputeReport(collate: Collation, trials: seq<Trial>): (r: Option<Report>) {
    var governed := GovernedOf(trials);
    if !AllValid(trials) || HasDuplicate(governed) then None
    else
      GroupedKeyed(governed);
      var groups := Grouped(governed);
      assert forall k :: k in groups.keys ==> k in ToSet(groups.keys);
      Some(Report(|governed|, |trials| - |governed|,
                  Sort(KeyOfGroup, collate, ComputeGroups(groups, groups.keys))))
  }

  method SelectGoverned(trials: seq<Trial>) returns (valid: bool, governed: seq<Trial>)
    ensures valid <==> AllValid(trials)
    ensures valid ==> governed == GovernedOf(trials)
  {
    governed := [];
    for i := 0 to |trials|
      invariant governed == GovernedOf(trials[..i])
      invariant forall j :: 0 <= j < i ==> ValidTrial(trials[j])
    {
      if !ValidTrial(trials[i]) {
        assert trials[i] in trials;
        return false, [];
      }
      if trials[i].governance.Governed? {
        governed := governed + [trials[i]];
      }
      assert trials[..i + 1][..i] == trials[..i];
    }
    assert trials[..|trials|] == trials;
    return true, governed;
  }

  /** computeTrustSpineEvaluationReport. */
  method ComputeTrustSpineEvaluationReport(collate: Collation, trials: seq<Trial>) returns (r: Option<Report>)
    ensures r == ComputeReport(collate, trials)
  {
    var valid, governed := SelectGoverned(trials);
    if !valid {
      return None;
    }
    var groups := GroupGovernedTrials(governed);
    if groups.None? {
      return None;
    }
    GroupedKeyed(governed);
    assert forall k :: k in groups.value.keys ==> k in ToSet(groups.value.keys);
    var computed := ComputeGroups(groups.value, groups.value.keys);
    return Some(Report(|governed|, |trials| - |governed|, Sort(KeyOfGroup, collate, computed)));
  }
}
