/** The gate's verdict restated on the trial list itself, without groups, maps or reports. */
module ReleaseMeaning {
  import opened Seqs
  import opened ReleaseGate
  import opened ReleaseDecision
  import opened ReleaseReport

  predicate SlashFree(s: string) { '/' !in s }

  ghost predicate TrialNamesSlashFree(trials: seq<Trial>) {
    forall x :: x in trials ==> SlashFree(x.provider) && SlashFree(x.trustTier)
  }

  ghost predicate InputNamesSlashFree(input: GateInput) {
    && (forall p :: p in input.expectedProviders ==> SlashFree(p))
    && (forall t :: t in input.expectedTrustTiers ==> SlashFree(t))
  }

  /** A group key names one provider and one tier when neither contains the separator. */
  lemma {:induction false} KeyNamesOnePair(p: string, t: string, q: string, u: string)
    requires SlashFree(p) && SlashFree(q)
    ensures GroupKey(p, t) == GroupKey(q, u) ==> p == q && t == u
  {
    var a, b := GroupKey(p, t), GroupKey(q, u);
    assert a[|p|] == '/' && b[|q|] == '/';
    assert forall i :: 0 <= i < |p| ==> a[i] == p[i] && p[i] in p;
    assert forall i :: 0 <= i < |q| ==> b[i] == q[i] && q[i] in q;
    assert a[..|p|] == p && b[..|q|] == q;
    assert a[|p| + 1..] == t && b[|q| + 1..] == u;
  }

  predicate InPair(x: Trial, p: string, t: string) {
    x.governance.Governed? && x.provider == p && x.trustTier == t
  }

  // ----------------------------------------------------- the direct predicate

  ghost function PairTasks(trials: seq<Trial>, p: string, t: string): set<string> {
    set x | x in trials && InPair(x, p, t) :: x.taskId
  }

  ghost predicate PairTried(trials: seq<Trial>, p: string, t: string, task: string, n: int) {
    exists x :: x in trials && InPair(x, p, t) && Claims(x, task, n)
  }

  ghost predicate PairWon(trials: seq<Trial>, p: string, t: string, task: string, n: int) {
    exists x :: x in trials && InPair(x, p, t) && Claims(x, task, n) && x.passed
  }

  ghost function FirstWins(trials: seq<Trial>, p: string, t: string, cohort: set<string>): set<string> {
    set task | task in cohort && PairWon(trials, p, t, task, 1)
  }

  ghost function FullWins(trials: seq<Trial>, p: string, t: string, cohort: set<string>): set<string> {
    set task | task in cohort && forall n :: 1 <= n <= 3 ==> PairWon(trials, p, t, task, n)
  }

  /** `part` of `whole` tasks is at least this share of them. */
  predicate Reaches(part: nat, whole: nat, rate: real) { part as real >= rate * whole as real }

  /** Both shares of a pair's wins, against a baseline and what may be lost from it. */
  ghost predicate WinsReach(
      trials: seq<Trial>, p: string, t: string, cohort: set<string>, baseline: Baseline, allowed: real)
  {
    && Reaches(|FirstWins(trials, p, t, cohort)|, |cohort|, baseline.passAt1 - allowed)
    && Reaches(|FullWins(trials, p, t, cohort)|, |cohort|, baseline.passAll3 - allowed)
  }

  /** One expected pair, judged on the trials and the input's own fields, against a cohort of tasks. */
  ghost predicate PairReleasable(trials: seq<Trial>, input: GateInput, p: string, t: string, cohort: set<string>) {
    && PairTasks(trials, p, t) == cohort
    && (forall task, n :: task in cohort && 1 <= n <= 3 ==> PairTried(trials, p, t, task, n))
    && (forall x :: x in trials && InPair(x, p, t) ==> Clean(x))
    && exists b, a :: HeldTo(input, p + "/" + t, b) && Tolerates(input, a) && WinsReach(trials, p, t, cohort, b, a)
  }

  ghost predicate CohortReleasable(trials: seq<Trial>, input: GateInput, cohort: set<string>) {
    && |cohort| >= input.minimumTasksPerGroup
    && forall p, t :: p in input.expectedProviders && t in input.expectedTrustTiers ==>
         PairReleasable(trials, input, p, t, cohort)
  }

  ghost predicate Releasable(trials: seq<Trial>, input: GateInput) {
    GlobalsHold(input) && exists cohort :: CohortReleasable(trials, input, cohort)
  }

  /** The verdict the gate reaches on a report: no blocker is left. */
  predicate Ready(report: Report, input: GateInput) {
    Walk(report, input, Pairs(input.expectedProviders, input.expectedTrustTiers)).blockers == []
  }

  // --------------------------------------------------------------- equivalence

  ghost predicate FilesPair(s: seq<Trial>, trials: seq<Trial>, p: string, t: string) {
    forall x :: x in s <==> x in trials && InPair(x, p, t)
  }

  lemma {:induction false} FiledIsPair(trials: seq<Trial>, p: string, t: string)
    requires TrialNamesSlashFree(trials) && SlashFree(p)
    ensures FilesPair(Filed(trials, GroupKey(p, t)), trials, p, t)
  {
    var k := GroupKey(p, t);
    forall x ensures x in Filed(trials, k) <==> x in trials && InPair(x, p, t) {
      FiledMembers(trials, k, x);
      if x in trials { KeyNamesOnePair(x.provider, x.trustTier, p, t); }
    }
  }

  lemma {:induction false} PairSets(s: seq<Trial>, trials: seq<Trial>, p: string, t: string)
    requires FilesPair(s, trials, p, t)
    ensures TaskSet(s) == PairTasks(trials, p, t)
    ensures Winners(s) == FirstWins(trials, p, t, TaskSet(s))
    ensures AllWinners(s) == FullWins(trials, p, t, TaskSet(s))
  {
    forall task, n ensures Won(s, task, n) <==> PairWon(trials, p, t, task, n) {
    }
    forall task ensures WonAll(s, task) <==> forall n :: 1 <= n <= 3 ==> PairWon(trials, p, t, task, n) {
    }
  }

  lemma {:induction false} PairChecks(s: seq<Trial>, trials: seq<Trial>, p: string, t: string)
    requires FilesPair(s, trials, p, t)
    ensures AllTried(s) <==>
            forall task, n :: task in TaskSet(s) && 1 <= n <= 3 ==> PairTried(trials, p, t, task, n)
    ensures AllClean(s) <==> forall x :: x in trials && InPair(x, p, t) ==> Clean(x)
  {
    forall task, n ensures Tried(s, task, n) <==> PairTried(trials, p, t, task, n) {
    }
  }

  lemma {:induction false} TaskIdsMeaning(s: seq<Trial>)
    requires s != []
    ensures ToSet(ComputeGroup(MakeGroup(s)).taskIds) == TaskSet(s)
  {
    TaskKeys(s);
    var keys := TasksOf(s).keys;
    forall x ensures x in Sort(Same, StrLe, keys) <==> x in keys { SortMembers(Same, StrLe, keys, x); }
    assert ToSet(Sort(Same, StrLe, keys)) == ToSet(keys);
  }

  /** GroupPasses, clause by clause, on the trials of one group. */
  ghost predicate TrialsPass(s: seq<Trial>, key: string, input: GateInput) {
    var baseline := BaselineFor(input, key);
    && |TaskSet(s)| >= input.minimumTasksPerGroup
    && AllTried(s) && AllClean(s)
    && baseline.Some?
    && Ratio(|Winners(s)|, |TaskSet(s)|) >= baseline.value.passAt1 - Allowance(input)
    && Ratio(|AllWinners(s)|, |TaskSet(s)|) >= baseline.value.passAll3 - Allowance(input)
  }

  lemma {:induction false} GroupPassesMeaning(s: seq<Trial>, key: string, input: GateInput)
    requires s != [] && AllValid(s) && SlotsUnique(s)
    ensures GroupPasses(ComputeGroup(MakeGroup(s)), key, input) <==> TrialsPass(s, key, input)
  {
    RatesMeaning(s);
    CompleteMeaning(s);
    CleanMeaning(s);
  }

  lemma {:induction false} ReachesMeaning(part: nat, whole: nat, rate: real)
    requires whole > 0
    ensures Ratio(part, whole) >= rate <==> Reaches(part, whole, rate)
  {
    var x, n := part as real, whole as real;
    Scaled(x / n, rate, n);
    assert x / n * n == x;
  }

  lemma {:induction false} Scaled(x: real, y: real, n: real)
    requires n > 0.0
    ensures x >= y <==> x * n >= y * n
  {
    assert (x - y) * n == x * n - y * n;
    if x >= y { assert (x - y) * n >= 0.0; } else { assert (y - x) * n > 0.0; }
  }

  /** The baseline clause of a group's trials, on the input's own fields. */
  lemma {:induction false} BaselinePassed(s: seq<Trial>, trials: seq<Trial>, p: string, t: string, input: GateInput)
    requires FilesPair(s, trials, p, t) && |TaskSet(s)| > 0
    ensures var baseline := BaselineFor(input, GroupKey(p, t));
            (&& baseline.Some?
             && Ratio(|Winners(s)|, |TaskSet(s)|) >= baseline.value.passAt1 - Allowance(input)
             && Ratio(|AllWinners(s)|, |TaskSet(s)|) >= baseline.value.passAll3 - Allowance(input)) <==>
            exists b, a :: HeldTo(input, p + "/" + t, b) && Tolerates(input, a)
                           && WinsReach(trials, p, t, TaskSet(s), b, a)
  {
    PairSets(s, trials, p, t);
    var key := GroupKey(p, t);
    assert key == p + "/" + t;
    BaselineMeaning(input, key);
    var baseline, allowed := BaselineFor(input, key), Allowance(input);
    if baseline.Some? {
      ReachesMeaning(|Winners(s)|, |TaskSet(s)|, baseline.value.passAt1 - allowed);
      ReachesMeaning(|AllWinners(s)|, |TaskSet(s)|, baseline.value.passAll3 - allowed);
      assert HeldTo(input, key, baseline.value) && Tolerates(input, allowed);
    }
  }

  lemma {:induction false} TrialsPassMeaning(s: seq<Trial>, trials: seq<Trial>, p: string, t: string, input: GateInput)
    requires FilesPair(s, trials, p, t) && input.minimumTasksPerGroup >= 1
    ensures TrialsPass(s, GroupKey(p, t), input) <==>
            |TaskSet(s)| >= input.minimumTasksPerGroup && PairReleasable(trials, input, p, t, TaskSet(s))
  {
    PairSets(s, trials, p, t);
    PairChecks(s, trials, p, t);
    if |TaskSet(s)| > 0 { BaselinePassed(s, trials, p, t, input); }
  }

  lemma {:induction false} PairMeaning(
      collate: Collation, trials: seq<Trial>, input: GateInput, p: string, t: string, cohort: set<string>)
    requires ComputeReport(collate, trials).Some? && ValidInput(input) && TrialNamesSlashFree(trials) && SlashFree(p)
    ensures PairPasses(ComputeReport(collate, trials).value, input, (p, t), cohort) <==>
            |cohort| >= input.minimumTasksPerGroup && PairReleasable(trials, input, p, t, cohort)
  {
    var key := GroupKey(p, t);
    var s := Filed(trials, key);
    FiledIsPair(trials, p, t);
    ReportLookup(collate, trials, key);
    PairSets(s, trials, p, t);
    if s != [] {
      forall x | x in s ensures ValidTrial(x) { FiledMembers(trials, key, x); }
      FiledUnique(collate, trials, key);
      TaskIdsMeaning(s);
      GroupPassesMeaning(s, key, input);
      TrialsPassMeaning(s, trials, p, t, input);
    }
  }

  ghost predicate Judgeable(collate: Collation, trials: seq<Trial>, input: GateInput) {
    && ComputeReport(collate, trials).Some? && ValidInput(input)
    && TrialNamesSlashFree(trials) && InputNamesSlashFree(input)
  }

  /** A ready report has one cohort that every expected pair was held to. */
  lemma {:induction false} ReadyCohort(
      collate: Collation, trials: seq<Trial>, input: GateInput)
    returns (cohort: set<string>)
    requires Judgeable(collate, trials, input) && Ready(ComputeReport(collate, trials).value, input)
    ensures GlobalsHold(input) && CohortReleasable(trials, input, cohort)
  {
    var report := ComputeReport(collate, trials).value;
    var ps, ts := input.expectedProviders, input.expectedTrustTiers;
    var pairs := Pairs(ps, ts);
    PairMembers(ps, ts, ps[0], ts[0]);
    WalkSound(report, input, pairs);
    cohort := ToSet(Walk(report, input, pairs).cohort.value.taskIds);
    PairMeaning(collate, trials, input, ps[0], ts[0], cohort);
    forall p, t | p in ps && t in ts ensures PairReleasable(trials, input, p, t, cohort) {
      PairMembers(ps, ts, p, t);
      PairMeaning(collate, trials, input, p, t, cohort);
    }
  }

  lemma {:induction false} CohortReady(collate: Collation, trials: seq<Trial>, input: GateInput, cohort: set<string>)
    requires Judgeable(collate, trials, input) && GlobalsHold(input) && CohortReleasable(trials, input, cohort)
    ensures Ready(ComputeReport(collate, trials).value, input)
  {
    var report := ComputeReport(collate, trials).value;
    var ps, ts := input.expectedProviders, input.expectedTrustTiers;
    forall pair | pair in Pairs(ps, ts) ensures PairPasses(report, input, pair, cohort) {
      PairMembers(ps, ts, pair.0, pair.1);
      PairMeaning(collate, trials, input, pair.0, pair.1, cohort);
    }
    WalkComplete(report, input, Pairs(ps, ts), cohort);
  }

  /**
   * The release gate, run on a computed report, is ready exactly when the trial list itself
   * meets the release conditions for one cohort of tasks.
   */
  lemma {:induction false} ReadyMeansReleasable(collate: Collation, trials: seq<Trial>, input: GateInput)
    requires Judgeable(collate, trials, input)
    ensures Ready(ComputeReport(collate, trials).value, input) <==> Releasable(trials, input)
  {
    if Ready(ComputeReport(collate, trials).value, input) {
      var cohort := ReadyCohort(collate, trials, input);
    }
    if Releasable(trials, input) {
      var cohort :| CohortReleasable(trials, input, cohort);
      CohortReady(collate, trials, input, cohort);
    }
  }
}
