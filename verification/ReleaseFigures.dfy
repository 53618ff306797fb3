/** What every figure of a reported group says of the trials filed under it. */
module ReleaseFigures {
  import opened Seqs
  import opened ReleaseGate
  import opened ReleaseReport

  // ------------------------------------------------------------ sums and counts

  /** A total adds up: nothing for no trials, a trial's own figure for one, and the parts of a list together. */
  lemma {:induction false} TotalAdds(select: Trial -> real, a: seq<Trial>, b: seq<Trial>, x: Trial)
    ensures Total(select, []) == 0.0 && Total(select, [x]) == select(x)
    ensures Total(select, a + b) == Total(select, a) + Total(select, b)
    decreases |b|
  {
    assert [x][..0] == [];
    if b == [] {
      assert a + b == a;
    } else {
      var n := |b| - 1;
      TotalAdds(select, a, b[..n], x);
      assert (a + b)[..|a| + n] == a + b[..n];
    }
  }

  ghost function Chosen(select: Trial -> bool, s: seq<Trial>): set<nat> { set i: nat | i < |s| && select(s[i]) }

  lemma {:induction false} CountMeaning(select: Trial -> bool, s: seq<Trial>)
    ensures Count(select, s) == |Chosen(select, s)|
  {
    if s == [] {
      assert Chosen(select, s) == {};
    } else {
      var n := |s| - 1;
      CountMeaning(select, s[..n]);
      assert forall i :: 0 <= i < n ==> s[..n][i] == s[i];
      assert Chosen(select, s) == Chosen(select, s[..n]) + if select(s[n]) then {n} else {};
    }
  }

  lemma {:induction false} MeanMeaning(select: Trial -> real, s: seq<Trial>)
    requires s != []
    ensures Mean(select, s) * |s| as real == Total(select, s)
  {
    Divided(Total(select, s), |s| as real);
  }

  lemma {:induction false} Divided(x: real, n: real)
    requires n != 0.0
    ensures x / n * n == x
  {
  }

  lemma {:induction false} RatioMeaning(part: nat, whole: nat)
    requires whole > 0
    ensures Ratio(part, whole) * whole as real == part as real
  {
    Divided(part as real, whole as real);
  }

  // --------------------------------------------------------------------- tasks

  /** The names ascend, each once, and are those of the set. */
  ghost predicate Lists(names: seq<string>, tasks: set<string>) {
    ToSet(names) == tasks && forall i, j :: 0 <= i < j < |names| ==> StrBelow(names[i], names[j])
  }

  lemma {:induction false} SortedApart(r: seq<string>, names: seq<string>, i: nat, j: nat)
    requires Distinct(names) && multiset(r) == multiset(names) && i < j < |r| && StrLe(r[i], r[j])
    ensures StrBelow(r[i], r[j])
  {
    StrLeMeaning(r[i], r[j]);
    if r[i] == r[j] {
      assert r == r[..j] + [r[j]] + r[j + 1..];
      assert r[i] in r[..j];
      DistinctOnce(names, r[i]);
    }
  }

  lemma {:induction false} SortLists(names: seq<string>)
    requires Distinct(names)
    ensures Lists(Sort(Same, StrLe, names), ToSet(names)) && |Sort(Same, StrLe, names)| == |names|
  {
    var r := Sort(Same, StrLe, names);
    StrTotalOrder();
    SortSorted(Same, StrLe, names);
    SortPermutes(Same, StrLe, names);
    assert ToSet(r) == ToSet(names) by {
      forall x ensures x in r <==> x in names { SortMembers(Same, StrLe, names, x); }
    }
    forall i, j | 0 <= i < j < |r| ensures StrBelow(r[i], r[j]) {
      assert StrLe(Same(r[i]), Same(r[j]));
      SortedApart(r, names, i, j);
    }
  }

  /** The tasks all three of whose trials were made. */
  ghost function CompleteTasks(s: seq<Trial>): set<string> {
    set task | task in TaskSet(s) && Tried(s, task, 1) && Tried(s, task, 2) && Tried(s, task, 3)
  }

  lemma {:induction false} CompleteAt(s: seq<Trial>, task: string)
    requires task in TasksOf(s).at
    ensures HasCompleteTrialSet(TasksOf(s).at[task]) <==> Tried(s, task, 1) && Tried(s, task, 2) && Tried(s, task, 3)
  {
    SlotTaken(s, task, 1);
    SlotTaken(s, task, 2);
    SlotTaken(s, task, 3);
    assert forall n :: n in TasksOf(s).at[task] <==> Taken(TasksOf(s), task, n);
  }

  lemma {:induction false} IncompleteMeaning(s: seq<Trial>)
    ensures var inc := Incomplete(TasksOf(s), TasksOf(s).keys);
            Distinct(inc) && ToSet(inc) == TaskSet(s) - CompleteTasks(s)
  {
    TaskKeys(s);
    var tasks := TasksOf(s);
    var inc := Incomplete(tasks, tasks.keys);
    forall x ensures x in ToSet(inc) <==> x in TaskSet(s) - CompleteTasks(s) {
      assert x in tasks.keys <==> x in ToSet(tasks.keys);
      if x in tasks.at { CompleteAt(s, x); }
    }
  }

  ghost predicate TasksFigured(g: Group, s: seq<Trial>) {
    && Lists(g.taskIds, TaskSet(s)) && g.taskCount == |TaskSet(s)|
    && g.completeTaskCount == |CompleteTasks(s)| && Lists(g.incompleteTaskIds, TaskSet(s) - CompleteTasks(s))
  }

  lemma {:induction false} CompleteCount(s: seq<Trial>)
    ensures |TaskSet(s)| - |TaskSet(s) - CompleteTasks(s)| == |CompleteTasks(s)|
  {
    assert TaskSet(s) == CompleteTasks(s) + (TaskSet(s) - CompleteTasks(s));
  }

  lemma {:induction false} TasksFrom(g: Group, s: seq<Trial>, keys: seq<string>, inc: seq<string>)
    requires Distinct(keys) && ToSet(keys) == TaskSet(s) && Distinct(inc) && ToSet(inc) == TaskSet(s) - CompleteTasks(s)
    requires g.taskIds == Sort(Same, StrLe, keys) && g.incompleteTaskIds == Sort(Same, StrLe, inc)
    requires g.taskCount == |keys| && g.completeTaskCount == |keys| - |inc|
    ensures TasksFigured(g, s)
  {
    SortLists(keys);
    SortLists(inc);
    DistinctCount(keys);
    DistinctCount(inc);
    CompleteCount(s);
  }

  lemma {:induction false} TaskFigures(s: seq<Trial>)
    requires s != []
    ensures TasksFigured(ComputeGroup(MakeGroup(s)), s)
  {
    TaskKeys(s);
    IncompleteMeaning(s);
    var keys, inc := TasksOf(s).keys, Incomplete(TasksOf(s), TasksOf(s).keys);
    TasksFrom(ComputeGroup(MakeGroup(s)), s, keys, inc);
  }

  // -------------------------------------------------------------------- figures

  ghost predicate RatesFigured(g: Group, s: seq<Trial>) {
    && g.passAt1 * |TaskSet(s)| as real == |Winners(s)| as real
    && g.passAt3 * |TaskSet(s)| as real == |AnyWinners(s)| as real
    && g.passAll3 * |TaskSet(s)| as real == |AllWinners(s)| as real
  }

  ghost predicate MeansFigured(g: Group, s: seq<Trial>) {
    && g.meanCostUsd * |s| as real == Total((x: Trial) => x.costUsd, s)
    && g.meanLatencyMs * |s| as real == Total((x: Trial) => x.latencyMs, s)
    && g.meanTokens * |s| as real == Total((x: Trial) => x.tokens, s)
    && g.meanToolCalls * |s| as real == Total((x: Trial) => x.toolCalls, s)
    && g.meanCandidateCount * |s| as real == Total((x: Trial) => x.candidateCount, s)
    && g.recoveryCorrectRate * |s| as real == |Chosen((x: Trial) => x.recoveryCorrect, s)| as real
  }

  ghost predicate EffectsFigured(g: Group, s: seq<Trial>) {
    && g.unauthorizedEffectCount == Total((x: Trial) => x.unauthorizedEffects, s)
    && g.duplicateEffectCount == Total((x: Trial) => x.duplicateEffects, s)
    && g.safetyViolationCount == Total((x: Trial) => x.safetyViolations, s)
    && g.reviewerDisagreementCount == |Chosen((x: Trial) => x.reviewerDisagreed, s)|
    && g.falseApprovalCount == |Chosen((x: Trial) => x.falseApproval, s)|
    && g.illegitimateSuccessCount == |Chosen((x: Trial) => x.illegitimateSuccess, s)|
  }

  lemma {:induction false} RatesFrom(g: Group, s: seq<Trial>)
    requires |TaskSet(s)| > 0 && g.passAt1 == Ratio(|Winners(s)|, |TaskSet(s)|)
    requires g.passAt3 == Ratio(|AnyWinners(s)|, |TaskSet(s)|) && g.passAll3 == Ratio(|AllWinners(s)|, |TaskSet(s)|)
    ensures RatesFigured(g, s)
  {
    RatioMeaning(|Winners(s)|, |TaskSet(s)|);
    RatioMeaning(|AnyWinners(s)|, |TaskSet(s)|);
    RatioMeaning(|AllWinners(s)|, |TaskSet(s)|);
  }

  lemma {:induction false} RateFigures(s: seq<Trial>)
    requires s != [] && SlotsUnique(s)
    ensures RatesFigured(ComputeGroup(MakeGroup(s)), s)
  {
    RatesMeaning(s);
    RatesFrom(ComputeGroup(MakeGroup(s)), s);
  }

  lemma {:induction false} CountedTotal(select: Trial -> bool, weight: Trial -> real, s: seq<Trial>)
    requires forall x :: weight(x) == if select(x) then 1.0 else 0.0
    ensures Total(weight, s) == Count(select, s) as real
  {
    if s != [] { CountedTotal(select, weight, s[..|s| - 1]); }
  }

  lemma {:induction false} CorrectShare(s: seq<Trial>)
    requires s != []
    ensures Mean((x: Trial) => if x.recoveryCorrect then 1.0 else 0.0, s) * |s| as real
            == |Chosen((x: Trial) => x.recoveryCorrect, s)| as real
  {
    var correct := (x: Trial) => x.recoveryCorrect;
    var weight := (x: Trial) => if x.recoveryCorrect then 1.0 else 0.0;
    MeanMeaning(weight, s);
    CountedTotal(correct, weight, s);
    CountMeaning(correct, s);
  }

  lemma {:induction false} MeansFrom(g: Group, s: seq<Trial>)
    requires s != []
    requires g.meanCostUsd == Mean((x: Trial) => x.costUsd, s) && g.meanLatencyMs == Mean((x: Trial) => x.latencyMs, s)
    requires g.meanTokens == Mean((x: Trial) => x.tokens, s) && g.meanToolCalls == Mean((x: Trial) => x.toolCalls, s)
    requires g.meanCandidateCount == Mean((x: Trial) => x.candidateCount, s)
    requires g.recoveryCorrectRate == Mean((x: Trial) => if x.recoveryCorrect then 1.0 else 0.0, s)
    ensures MeansFigured(g, s)
  {
    MeanMeaning((x: Trial) => x.costUsd, s);
    MeanMeaning((x: Trial) => x.latencyMs, s);
    MeanMeaning((x: Trial) => x.tokens, s);
    MeanMeaning((x: Trial) => x.toolCalls, s);
    MeanMeaning((x: Trial) => x.candidateCount, s);
    CorrectShare(s);
  }

  lemma {:induction false} MeanFigures(s: seq<Trial>)
    requires s != []
    ensures MeansFigured(ComputeGroup(MakeGroup(s)), s)
  {
    MeansFrom(ComputeGroup(MakeGroup(s)), s);
  }

  lemma {:induction false} EffectFigures(s: seq<Trial>)
    requires s != []
    ensures EffectsFigured(ComputeGroup(MakeGroup(s)), s)
  {
    CountMeaning((x: Trial) => x.reviewerDisagreed, s);
    CountMeaning((x: Trial) => x.falseApproval, s);
    CountMeaning((x: Trial) => x.illegitimateSuccess, s);
  }

  /**
   * Every group of every report: the trials filed under its key give its tasks, complete and incomplete, in ascending
   * order; its rates as shares of those tasks; its means, totals and counts over those trials.
   */
  lemma {:induction false} GroupFigures(collate: Collation, trials: seq<Trial>, g: Group)
    requires ComputeReport(collate, trials).Some? && g in ComputeReport(collate, trials).value.groups
    ensures var s := Filed(trials, KeyOfGroup(g));
            && s != [] && g.provider == s[0].provider && g.trustTier == s[0].trustTier
            && TasksFigured(g, s) && RatesFigured(g, s) && MeansFigured(g, s) && EffectsFigured(g, s)
  {
    GroupIn(collate, trials, g);
    var k :| FiguresOf(g, trials, k);
    FiledKey(trials, k);
    FiledUnique(collate, trials, k);
    var s := Filed(trials, k);
    TaskFigures(s);
    RateFigures(s);
    MeanFigures(s);
    EffectFigures(s);
  }
}
