/** What a computed report says about the trial list it was computed from. */
module ReleaseReport {
  import opened Seqs
  import opened ReleaseGate
  import opened ReleaseDecision

  // -------------------------------------------------------- the groups of a report

  /** The trials a report files under a key. */
  function Filed(trials: seq<Trial>, k: string): seq<Trial> { OfGroup(k, GovernedOf(trials)) }

  lemma {:induction false} FiledMembers(trials: seq<Trial>, k: string, x: Trial)
    ensures x in Filed(trials, k) <==> x in trials && x.governance.Governed? && KeyOf(x) == k
  {
    GroupMembers(k, GovernedOf(trials), x);
    GovernedMembers(trials, x);
  }

  lemma {:induction false} FiledKey(trials: seq<Trial>, k: string)
    requires Filed(trials, k) != []
    ensures KeyOfGroup(ComputeGroup(MakeGroup(Filed(trials, k)))) == k
  {
    FiledMembers(trials, k, Filed(trials, k)[0]);
  }

  lemma {:induction false} LookupFinds(groups: seq<Group>, g: Group)
    requires g in groups && KeysIdentify(KeyOfGroup, groups)
    ensures Lookup(groups, KeyOfGroup(g)) == Some(g)
  {
    var n := |groups| - 1;
    assert groups == groups[..n] + [groups[n]];
    assert groups[n] in groups;
    if KeyOfGroup(groups[n]) != KeyOfGroup(g) {
      LookupFinds(groups[..n], g);
    }
  }

  lemma {:induction false} LookupMember(groups: seq<Group>, k: string)
    requires Lookup(groups, k).Some?
    ensures Lookup(groups, k).value in groups && KeyOfGroup(Lookup(groups, k).value) == k
  {
    var n := |groups| - 1;
    assert groups == groups[..n] + [groups[n]];
    if KeyOfGroup(groups[n]) != k { LookupMember(groups[..n], k); }
  }

  lemma {:induction false} KeysKnown(s: seq<Trial>)
    ensures forall k :: k in Grouped(s).keys <==> k in Grouped(s).at
  {
    GroupedKeyed(s);
    assert forall k :: k in Grouped(s).keys <==> k in ToSet(Grouped(s).keys);
  }

  lemma {:induction false} GroupComputed(collate: Collation, m: OrderedMap<string, TrialGroup>, g: Group)
    requires forall k :: k in m.keys <==> k in m.at
    ensures g in Sort(KeyOfGroup, collate, ComputeGroups(m, m.keys)) <==>
            exists k :: k in m.at && g == ComputeGroup(m.at[k])
  {
    SortMembers(KeyOfGroup, collate, ComputeGroups(m, m.keys), g);
    if g in ComputeGroups(m, m.keys) {
      var k := ComputedFrom(m, m.keys, g);
    }
    if k :| k in m.at && g == ComputeGroup(m.at[k]) {
      KeyComputed(m, m.keys, k);
    }
  }

  lemma {:induction false} ComputedFrom(
      m: OrderedMap<string, TrialGroup>, keys: seq<string>, g: Group)
    returns (k: string)
    requires (forall k :: k in keys ==> k in m.at) && g in ComputeGroups(m, keys)
    ensures k in keys && g == ComputeGroup(m.at[k])
  {
    var n := |keys| - 1;
    if g == ComputeGroup(m.at[keys[n]]) { k := keys[n]; } else { k := ComputedFrom(m, keys[..n], g); }
  }

  lemma {:induction false} KeyComputed(m: OrderedMap<string, TrialGroup>, keys: seq<string>, k: string)
    requires (forall k :: k in keys ==> k in m.at) && k in keys
    ensures ComputeGroup(m.at[k]) in ComputeGroups(m, keys)
  {
    var n := |keys| - 1;
    if k != keys[n] { KeyComputed(m, keys[..n], k); }
  }

  ghost predicate FiguresOf(g: Group, trials: seq<Trial>, k: string) {
    Filed(trials, k) != [] && g == ComputeGroup(MakeGroup(Filed(trials, k)))
  }

  lemma {:induction false} GroupIn(collate: Collation, trials: seq<Trial>, g: Group)
    requires ComputeReport(collate, trials).Some?
    ensures g in ComputeReport(collate, trials).value.groups <==> exists k :: FiguresOf(g, trials, k)
  {
    var gov := GovernedOf(trials);
    var m := Grouped(gov);
    KeysKnown(gov);
    GroupComputed(collate, m, g);
    if k :| k in m.at && g == ComputeGroup(m.at[k]) {
      GroupedAt(gov, k);
      assert FiguresOf(g, trials, k);
    }
    if k :| FiguresOf(g, trials, k) {
      GroupedAt(gov, k);
    }
  }

  /** Looking a key up in a computed report gives the figures of the trials filed under it. */
  lemma {:induction false} ReportLookup(collate: Collation, trials: seq<Trial>, k: string)
    requires ComputeReport(collate, trials).Some?
    ensures Lookup(ComputeReport(collate, trials).value.groups, k)
            == if Filed(trials, k) == [] then None else Some(ComputeGroup(MakeGroup(Filed(trials, k))))
  {
    var groups := ComputeReport(collate, trials).value.groups;
    assert KeysIdentify(KeyOfGroup, groups) by {
      forall g, h | g in groups && h in groups && KeyOfGroup(g) == KeyOfGroup(h) ensures g == h {
        GroupIn(collate, trials, g);
        GroupIn(collate, trials, h);
        var a :| FiguresOf(g, trials, a);
        var b :| FiguresOf(h, trials, b);
        FiledKey(trials, a);
        FiledKey(trials, b);
      }
    }
    if Filed(trials, k) != [] {
      var g := ComputeGroup(MakeGroup(Filed(trials, k)));
      FiledKey(trials, k);
      GroupIn(collate, trials, g);
      assert FiguresOf(g, trials, k);
      LookupFinds(groups, g);
    } else if Lookup(groups, k).Some? {
      LookupMember(groups, k);
      var g := Lookup(groups, k).value;
      GroupIn(collate, trials, g);
      var a :| FiguresOf(g, trials, a);
      FiledKey(trials, a);
    }
  }

  // ------------------------------------------------------------ one group's figures

  function TaskSet(s: seq<Trial>): set<string> { set x | x in s :: x.taskId }

  /** Some trial of the list is trial `n` of this task, and passed. */
  ghost predicate Won(s: seq<Trial>, task: string, n: int) {
    exists x :: x in s && Claims(x, task, n) && x.passed
  }

  ghost predicate Tried(s: seq<Trial>, task: string, n: int) {
    exists x :: x in s && Claims(x, task, n)
  }

  ghost predicate SlotsUnique(s: seq<Trial>) {
    forall x, y :: x in s && y in s && x.taskId == y.taskId && x.trial == y.trial ==> x == y
  }

  lemma {:induction false} TaskKeys(s: seq<Trial>)
    ensures TasksOf(s).at.Keys == TaskSet(s) && ToSet(TasksOf(s).keys) == TaskSet(s)
    ensures |TasksOf(s).keys| == |TaskSet(s)| && Distinct(TasksOf(s).keys)
  {
    TasksKeyed(s);
    forall task ensures task in TasksOf(s).at <==> task in TaskSet(s) {
      TaskKnown(s, task);
      if i :| 0 <= i < |s| && s[i].taskId == task { assert s[i] in s; }
    }
    assert TasksOf(s).at.Keys == TaskSet(s);
    DistinctCount(TasksOf(s).keys);
  }

  lemma {:induction false} SelectedOne(s: seq<Trial>, task: string, n: int)
    requires SlotsUnique(s) && task in TasksOf(s).at
    ensures (n in TasksOf(s).at[task] && TasksOf(s).at[task][n].passed) <==> Won(s, task, n)
  {
    SlotTaken(s, task, n);
    if x :| x in s && Claims(x, task, n) && x.passed {
      assert Taken(TasksOf(s), task, n);
      assert TasksOf(s).at[task][n] == x;
    }
  }

  ghost function Winners(s: seq<Trial>): set<string> { set task | task in TaskSet(s) && Won(s, task, 1) }

  ghost predicate WonAll(s: seq<Trial>, task: string) { Won(s, task, 1) && Won(s, task, 2) && Won(s, task, 3) }

  ghost predicate WonAny(s: seq<Trial>, task: string) { Won(s, task, 1) || Won(s, task, 2) || Won(s, task, 3) }

  ghost function AllWinners(s: seq<Trial>): set<string> { set task | task in TaskSet(s) && WonAll(s, task) }

  ghost function AnyWinners(s: seq<Trial>): set<string> { set task | task in TaskSet(s) && WonAny(s, task) }

  lemma {:induction false} SelectedMeaning(s: seq<Trial>, task: string)
    requires SlotsUnique(s) && task in TasksOf(s).at
    ensures Selected(TasksOf(s).at[task], 1, false) <==> Won(s, task, 1)
    ensures Selected(TasksOf(s).at[task], 3, false) <==> WonAny(s, task)
    ensures Selected(TasksOf(s).at[task], 3, true) <==> WonAll(s, task)
  {
    SelectedOne(s, task, 1);
    SelectedOne(s, task, 2);
    SelectedOne(s, task, 3);
    var m := TasksOf(s).at[task];
    assert Selected(m, 1, false) <==> (1 in m && m[1].passed);
  }

  lemma {:induction false} PassedMeaning(s: seq<Trial>)
    requires SlotsUnique(s)
    ensures PassedTasks(TasksOf(s).at, 1, false) == Winners(s)
    ensures PassedTasks(TasksOf(s).at, 3, false) == AnyWinners(s)
    ensures PassedTasks(TasksOf(s).at, 3, true) == AllWinners(s)
  {
    TaskKeys(s);
    forall task | task in TasksOf(s).at
      ensures Selected(TasksOf(s).at[task], 1, false) <==> Won(s, task, 1)
      ensures Selected(TasksOf(s).at[task], 3, false) <==> WonAny(s, task)
      ensures Selected(TasksOf(s).at[task], 3, true) <==> WonAll(s, task)
    {
      SelectedMeaning(s, task);
    }
  }

  /** pass@1, pass@3 and pass^3 of a group, from its trials; pass^3 <= pass@1 <= pass@3 <= 1. */
  lemma {:induction false} RatesMeaning(s: seq<Trial>)
    requires s != [] && SlotsUnique(s)
    ensures ComputeGroup(MakeGroup(s)).passAt1 == Ratio(|Winners(s)|, |TaskSet(s)|)
    ensures ComputeGroup(MakeGroup(s)).passAt3 == Ratio(|AnyWinners(s)|, |TaskSet(s)|)
    ensures ComputeGroup(MakeGroup(s)).passAll3 == Ratio(|AllWinners(s)|, |TaskSet(s)|)
    ensures ComputeGroup(MakeGroup(s)).taskCount == |TaskSet(s)| > 0
  {
    PassedMeaning(s);
    TaskKeys(s);
    assert s[0].taskId in TaskSet(s);
  }

  lemma {:induction false} RatioMonotone(a: nat, b: nat, n: nat)
    requires a <= b
    ensures Ratio(a, n) <= Ratio(b, n)
  {
    if n > 0 {
      var d := (b - a) as real / n as real;
      assert d >= 0.0;
      assert b as real / n as real == a as real / n as real + d;
    }
  }

  lemma {:induction false} WinnersNested(s: seq<Trial>)
    ensures 0 <= |AllWinners(s)| <= |Winners(s)| <= |AnyWinners(s)| <= |TaskSet(s)|
  {
    SubsetCount(AllWinners(s), Winners(s));
    SubsetCount(Winners(s), AnyWinners(s));
    SubsetCount(AnyWinners(s), TaskSet(s));
  }

  lemma {:induction false} RatioChain(a: nat, b: nat, c: nat, n: nat)
    requires a <= b <= c <= n
    ensures 0.0 <= Ratio(a, n) <= Ratio(b, n) <= Ratio(c, n) <= 1.0
  {
    RatioMonotone(0, a, n);
    RatioMonotone(a, b, n);
    RatioMonotone(b, c, n);
    RatioMonotone(c, n, n);
  }

  lemma {:induction false} RatesOrdered(s: seq<Trial>)
    requires s != [] && SlotsUnique(s)
    ensures var g := ComputeGroup(MakeGroup(s)); 0.0 <= g.passAll3 <= g.passAt1 <= g.passAt3 <= 1.0
  {
    RatesMeaning(s);
    WinnersNested(s);
    RatioChain(|AllWinners(s)|, |Winners(s)|, |AnyWinners(s)|, |TaskSet(s)|);
  }

  lemma {:induction false} FiledUnique(collate: Collation, trials: seq<Trial>, k: string)
    requires ComputeReport(collate, trials).Some?
    ensures SlotsUnique(Filed(trials, k))
  {
    var gov := GovernedOf(trials);
    forall x, y | x in Filed(trials, k) && y in Filed(trials, k) && x.taskId == y.taskId && x.trial == y.trial
      ensures x == y
    {
      GroupMembers(k, gov, x);
      GroupMembers(k, gov, y);
      var i :| 0 <= i < |gov| && gov[i] == x;
      var j :| 0 <= j < |gov| && gov[j] == y;
      assert SameSlot(gov[i], gov[j]) && SameSlot(gov[j], gov[i]);
    }
  }

  /** In every group of every report, pass^3 <= pass@1 <= pass@3 <= 1. */
  lemma {:induction false} ReportRatesOrdered(collate: Collation, trials: seq<Trial>, g: Group)
    requires ComputeReport(collate, trials).Some? && g in ComputeReport(collate, trials).value.groups
    ensures 0.0 <= g.passAll3 <= g.passAt1 <= g.passAt3 <= 1.0
  {
    GroupIn(collate, trials, g);
    var k :| FiguresOf(g, trials, k);
    FiledUnique(collate, trials, k);
    RatesOrdered(Filed(trials, k));
  }

  // --------------------------------------------------- totals, counts, completeness

  lemma {:induction false} CountZero(select: Trial -> bool, s: seq<Trial>)
    ensures Count(select, s) == 0 <==> forall x :: x in s ==> !select(x)
  {
    if s != [] {
      var n := |s| - 1;
      CountZero(select, s[..n]);
      assert s == s[..n] + [s[n]];
      assert s[n] in s;
    }
  }

  lemma {:induction false} TotalZero(select: Trial -> real, s: seq<Trial>)
    requires forall x :: x in s ==> select(x) >= 0.0
    ensures Total(select, s) >= 0.0
    ensures Total(select, s) <= 0.0 <==> forall x :: x in s ==> select(x) == 0.0
  {
    if s != [] {
      var n := |s| - 1;
      assert s == s[..n] + [s[n]];
      assert s[n] in s;
      TotalZero(select, s[..n]);
    }
  }

  lemma {:induction false} TotalFull(select: Trial -> real, s: seq<Trial>)
    requires forall x :: x in s ==> select(x) <= 1.0
    ensures Total(select, s) <= |s| as real
    ensures Total(select, s) == |s| as real <==> forall x :: x in s ==> select(x) == 1.0
  {
    if s != [] {
      var n := |s| - 1;
      assert s == s[..n] + [s[n]];
      assert s[n] in s;
      TotalFull(select, s[..n]);
    }
  }

  lemma {:induction false} MeanFull(select: Trial -> real, s: seq<Trial>)
    requires s != [] && forall x :: x in s ==> select(x) <= 1.0
    ensures Mean(select, s) == 1.0 <==> forall x :: x in s ==> select(x) == 1.0
  {
    TotalFull(select, s);
    var total, n := Total(select, s), |s| as real;
    assert total / n == 1.0 <==> total == n;
  }

  ghost predicate AllTried(s: seq<Trial>) {
    forall task, n :: task in TaskSet(s) && 1 <= n <= 3 ==> Tried(s, task, n)
  }

  lemma {:induction false} NoneIncomplete(s: seq<Trial>)
    ensures Incomplete(TasksOf(s), TasksOf(s).keys) == [] <==> AllTried(s)
  {
    TaskKeys(s);
    var tasks := TasksOf(s);
    var inc := Incomplete(tasks, tasks.keys);
    if inc == [] {
      forall task, n | task in TaskSet(s) && 1 <= n <= 3 ensures Tried(s, task, n) {
        assert task in ToSet(tasks.keys) && task !in inc;
        SlotTaken(s, task, n);
        assert Taken(tasks, task, n);
      }
    } else {
      var task := inc[0];
      assert task in inc && task in ToSet(tasks.keys);
      var n :| 1 <= n <= 3 && n !in tasks.at[task];
      SlotTaken(s, task, n);
      assert !Tried(s, task, n);
    }
  }

  lemma {:induction false} CompleteMeaning(s: seq<Trial>)
    requires s != []
    ensures ComputeGroup(MakeGroup(s)).completeTaskCount == ComputeGroup(MakeGroup(s)).taskCount <==> AllTried(s)
  {
    NoneIncomplete(s);
  }

  /** No bad effect is recorded, and recovery was correct. */
  predicate Clean(x: Trial) {
    && !x.falseApproval && !x.illegitimateSuccess && x.recoveryCorrect
    && x.unauthorizedEffects == 0.0 && x.duplicateEffects == 0.0 && x.safetyViolations == 0.0
  }

  ghost predicate AllClean(s: seq<Trial>) { forall x :: x in s ==> Clean(x) }

  lemma {:induction false} CleanSplit(s: seq<Trial>)
    ensures AllClean(s) <==>
            (&& (forall x :: x in s ==> !x.falseApproval) && (forall x :: x in s ==> !x.illegitimateSuccess)
             && (forall x :: x in s ==> x.unauthorizedEffects == 0.0)
             && (forall x :: x in s ==> x.duplicateEffects == 0.0)
             && (forall x :: x in s ==> x.safetyViolations == 0.0)
             && (forall x :: x in s ==> x.recoveryCorrect))
  {
  }

  predicate GroupClean(g: Group) {
    && g.falseApprovalCount == 0 && g.illegitimateSuccessCount == 0
    && g.unauthorizedEffectCount <= 0.0 && g.duplicateEffectCount <= 0.0 && g.safetyViolationCount <= 0.0
    && g.recoveryCorrectRate == 1.0
  }

  lemma {:induction false} CleanMeaning(s: seq<Trial>)
    requires s != [] && AllValid(s)
    ensures GroupClean(ComputeGroup(MakeGroup(s))) <==> AllClean(s)
  {
    CountZero((x: Trial) => x.falseApproval, s);
    CountZero((x: Trial) => x.illegitimateSuccess, s);
    TotalZero((x: Trial) => x.unauthorizedEffects, s);
    TotalZero((x: Trial) => x.duplicateEffects, s);
    TotalZero((x: Trial) => x.safetyViolations, s);
    MeanFull((x: Trial) => if x.recoveryCorrect then 1.0 else 0.0, s);
    CleanSplit(s);
  }

  // ------------------------------------------------------------------- partition

  function SizeSum(keys: seq<string>, s: seq<Trial>): nat {
    if keys == [] then 0
    else SizeSum(keys[..|keys| - 1], s) + |OfGroup(keys[|keys| - 1], s)|
  }

  lemma {:induction false} SizeSumStep(keys: seq<string>, s: seq<Trial>)
    requires Distinct(keys) && s != []
    ensures SizeSum(keys, s) ==
            SizeSum(keys, s[..|s| - 1]) + if KeyOf(s[|s| - 1]) in keys then 1 else 0
  {
    if keys != [] {
      var n := |keys| - 1;
      SizeSumStep(keys[..n], s);
      assert keys == keys[..n] + [keys[n]];
    }
  }

  lemma {:induction false} SizeSumTotal(keys: seq<string>, s: seq<Trial>)
    requires Distinct(keys) && forall x :: x in s ==> KeyOf(x) in keys
    ensures SizeSum(keys, s) == |s|
  {
    if s != [] {
      var n := |s| - 1;
      assert s == s[..n] + [s[n]] && s[n] in s;
      SizeSumStep(keys, s);
      SizeSumTotal(keys, s[..n]);
    } else if keys != [] {
      SizeSumTotal(keys[..|keys| - 1], s);
    }
  }

  /** The groups partition the governed trials, and governed and raw trials make up the list. */
  lemma {:induction false} GroupsPartitionTrials(collate: Collation, trials: seq<Trial>)
    requires ComputeReport(collate, trials).Some?
    ensures SizeSum(Grouped(GovernedOf(trials)).keys, GovernedOf(trials))
            == ComputeReport(collate, trials).value.governedTrialCount
    ensures var r := ComputeReport(collate, trials).value; r.governedTrialCount + r.rawTrialCount == |trials|
    ensures |Grouped(GovernedOf(trials)).keys| == |ComputeReport(collate, trials).value.groups|
  {
    var s := GovernedOf(trials);
    GroupedKeyed(s);
    var keys := Grouped(s).keys;
    assert forall k :: k in keys ==> k in ToSet(keys);
    forall x | x in s ensures KeyOf(x) in keys {
      GroupMembers(KeyOf(x), s, x);
      GroupedAt(s, KeyOf(x));
      assert KeyOf(x) in ToSet(keys);
    }
    SizeSumTotal(keys, s);
    SortPermutes(KeyOfGroup, collate, ComputeGroups(Grouped(s), keys));
  }

  lemma {:induction false} GovernedIdempotent(trials: seq<Trial>)
    ensures GovernedOf(GovernedOf(trials)) == GovernedOf(trials)
  {
    if trials != [] {
      var n := |trials| - 1;
      GovernedIdempotent(trials[..n]);
      var rest := GovernedOf(trials[..n]);
      assert (rest + [trials[n]])[..|rest|] == rest;
    }
  }

  /** Raw trials never reach a group: dropping them all leaves the groups as they were. */
  lemma {:induction false} RawTrialsIgnored(collate: Collation, trials: seq<Trial>)
    requires ComputeReport(collate, trials).Some?
    ensures ComputeReport(collate, GovernedOf(trials)).Some?
    ensures ComputeReport(collate, GovernedOf(trials)).value.groups == ComputeReport(collate, trials).value.groups
    ensures ComputeReport(collate, GovernedOf(trials)).value.rawTrialCount == 0
  {
    GovernedIdempotent(trials);
    forall x | x in GovernedOf(trials) ensures ValidTrial(x) { GovernedMembers(trials, x); }
  }
}
