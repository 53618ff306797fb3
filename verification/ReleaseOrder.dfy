/** When the order of the trial list matters to a report: exactly when group keys are ambiguous or tied. */
module ReleaseOrder {
  import opened Seqs
  import opened ReleaseGate
  import opened ReleaseDecision
  import opened ReleaseReport

  ghost predicate Permuted(s: seq<Trial>, t: seq<Trial>) { multiset(s) == multiset(t) }

  lemma {:induction false} PermutedMembers(s: seq<Trial>, t: seq<Trial>)
    requires Permuted(s, t)
    ensures |s| == |t| && forall x :: x in s <==> x in t
  {
    assert |multiset(s)| == |multiset(t)|;
    forall x ensures x in s <==> x in t { assert x in multiset(s) <==> x in multiset(t); }
  }

  // -------------------------------------------------------- filters keep permutation

  lemma {:induction false} GovernedCount(s: seq<Trial>, x: Trial)
    ensures multiset(GovernedOf(s))[x] == if x.governance.Governed? then multiset(s)[x] else 0
  {
    if s != [] {
      var n := |s| - 1;
      GovernedCount(s[..n], x);
      assert s == s[..n] + [s[n]];
    }
  }

  lemma {:induction false} GroupCount(k: string, s: seq<Trial>, x: Trial)
    ensures multiset(OfGroup(k, s))[x] == if KeyOf(x) == k then multiset(s)[x] else 0
  {
    if s != [] {
      var n := |s| - 1;
      GroupCount(k, s[..n], x);
      assert s == s[..n] + [s[n]];
    }
  }

  lemma {:induction false} GovernedPermuted(s: seq<Trial>, t: seq<Trial>)
    requires Permuted(s, t)
    ensures Permuted(GovernedOf(s), GovernedOf(t))
  {
    forall x ensures multiset(GovernedOf(s))[x] == multiset(GovernedOf(t))[x] {
      GovernedCount(s, x);
      GovernedCount(t, x);
    }
  }

  lemma {:induction false} FiledPermuted(s: seq<Trial>, t: seq<Trial>, k: string)
    requires Permuted(s, t)
    ensures Permuted(Filed(s, k), Filed(t, k))
  {
    GovernedPermuted(s, t);
    forall x ensures multiset(Filed(s, k))[x] == multiset(Filed(t, k))[x] {
      GroupCount(k, GovernedOf(s), x);
      GroupCount(k, GovernedOf(t), x);
    }
  }

  // ------------------------------------------------------------- duplicates

  ghost predicate Clashes(s: seq<Trial>, x: Trial, y: Trial) {
    x in s && y in s && SameSlot(x, y) && (x != y || multiset(s)[x] > 1)
  }

  lemma {:induction false} TwoPlaces(s: seq<Trial>, i: nat, j: nat)
    requires i < j < |s| && s[i] == s[j]
    ensures multiset(s)[s[i]] > 1
  {
    assert s == s[..j] + [s[j]] + s[j + 1..];
    assert s[i] in s[..j];
  }

  lemma {:induction false} FindTwo(s: seq<Trial>, x: Trial) returns (i: nat, j: nat)
    requires multiset(s)[x] > 1
    ensures i < j < |s| && s[i] == x && s[j] == x
  {
    assert x in s;
    j :| j < |s| && s[j] == x;
    var rest := s[..j] + s[j + 1..];
    assert s == s[..j] + [s[j]] + s[j + 1..];
    assert multiset(s) == multiset(rest) + multiset{x};
    assert x in multiset(rest);
    var k :| 0 <= k < |rest| && rest[k] == x;
    if k < j { i := k; } else { i, j := j, k + 1; }
  }

  lemma {:induction false} DuplicateMeaning(s: seq<Trial>)
    ensures HasDuplicate(s) <==> exists x, y :: Clashes(s, x, y)
  {
    if HasDuplicate(s) {
      var i, j :| 0 <= i < j < |s| && SameSlot(s[i], s[j]);
      if s[i] == s[j] { TwoPlaces(s, i, j); }
      assert Clashes(s, s[i], s[j]);
    }
    if x, y :| Clashes(s, x, y) {
      if x == y {
        var i, j := FindTwo(s, x);
        assert SameSlot(s[i], s[j]);
      } else {
        var i :| 0 <= i < |s| && s[i] == x;
        var j :| 0 <= j < |s| && s[j] == y;
        assert SameSlot(s[i], s[j]) && SameSlot(s[j], s[i]);
      }
    }
  }

  lemma {:induction false} ReportExists(collate: Collation, s: seq<Trial>, t: seq<Trial>)
    requires Permuted(s, t)
    ensures ComputeReport(collate, s).Some? <==> ComputeReport(collate, t).Some?
    ensures |GovernedOf(s)| == |GovernedOf(t)| && |s| == |t|
  {
    PermutedMembers(s, t);
    GovernedPermuted(s, t);
    var a, b := GovernedOf(s), GovernedOf(t);
    PermutedMembers(a, b);
    DuplicateMeaning(a);
    DuplicateMeaning(b);
    assert forall x, y :: Clashes(a, x, y) <==> Clashes(b, x, y);
    assert AllValid(s) <==> AllValid(t);
  }

  // ------------------------------------------------------------- sums and counts

  lemma {:induction false} TotalRemove(select: Trial -> real, s: seq<Trial>, i: nat)
    requires i < |s|
    ensures Total(select, s) == Total(select, s[..i] + s[i + 1..]) + select(s[i])
  {
    var n := |s| - 1;
    if i == n {
      assert s[..i] + s[i + 1..] == s[..n];
    } else {
      TotalRemove(select, s[..n], i);
      var r := s[..i] + s[i + 1..];
      assert r[..|r| - 1] == s[..n][..i] + s[..n][i + 1..];
      assert r[|r| - 1] == s[n];
    }
  }

  lemma {:induction false} TotalPermuted(select: Trial -> real, s: seq<Trial>, t: seq<Trial>)
    requires Permuted(s, t)
    ensures Total(select, s) == Total(select, t)
    decreases |s|
  {
    PermutedMembers(s, t);
    if s != [] {
      var n := |s| - 1;
      assert s[n] in t;
      var i :| 0 <= i < |t| && t[i] == s[n];
      TotalRemove(select, t, i);
      assert s == s[..n] + [s[n]];
      assert t == t[..i] + [t[i]] + t[i + 1..];
      assert multiset(s[..n]) == multiset(s) - multiset{s[n]};
      assert multiset(t[..i] + t[i + 1..]) == multiset(t) - multiset{t[i]};
      TotalPermuted(select, s[..n], t[..i] + t[i + 1..]);
    }
  }

  lemma {:induction false} CountAsTotal(select: Trial -> bool, weight: Trial -> real, s: seq<Trial>)
    requires forall x :: weight(x) == if select(x) then 1.0 else 0.0
    ensures Count(select, s) as real == Total(weight, s)
  {
    if s != [] { CountAsTotal(select, weight, s[..|s| - 1]); }
  }

  lemma {:induction false} CountPermuted(select: Trial -> bool, s: seq<Trial>, t: seq<Trial>)
    requires Permuted(s, t)
    ensures Count(select, s) == Count(select, t)
  {
    var weight := (x: Trial) => if select(x) then 1.0 else 0.0;
    CountAsTotal(select, weight, s);
    CountAsTotal(select, weight, t);
    TotalPermuted(weight, s, t);
  }

  lemma {:induction false} MeanPermuted(select: Trial -> real, s: seq<Trial>, t: seq<Trial>)
    requires Permuted(s, t)
    ensures Mean(select, s) == Mean(select, t)
  {
    PermutedMembers(s, t);
    TotalPermuted(select, s, t);
  }

  // ------------------------------------------------------------- maps of tasks

  lemma {:induction false} TaskEntryPermuted(s: seq<Trial>, t: seq<Trial>, task: string)
    requires Permuted(s, t) && SlotsUnique(s) && task in TasksOf(s).at && task in TasksOf(t).at
    ensures TasksOf(s).at[task] == TasksOf(t).at[task]
  {
    PermutedMembers(s, t);
    var a, b := TasksOf(s).at[task], TasksOf(t).at[task];
    forall n ensures n in a <==> n in b {
      SlotTaken(s, task, n);
      SlotTaken(t, task, n);
      assert Taken(TasksOf(s), task, n) <==> Taken(TasksOf(t), task, n);
    }
    forall n | n in a ensures a[n] == b[n] {
      SlotTaken(s, task, n);
      SlotTaken(t, task, n);
      assert Taken(TasksOf(s), task, n) && Taken(TasksOf(t), task, n);
    }
  }

  lemma {:induction false} TaskMapPermuted(s: seq<Trial>, t: seq<Trial>)
    requires Permuted(s, t) && SlotsUnique(s) && TasksOf(s).at.Keys == TasksOf(t).at.Keys
    ensures TasksOf(s).at == TasksOf(t).at
  {
    forall task | task in TasksOf(s).at ensures TasksOf(s).at[task] == TasksOf(t).at[task] {
      assert task in TasksOf(t).at.Keys;
      TaskEntryPermuted(s, t, task);
    }
  }

  lemma {:induction false} TasksPermuted(s: seq<Trial>, t: seq<Trial>)
    requires Permuted(s, t) && SlotsUnique(s)
    ensures TasksOf(s).at == TasksOf(t).at
    ensures Permuted'(TasksOf(s).keys, TasksOf(t).keys)
    ensures Distinct(TasksOf(s).keys) && Distinct(TasksOf(t).keys)
  {
    PermutedMembers(s, t);
    TaskKeys(s);
    TaskKeys(t);
    assert TaskSet(s) == TaskSet(t);
    TaskMapPermuted(s, t);
    DistinctPermutation(TasksOf(s).keys, TasksOf(t).keys);
  }

  ghost predicate Permuted'(a: seq<string>, b: seq<string>) { multiset(a) == multiset(b) }

  lemma {:induction false} NamesSorted(a: seq<string>, b: seq<string>)
    requires Permuted'(a, b)
    ensures Sort(Same, StrLe, a) == Sort(Same, StrLe, b) && |a| == |b|
  {
    StrTotalOrder();
    SortOfPermutation(Same, StrLe, a, b);
    assert |multiset(a)| == |multiset(b)|;
  }

  lemma {:induction false} IncompletePermuted(m: TaskMap, m': TaskMap)
    requires m.at == m'.at && Permuted'(m.keys, m'.keys) && Distinct(m.keys) && Distinct(m'.keys)
    ensures Permuted'(Incomplete(m, m.keys), Incomplete(m', m'.keys))
  {
    var a, b := Incomplete(m, m.keys), Incomplete(m', m'.keys);
    forall x ensures x in a <==> x in b {
      assert x in m.keys <==> x in multiset(m.keys);
      assert x in m'.keys <==> x in multiset(m'.keys);
    }
    assert ToSet(a) == ToSet(b);
    DistinctPermutation(a, b);
  }

  lemma {:induction false} FiguresPermuted(s: seq<Trial>, t: seq<Trial>)
    requires s != [] && t != [] && Permuted(s, t) && SlotsUnique(s)
    requires s[0].provider == t[0].provider && s[0].trustTier == t[0].trustTier
    ensures ComputeGroup(MakeGroup(s)) == ComputeGroup(MakeGroup(t))
  {
    TasksPermuted(s, t);
    var m, m' := TasksOf(s), TasksOf(t);
    NamesSorted(m.keys, m'.keys);
    IncompletePermuted(m, m');
    NamesSorted(Incomplete(m, m.keys), Incomplete(m', m'.keys));
    MeanPermuted((x: Trial) => x.costUsd, s, t);
    MeanPermuted((x: Trial) => x.latencyMs, s, t);
    MeanPermuted((x: Trial) => x.tokens, s, t);
    MeanPermuted((x: Trial) => x.toolCalls, s, t);
    MeanPermuted((x: Trial) => x.candidateCount, s, t);
    MeanPermuted((x: Trial) => if x.recoveryCorrect then 1.0 else 0.0, s, t);
    CountPermuted((x: Trial) => x.reviewerDisagreed, s, t);
    CountPermuted((x: Trial) => x.falseApproval, s, t);
    CountPermuted((x: Trial) => x.illegitimateSuccess, s, t);
    TotalPermuted((x: Trial) => x.unauthorizedEffects, s, t);
    TotalPermuted((x: Trial) => x.duplicateEffects, s, t);
    TotalPermuted((x: Trial) => x.safetyViolations, s, t);
  }

  // ------------------------------------------------------------- whole reports

  /** Governed trials that share a group key share their provider and tier. */
  ghost predicate Unambiguous(trials: seq<Trial>) {
    forall x, y | x in trials && y in trials && x.governance.Governed? && y.governance.Governed?
                  && KeyOf(x) == KeyOf(y) ::
      x.provider == y.provider && x.trustTier == y.trustTier
  }

  lemma {:induction false} FiguresShared(collate: Collation, s: seq<Trial>, t: seq<Trial>, g: Group, k: string)
    requires Permuted(s, t) && Unambiguous(s) && ComputeReport(collate, s).Some? && FiguresOf(g, s, k)
    ensures FiguresOf(g, t, k)
  {
    FiledPermuted(s, t, k);
    var a, b := Filed(s, k), Filed(t, k);
    PermutedMembers(a, b);
    PermutedMembers(s, t);
    FiledUnique(collate, s, k);
    FiledMembers(s, k, a[0]);
    assert b[0] in a;
    FiledMembers(s, k, b[0]);
    FiguresPermuted(a, b);
  }

  lemma {:induction false} GroupsDistinct(collate: Collation, trials: seq<Trial>)
    requires ComputeReport(collate, trials).Some?
    ensures var groups := ComputeReport(collate, trials).value.groups;
            KeysIdentify(KeyOfGroup, groups) && Distinct(groups)
  {
    var s := GovernedOf(trials);
    var m := Grouped(s);
    GroupedKeyed(s);
    KeysKnown(s);
    var cs := ComputeGroups(m, m.keys);
    forall i | 0 <= i < |cs| ensures KeyOfGroup(cs[i]) == m.keys[i] {
      ComputedAt(m, m.keys, i);
      GroupedAt(s, m.keys[i]);
      FiledKey(trials, m.keys[i]);
    }
    SortPermutes(KeyOfGroup, collate, cs);
    SortKeepsKeys(cs, Sort(KeyOfGroup, collate, cs));
  }

  lemma {:induction false} SortKeepsKeys(a: seq<Group>, b: seq<Group>)
    requires multiset(a) == multiset(b)
    requires forall i, j :: 0 <= i < j < |a| ==> KeyOfGroup(a[i]) != KeyOfGroup(a[j])
    ensures KeysIdentify(KeyOfGroup, b) && Distinct(b)
  {
    forall x, y | x in b && y in b && KeyOfGroup(x) == KeyOfGroup(y) ensures x == y {
      assert x in multiset(a) && y in multiset(a);
      var i :| 0 <= i < |a| && a[i] == x;
      var j :| 0 <= j < |a| && a[j] == y;
    }
    forall i, j | 0 <= i < j < |b| ensures b[i] != b[j] {
      if b[i] == b[j] {
        assert b == b[..j] + [b[j]] + b[j + 1..];
        assert b[i] in b[..j];
        assert multiset(b)[b[i]] > 1;
        assert Distinct(a);
        DistinctOnce(a, b[i]);
      }
    }
  }

  lemma {:induction false} GroupShared(collate: Collation, s: seq<Trial>, t: seq<Trial>, g: Group)
    requires Permuted(s, t) && Unambiguous(s) && Unambiguous(t) && ComputeReport(collate, s).Some?
    requires ComputeReport(collate, t).Some?
    ensures g in ComputeReport(collate, s).value.groups <==> g in ComputeReport(collate, t).value.groups
  {
    GroupIn(collate, s, g);
    GroupIn(collate, t, g);
    if k :| FiguresOf(g, s, k) { FiguresShared(collate, s, t, g, k); }
    if k :| FiguresOf(g, t, k) { FiguresShared(collate, t, s, g, k); }
  }

  /** Governed trials of different group keys are never tied by the collation. */
  ghost predicate KeysUntied(collate: Collation, trials: seq<Trial>) {
    forall x, y :: x in trials && y in trials && TiedKeys(collate, x, y) ==> KeyOf(x) == KeyOf(y)
  }

  ghost predicate TiedKeys(collate: Collation, x: Trial, y: Trial) {
    && x.governance.Governed? && y.governance.Governed?
    && collate(KeyOf(x), KeyOf(y)) && collate(KeyOf(y), KeyOf(x))
  }

  lemma {:induction false} UnambiguousPermuted(s: seq<Trial>, t: seq<Trial>)
    requires Permuted(s, t) && Unambiguous(s)
    ensures Unambiguous(t)
  {
    PermutedMembers(s, t);
  }

  /** Any order of the trials gives the same groups with the same figures, when the group keys are unambiguous. */
  lemma {:induction false} GroupsOrderFree(collate: Collation, s: seq<Trial>, t: seq<Trial>)
    requires Permuted(s, t) && Unambiguous(s) && ComputeReport(collate, s).Some?
    ensures ComputeReport(collate, t).Some?
    ensures var a, b := ComputeReport(collate, s).value, ComputeReport(collate, t).value;
            && a.governedTrialCount == b.governedTrialCount && a.rawTrialCount == b.rawTrialCount
            && multiset(a.groups) == multiset(b.groups)
  {
    ReportExists(collate, s, t);
    UnambiguousPermuted(s, t);
    var a, b := ComputeReport(collate, s).value.groups, ComputeReport(collate, t).value.groups;
    forall g ensures g in a <==> g in b { GroupShared(collate, s, t, g); }
    GroupsDistinct(collate, s);
    GroupsDistinct(collate, t);
    assert ToSet(a) == ToSet(b);
    DistinctPermutation(a, b);
  }

  lemma {:induction false} GroupsSorted(collate: Collation, s: seq<Trial>)
    requires TotalPreorder(collate) && ComputeReport(collate, s).Some?
    ensures SortedBy(KeyOfGroup, collate, ComputeReport(collate, s).value.groups)
  {
    var gov := GovernedOf(s);
    KeysKnown(gov);
    SortSorted(KeyOfGroup, collate, ComputeGroups(Grouped(gov), Grouped(gov).keys));
  }

  /** The key of a reported group is that of some governed trial. */
  lemma {:induction false} GroupHasTrial(collate: Collation, s: seq<Trial>, g: Group) returns (x: Trial)
    requires ComputeReport(collate, s).Some? && g in ComputeReport(collate, s).value.groups
    ensures x in s && x.governance.Governed? && KeyOf(x) == KeyOfGroup(g)
  {
    GroupIn(collate, s, g);
    var k :| FiguresOf(g, s, k);
    FiledKey(s, k);
    x := Filed(s, k)[0];
    FiledMembers(s, k, x);
  }

  lemma {:induction false} GroupsUntied(collate: Collation, s: seq<Trial>)
    requires ComputeReport(collate, s).Some? && KeysUntied(collate, s)
    ensures Untied(KeyOfGroup, collate, ComputeReport(collate, s).value.groups)
  {
    var groups := ComputeReport(collate, s).value.groups;
    GroupsDistinct(collate, s);
    forall g, h | g in groups && h in groups && collate(KeyOfGroup(g), KeyOfGroup(h))
                  && collate(KeyOfGroup(h), KeyOfGroup(g))
      ensures g == h
    {
      var x := GroupHasTrial(collate, s, g);
      var y := GroupHasTrial(collate, s, h);
      assert TiedKeys(collate, x, y);
    }
  }

  /** Any order of the trials gives the same report, when the group keys are unambiguous and untied. */
  lemma {:induction false} OrderIgnored(collate: Collation, s: seq<Trial>, t: seq<Trial>)
    requires Permuted(s, t) && TotalPreorder(collate) && Unambiguous(s) && KeysUntied(collate, s)
    ensures ComputeReport(collate, s) == ComputeReport(collate, t)
  {
    ReportExists(collate, s, t);
    if ComputeReport(collate, s).Some? {
      GroupsOrderFree(collate, s, t);
      GroupsSorted(collate, s);
      GroupsSorted(collate, t);
      GroupsUntied(collate, s);
      var a, b := ComputeReport(collate, s).value, ComputeReport(collate, t).value;
      SortedUnique(KeyOfGroup, collate, a.groups, b.groups);
      assert a == Report(a.governedTrialCount, a.rawTrialCount, a.groups);
    }
  }

  lemma {:induction false} FrontFiled(y: Trial, rest: seq<Trial>)
    requires y.governance.Governed?
    ensures Filed([y] + rest, KeyOf(y)) != [] && Filed([y] + rest, KeyOf(y))[0] == y
  {
    var s := [y] + rest;
    if rest == [] {
      assert s == [y];
      assert GovernedOf([y]) == GovernedOf([]) + [y];
      assert OfGroup(KeyOf(y), [y]) == OfGroup(KeyOf(y), []) + [y];
    } else {
      var n := |s| - 1;
      assert s[..n] == [y] + rest[..|rest| - 1];
      FrontFiled(y, rest[..|rest| - 1]);
      var before := GovernedOf(s[..n]);
      assert s[n].governance.Governed? ==> (before + [s[n]])[..|before|] == before;
    }
  }

  lemma {:induction false} MoveToFront(s: seq<Trial>, z: Trial) returns (rest: seq<Trial>)
    requires z in s
    ensures Permuted(s, [z] + rest)
  {
    var i :| 0 <= i < |s| && s[i] == z;
    rest := s[..i] + s[i + 1..];
    assert s == s[..i] + [z] + s[i + 1..];
  }

  lemma {:induction false} LeadersShow(collate: Collation, s: seq<Trial>, t: seq<Trial>, k: string)
    requires ComputeReport(collate, s).Some? && ComputeReport(collate, t).Some? && Filed(s, k) != []
    requires Filed(t, k) != []
    requires var a, b := Filed(s, k)[0], Filed(t, k)[0]; a.provider != b.provider || a.trustTier != b.trustTier
    ensures ComputeReport(collate, s) != ComputeReport(collate, t)
  {
    ReportLookup(collate, s, k);
    ReportLookup(collate, t, k);
    assert ComputeGroup(MakeGroup(Filed(s, k))).provider == Filed(s, k)[0].provider;
  }

  /** With an ambiguous key, some order of the same trials gives another report. */
  lemma {:induction false} AmbiguityMatters(collate: Collation, s: seq<Trial>) returns (t: seq<Trial>)
    requires ComputeReport(collate, s).Some? && !Unambiguous(s)
    ensures Permuted(s, t) && ComputeReport(collate, t).Some? && ComputeReport(collate, t) != ComputeReport(collate, s)
  {
    var x, y :| x in s && y in s && x.governance.Governed? && y.governance.Governed? && KeyOf(x) == KeyOf(y)
                && (x.provider != y.provider || x.trustTier != y.trustTier);
    var k := KeyOf(x);
    FiledMembers(s, k, x);
    var first := Filed(s, k)[0];
    var z := if first.provider == x.provider && first.trustTier == x.trustTier then y else x;
    var rest := MoveToFront(s, z);
    t := [z] + rest;
    ReportExists(collate, s, t);
    FrontFiled(z, rest);
    LeadersShow(collate, s, t, k);
  }

  // ---------------------------------------------------------------------- ties

  lemma {:induction false} FrontGoverned(x: Trial, rest: seq<Trial>)
    requires x.governance.Governed?
    ensures GovernedOf([x] + rest) != [] && GovernedOf([x] + rest)[0] == x
  {
    var s := [x] + rest;
    if rest == [] {
      assert s == [x];
      assert GovernedOf([x]) == GovernedOf([]) + [x];
    } else {
      assert s[..|s| - 1] == [x] + rest[..|rest| - 1];
      FrontGoverned(x, rest[..|rest| - 1]);
    }
  }

  lemma {:induction false} FrontKey(s: seq<Trial>)
    requires s != []
    ensures Grouped(s).keys != [] && Grouped(s).keys[0] == KeyOf(s[0])
  {
    var n := |s| - 1;
    if n > 0 { FrontKey(s[..n]); } else { assert Grouped(s[..n]) == OrderedMap([], map[]); }
  }

  /** The group of a list's first trial comes before every group its key ties with. */
  lemma {:induction false} FrontLeads(collate: Collation, x: Trial, rest: seq<Trial>) returns (p: nat)
    requires x.governance.Governed? && ComputeReport(collate, [x] + rest).Some?
    ensures var groups := ComputeReport(collate, [x] + rest).value.groups;
            && p < |groups| && KeyOfGroup(groups[p]) == KeyOf(x)
            && forall i :: 0 <= i < p ==> !collate(KeyOf(x), KeyOfGroup(groups[i]))
  {
    var gov := GovernedOf([x] + rest);
    FrontGoverned(x, rest);
    FrontKey(gov);
    KeysKnown(gov);
    var m := Grouped(gov);
    var cs := ComputeGroups(m, m.keys);
    ComputedAt(m, m.keys, 0);
    GroupedAt(gov, KeyOf(x));
    FiledKey([x] + rest, KeyOf(x));
    p := InsertAhead(KeyOfGroup, collate, cs[0], Sort(KeyOfGroup, collate, cs[1..]));
  }

  /** With tied keys, some order of the same trials lists the groups in another order. */
  lemma {:induction false} TiesMatter(collate: Collation, s: seq<Trial>) returns (t: seq<Trial>)
    requires ComputeReport(collate, s).Some? && !KeysUntied(collate, s)
    ensures Permuted(s, t) && ComputeReport(collate, t).Some? && ComputeReport(collate, t) != ComputeReport(collate, s)
  {
    var x, y :| x in s && y in s && TiedKeys(collate, x, y) && KeyOf(x) != KeyOf(y);
    var r := MoveToFront(s, x);
    var r' := MoveToFront(s, y);
    ReportExists(collate, s, [x] + r);
    ReportExists(collate, s, [y] + r');
    var p := FrontLeads(collate, x, r);
    var q := FrontLeads(collate, y, r');
    assert ComputeReport(collate, [x] + r) != ComputeReport(collate, [y] + r');
    t := if ComputeReport(collate, [x] + r) != ComputeReport(collate, s) then [x] + r else [y] + r';
  }

  /**
   * Exactly when the order of the trials is immaterial: no two provider/tier pairs share a key, and the collation
   * ties no two keys.
   */
  lemma {:induction false} OrderFreeExactly(collate: Collation, s: seq<Trial>)
    requires TotalPreorder(collate) && ComputeReport(collate, s).Some?
    ensures (forall t :: Permuted(s, t) ==> ComputeReport(collate, t) == ComputeReport(collate, s)) <==>
            Unambiguous(s) && KeysUntied(collate, s)
  {
    if Unambiguous(s) && KeysUntied(collate, s) {
      forall t | Permuted(s, t) ensures ComputeReport(collate, t) == ComputeReport(collate, s) {
        OrderIgnored(collate, s, t);
      }
    } else if !Unambiguous(s) {
      var t := AmbiguityMatters(collate, s);
    } else {
      var t := TiesMatter(collate, s);
    }
  }
}
