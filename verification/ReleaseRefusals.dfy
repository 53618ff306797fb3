/** Exactly which trials and which gate inputs are refused (eval/trust-spine-release-gate.ts). */
module ReleaseRefusals {
  import opened Seqs
  import opened ReleaseGate
  import opened ReleaseReport
  import opened ReleaseDecision

  // ------------------------------------------------------------------- trials

  /** Named, numbered 1, 2 or 3, and without a negative figure. */
  ghost predicate TrialInRange(x: Trial) {
    && |x.taskId| > 0 && |x.provider| > 0 && |x.trustTier| > 0 && x.trial in [1, 2, 3]
    && forall figure :: figure in Figures(x) ==> figure >= 0.0
  }

  function Figures(x: Trial): seq<real> {
    [x.costUsd, x.latencyMs, x.tokens, x.toolCalls, x.candidateCount, x.unauthorizedEffects, x.duplicateEffects,
     x.safetyViolations]
  }

  lemma {:induction false} RangeExactly(x: Trial)
    ensures ValidTrial(x) <==> TrialInRange(x)
  {
    var figures := Figures(x);
    assert figures[0] in figures && figures[1] in figures && figures[2] in figures && figures[3] in figures;
    assert figures[4] in figures && figures[5] in figures && figures[6] in figures && figures[7] in figures;
  }

  /** Trials `i` and `j` are governed and claim one group key, task and trial number. */
  ghost predicate Clash(trials: seq<Trial>, i: nat, j: nat) {
    && i < j < |trials| && trials[i].governance.Governed? && trials[j].governance.Governed?
    && trials[i].provider + "/" + trials[i].trustTier == trials[j].provider + "/" + trials[j].trustTier
    && trials[i].taskId == trials[j].taskId && trials[i].trial == trials[j].trial
  }

  ghost predicate Clashes(trials: seq<Trial>) { exists i, j :: Clash(trials, i, j) }

  ghost predicate HasSlot(s: seq<Trial>, x: Trial) { exists y :: y in s && SameSlot(y, x) }

  lemma {:induction false} DuplicateMore(s: seq<Trial>, x: Trial)
    ensures HasDuplicate(s + [x]) <==> HasDuplicate(s) || HasSlot(s, x)
  {
    var t := s + [x];
    if i, j :| 0 <= i < j < |t| && SameSlot(t[i], t[j]) {
      if j < |s| { assert SameSlot(s[i], s[j]); } else { assert s[i] in s && SameSlot(s[i], x); }
    }
    if i, j :| 0 <= i < j < |s| && SameSlot(s[i], s[j]) { assert SameSlot(t[i], t[j]); }
    if y :| y in s && SameSlot(y, x) {
      var i :| 0 <= i < |s| && s[i] == y;
      assert SameSlot(t[i], t[|s|]);
    }
  }

  lemma {:induction false} GovernedMembers(trials: seq<Trial>, x: Trial)
    ensures x in GovernedOf(trials) <==> x in trials && x.governance.Governed?
  {
    if trials != [] {
      GovernedMembers(trials[..|trials| - 1], x);
      assert trials == trials[..|trials| - 1] + [trials[|trials| - 1]];
    }
  }

  lemma {:induction false} ClashesMore(trials: seq<Trial>)
    requires trials != []
    ensures var n := |trials| - 1;
            Clashes(trials) <==>
            Clashes(trials[..n]) || (trials[n].governance.Governed? && HasSlot(GovernedOf(trials[..n]), trials[n]))
  {
    var n := |trials| - 1;
    var init := trials[..n];
    if i: nat, j: nat :| Clash(trials, i, j) {
      GovernedMembers(init, trials[i]);
      if j < n { assert Clash(init, i, j); } else { assert init[i] == trials[i] && SameSlot(init[i], trials[n]); }
    }
    if i: nat, j: nat :| Clash(init, i, j) { assert Clash(trials, i, j); }
    if trials[n].governance.Governed? && HasSlot(GovernedOf(init), trials[n]) {
      var y :| y in GovernedOf(init) && SameSlot(y, trials[n]);
      GovernedMembers(init, y);
      var i :| 0 <= i < n && init[i] == y;
      assert Clash(trials, i, n);
    }
  }

  lemma {:induction false} DuplicatesClash(trials: seq<Trial>)
    ensures HasDuplicate(GovernedOf(trials)) <==> Clashes(trials)
  {
    if trials != [] {
      var n := |trials| - 1;
      DuplicatesClash(trials[..n]);
      ClashesMore(trials);
      DuplicateMore(GovernedOf(trials[..n]), trials[n]);
    }
  }

  /** There is a report exactly when every trial is in range and no two governed trials clash. */
  lemma {:induction false} ReportExists(collate: Collation, trials: seq<Trial>)
    ensures ComputeReport(collate, trials).Some? <==>
            (forall x :: x in trials ==> TrialInRange(x)) && !Clashes(trials)
  {
    DuplicatesClash(trials);
    forall x ensures ValidTrial(x) <==> TrialInRange(x) { RangeExactly(x); }
  }

  // -------------------------------------------------------------------- input

  ghost predicate Share(x: real) { x >= 0.0 && 1.0 - x >= 0.0 }

  ghost predicate Shares(b: Baseline) { Share(b.passAt1) && Share(b.passAll3) }

  /** At least one task a group, a provider and a tier; the allowance, if given, and every baseline is a share. */
  ghost predicate InputInRange(input: GateInput) {
    && input.minimumTasksPerGroup > 0 && |input.expectedProviders| > 0 && |input.expectedTrustTiers| > 0
    && (input.maxCapabilityRegression.Some? ==> Share(input.maxCapabilityRegression.value))
    && (input.baseline.Some? ==> Shares(input.baseline.value))
    && forall b :: b in input.baselineByGroup.Values ==> Shares(b)
  }

  lemma {:induction false} InputExactly(input: GateInput)
    ensures ValidInput(input) <==> InputInRange(input)
  {
    if ValidInput(input) {
      forall b | b in input.baselineByGroup.Values ensures Shares(b) {
        var k :| k in input.baselineByGroup && input.baselineByGroup[k] == b;
      }
    }
    if InputInRange(input) {
      forall k | k in input.baselineByGroup ensures ValidBaseline(input.baselineByGroup[k]) {
        assert input.baselineByGroup[k] in input.baselineByGroup.Values;
      }
    }
  }
}
