/** Every blocker of a release decision has its reason in the report or the input, and every reason is listed. */
module ReleaseBlockers {
  import opened Seqs
  import opened ReleaseGate
  import opened ReleaseDecision

  // ---------------------------------------------------------------- reasons

  ghost predicate GlobalReason(b: Blocker, input: GateInput) {
    match b
    case ImmutabilityNotProven => !input.targetBranchImmutability
    case ReplayNotProven => !input.backwardReplayCompatible
    case UnresolvedChecks(names) => names == input.unresolvedRequiredChecks && names != []
    case _ => false
  }

  /** The group the report holds for an expected pair. */
  function Found(report: Report, pair: Pair): Option<Group> { Lookup(report.groups, GroupKey(pair.0, pair.1)) }

  /** The first expected pair that has a group: its tasks are the cohort the later pairs are held to. */
  ghost predicate FirstFound(report: Report, pairs: seq<Pair>, f: nat) {
    f < |pairs| && Found(report, pairs[f]).Some? && forall i :: 0 <= i < f ==> Found(report, pairs[i]).None?
  }

  /** `left` is what remains of `tasks` without those of `others`, each as often as it was there. */
  ghost predicate Remains(left: seq<string>, tasks: seq<string>, others: seq<string>) {
    forall x :: multiset(left)[x] == if x in others then 0 else multiset(tasks)[x]
  }

  /** The two pairs do not share their tasks: some are missing from the second, or some are unexpected there. */
  ghost predicate CohortReason(b: Blocker, report: Report, reference: Pair, pair: Pair)
    requires Found(report, reference).Some? && Found(report, pair).Some?
  {
    var tasks, others := Found(report, reference).value.taskIds, Found(report, pair).value.taskIds;
    && b.CohortMismatch? && b.key == GroupKey(pair.0, pair.1) && b.referenceKey == GroupKey(reference.0, reference.1)
    && Remains(b.missing, tasks, others) && Remains(b.unexpected, others, tasks)
    && (b.missing != [] || b.unexpected != [])
  }

  /** What expected pair `i` gives reason for. */
  ghost predicate PairReason(b: Blocker, report: Report, input: GateInput, pairs: seq<Pair>, i: nat)
    requires i < |pairs|
  {
    var key := GroupKey(pairs[i].0, pairs[i].1);
    var g := Found(report, pairs[i]);
    if g.None? then b == MissingCoverage(key)
    else
      || Reason(b, g.value, key, input)
      || exists f :: 0 <= f < i && FirstFound(report, pairs, f) && CohortReason(b, report, pairs[f], pairs[i])
  }

  ghost predicate Explained(b: Blocker, report: Report, input: GateInput, pairs: seq<Pair>) {
    GlobalReason(b, input) || exists i :: 0 <= i < |pairs| && PairReason(b, report, input, pairs, i)
  }

  // ------------------------------------------------------------------ cohorts

  lemma {:induction false} WithoutRemains(s: seq<string>, others: seq<string>)
    ensures Remains(Without(s, ToSet(others)), s, others)
  {
    forall x ensures multiset(Without(s, ToSet(others)))[x] == if x in others then 0 else multiset(s)[x] {
      WithoutCount(s, others, x);
    }
  }

  lemma {:induction false} WithoutCount(s: seq<string>, others: seq<string>, x: string)
    ensures multiset(Without(s, ToSet(others)))[x] == if x in others then 0 else multiset(s)[x]
  {
    if s != [] {
      WithoutCount(s[..|s| - 1], others, x);
      assert s == s[..|s| - 1] + [s[|s| - 1]];
    }
  }

  /** The walk's reference is the first pair with a group. */
  lemma {:induction false} WalkReference(report: Report, input: GateInput, pairs: seq<Pair>) returns (f: nat)
    ensures var c := Walk(report, input, pairs).cohort;
            if c.None? then forall i :: 0 <= i < |pairs| ==> Found(report, pairs[i]).None?
            else FirstFound(report, pairs, f)
                 && c.value == Reference(GroupKey(pairs[f].0, pairs[f].1), Found(report, pairs[f]).value.taskIds)
  {
    f := 0;
    if pairs != [] {
      var n := |pairs| - 1;
      f := WalkReference(report, input, pairs[..n]);
      if Walk(report, input, pairs[..n]).cohort.None? { f := n; }
      assert forall i :: 0 <= i < n ==> pairs[..n][i] == pairs[i];
    }
  }

  // --------------------------------------------------------------- one pair

  /** A blocker is explained by earlier pairs just as it was without the last one. */
  lemma {:induction false} ExplainedMore(b: Blocker, report: Report, input: GateInput, pairs: seq<Pair>)
    requires pairs != []
    ensures Explained(b, report, input, pairs) <==>
            Explained(b, report, input, pairs[..|pairs| - 1]) || PairReason(b, report, input, pairs, |pairs| - 1)
  {
    var n := |pairs| - 1;
    forall i | 0 <= i < n
      ensures PairReason(b, report, input, pairs, i) <==> PairReason(b, report, input, pairs[..n], i)
    {
      PairReasonLocal(b, report, input, pairs, i);
    }
    if i :| 0 <= i < n && PairReason(b, report, input, pairs[..n], i) { assert PairReason(b, report, input, pairs, i); }
  }

  lemma {:induction false} PairReasonLocal(b: Blocker, report: Report, input: GateInput, pairs: seq<Pair>, i: nat)
    requires i < |pairs| - 1
    ensures PairReason(b, report, input, pairs, i) <==> PairReason(b, report, input, pairs[..|pairs| - 1], i)
  {
    var init := pairs[..|pairs| - 1];
    assert init[i] == pairs[i];
    forall f | 0 <= f < i ensures FirstFound(report, pairs, f) <==> FirstFound(report, init, f) {
      assert forall j :: 0 <= j <= f ==> init[j] == pairs[j];
    }
    assert forall f :: 0 <= f < i ==> init[f] == pairs[f];
  }

  /** What NoteCohort adds, against the reference of the walk so far. */
  lemma {:induction false} CohortNoted(
      r: seq<Blocker>, report: Report, reference: Pair, pair: Pair, b: Blocker)
    requires Found(report, reference).Some? && Found(report, pair).Some?
    ensures var g := Found(report, pair).value;
            var key := GroupKey(pair.0, pair.1);
            var c := Reference(GroupKey(reference.0, reference.1), Found(report, reference).value.taskIds);
            var more := NoteCohort(r, g, key, Some(c));
            && (b in more ==> b in r || CohortReason(b, report, reference, pair))
            && (b in r ==> b in more)
            && (CohortReason(b, report, reference, pair) ==>
                  exists m, u :: CohortMismatch(key, c.key, m, u) in more
                                 && CohortReason(CohortMismatch(key, c.key, m, u), report, reference, pair))
  {
    var tasks, others := Found(report, reference).value.taskIds, Found(report, pair).value.taskIds;
    WithoutRemains(tasks, others);
    WithoutRemains(others, tasks);
    var m, u := Without(tasks, ToSet(others)), Without(others, ToSet(tasks));
    var key, rkey := GroupKey(pair.0, pair.1), GroupKey(reference.0, reference.1);
    if CohortReason(b, report, reference, pair) {
      RemainsSame(b.missing, m, tasks, others);
      RemainsSame(b.unexpected, u, others, tasks);
      assert CohortReason(CohortMismatch(key, rkey, m, u), report, reference, pair);
      assert CohortMismatch(key, rkey, m, u)
          in NoteCohort(r, Found(report, pair).value, key, Some(Reference(rkey, tasks)));
    }
  }

  lemma {:induction false} RemainsSame(a: seq<string>, b: seq<string>, tasks: seq<string>, others: seq<string>)
    requires Remains(a, tasks, others) && Remains(b, tasks, others)
    ensures a == [] <==> b == []
  {
    assert multiset(a) == multiset(b);
    assert |multiset(a)| == |multiset(b)|;
  }

  /** Blockers up to the order in which a cohort mismatch lists its tasks. */
  ghost predicate Alike(a: Blocker, b: Blocker) {
    || a == b
    || (a.CohortMismatch? && b.CohortMismatch? && a.key == b.key && a.referenceKey == b.referenceKey
        && multiset(a.missing) == multiset(b.missing) && multiset(a.unexpected) == multiset(b.unexpected))
  }

  ghost predicate Listed(b: Blocker, blockers: seq<Blocker>) { exists a :: a in blockers && Alike(a, b) }

  lemma {:induction false} ReasonsAlike(a: Blocker, b: Blocker, report: Report, reference: Pair, pair: Pair)
    requires Found(report, reference).Some? && Found(report, pair).Some?
    requires CohortReason(a, report, reference, pair) && CohortReason(b, report, reference, pair)
    ensures Alike(a, b)
  {
    assert multiset(a.missing) == multiset(b.missing) && multiset(a.unexpected) == multiset(b.unexpected);
  }

  /** Everything a covered pair adds: its cohort mismatch, then its own reasons. */
  lemma {:induction false} GroupAdds(r: seq<Blocker>, g: Group, key: string, input: GateInput, b: Blocker)
    ensures b in NoteGroup(r, g, key, input) <==> b in r || Reason(b, g, key, input)
  {
    GroupReasoned(r, g, key, input);
    var more := NoteGroup(r, g, key, input);
    assert more == r + more[|r|..];
    assert Reason(b, g, key, input) ==> Place(b) < 11;
  }

  lemma {:induction false} StepExplained(report: Report, input: GateInput, pairs: seq<Pair>, b: Blocker)
    requires pairs != []
    ensures var before := Walk(report, input, pairs[..|pairs| - 1]).blockers;
            var after := Walk(report, input, pairs).blockers;
            && (b in after ==> b in before || PairReason(b, report, input, pairs, |pairs| - 1))
            && (b in before ==> b in after)
            && (PairReason(b, report, input, pairs, |pairs| - 1) ==> Listed(b, after))
  {
    var n := |pairs| - 1;
    var p := Walk(report, input, pairs[..n]);
    var f := WalkReference(report, input, pairs[..n]);
    var g := Found(report, pairs[n]);
    assert Alike(b, b);
    if g.Some? {
      var key := GroupKey(pairs[n].0, pairs[n].1);
      GroupAdds(NoteCohort(p.blockers, g.value, key, p.cohort), g.value, key, input, b);
      assert forall i :: 0 <= i < n ==> pairs[..n][i] == pairs[i];
      if p.cohort.Some? {
        assert FirstFound(report, pairs, f);
        CohortNoted(p.blockers, report, pairs[f], pairs[n], b);
        if CohortReason(b, report, pairs[f], pairs[n]) { CohortListed(report, input, pairs, f, b); }
        OnlyFirst(report, pairs, f);
      }
    }
  }

  lemma {:induction false} OnlyFirst(report: Report, pairs: seq<Pair>, f: nat)
    requires FirstFound(report, pairs, f)
    ensures forall e :: FirstFound(report, pairs, e) ==> e == f
  {
  }

  lemma {:induction false} CohortListed(report: Report, input: GateInput, pairs: seq<Pair>, f: nat, b: Blocker)
    requires pairs != [] && f < |pairs| - 1
    requires Found(report, pairs[f]).Some? && Found(report, pairs[|pairs| - 1]).Some?
    requires Walk(report, input, pairs[..|pairs| - 1]).cohort
             == Some(Reference(GroupKey(pairs[f].0, pairs[f].1), Found(report, pairs[f]).value.taskIds))
    requires CohortReason(b, report, pairs[f], pairs[|pairs| - 1])
    ensures Listed(b, Walk(report, input, pairs).blockers)
  {
    var n := |pairs| - 1;
    var p := Walk(report, input, pairs[..n]);
    var g := Found(report, pairs[n]).value;
    var key, rkey := GroupKey(pairs[n].0, pairs[n].1), p.cohort.value.key;
    var noted := NoteCohort(p.blockers, g, key, p.cohort);
    CohortNoted(p.blockers, report, pairs[f], pairs[n], b);
    var m, u :| CohortMismatch(key, rkey, m, u) in noted
                && CohortReason(CohortMismatch(key, rkey, m, u), report, pairs[f], pairs[n]);
    var a := CohortMismatch(key, rkey, m, u);
    ReasonsAlike(a, b, report, pairs[f], pairs[n]);
    GroupAdds(noted, g, key, input, a);
    assert a in Walk(report, input, pairs).blockers && Alike(a, b);
  }

  // ------------------------------------------------------------- the theorem

  /** Each pair's blockers follow those of the pairs before it. */
  lemma {:induction false} BlockersInPairOrder(report: Report, input: GateInput, pairs: seq<Pair>, n: nat)
    requires n <= |pairs|
    ensures Walk(report, input, pairs[..n]).blockers <= Walk(report, input, pairs).blockers
    decreases |pairs|
  {
    if n == |pairs| {
      assert pairs[..n] == pairs;
    } else {
      var m := |pairs| - 1;
      BlockersInPairOrder(report, input, pairs[..m], n);
      assert pairs[..m][..n] == pairs[..n];
      StepGrows(report, input, Walk(report, input, pairs[..m]), pairs[m]);
    }
  }

  lemma {:induction false} StepGrows(report: Report, input: GateInput, p: Progress, pair: Pair)
    ensures p.blockers <= PairStep(report, input, p, pair).blockers
  {
    var g := Found(report, pair);
    if g.Some? {
      var key := GroupKey(pair.0, pair.1);
      GroupReasoned(NoteCohort(p.blockers, g.value, key, p.cohort), g.value, key, input);
    }
  }

  lemma {:induction false} GlobalsExplained(input: GateInput, b: Blocker)
    ensures b in GlobalBlockers(input) <==> GlobalReason(b, input)
  {
  }

  /**
   * The blockers of a decision, for any report and any expected pairs: each one is explained by the input or by some
   * pair's group, and everything that the input or a pair's group gives reason for is listed.
   */
  lemma {:induction false} BlockersExplained(report: Report, input: GateInput, pairs: seq<Pair>, b: Blocker)
    ensures b in Walk(report, input, pairs).blockers ==> Explained(b, report, input, pairs)
    ensures Explained(b, report, input, pairs) ==> Listed(b, Walk(report, input, pairs).blockers)
  {
    assert Alike(b, b);
    if pairs == [] {
      GlobalsExplained(input, b);
    } else {
      var n := |pairs| - 1;
      BlockersExplained(report, input, pairs[..n], b);
      ExplainedMore(b, report, input, pairs);
      StepExplained(report, input, pairs, b);
      if Listed(b, Walk(report, input, pairs[..n]).blockers) {
        var a :| a in Walk(report, input, pairs[..n]).blockers && Alike(a, b);
        StepExplained(report, input, pairs, a);
      }
    }
  }
}
