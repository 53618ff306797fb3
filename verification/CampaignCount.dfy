/** How much evidence a ready campaign has spent, and where every spent event comes from. */
module CampaignCount {
  import opened Seqs
  import opened Tape
  import opened TapeCommitment
  import opened Campaign
  import opened CampaignClaims
  import opened CampaignPolicy
  import opened ReleaseMeaning
  import G = ReleaseGate
  import D = ReleaseDecision

  // ---------------------------------------------------------- covered events

  ghost predicate InRoot(root: TapeRoot, p: Spent) { p.runId == root.sourceRunId && p.eventId in root.verifiedEvents }

  ghost predicate InRoots(roots: seq<TapeRoot>, p: Spent) { exists root :: root in roots && InRoot(root, p) }

  /** Nothing is spent twice, and everything spent is an event of some root. */
  ghost predicate Sound(roots: seq<TapeRoot>, spent: seq<Spent>) {
    Distinct(spent) && forall p :: p in spent ==> InRoots(roots, p)
  }

  /** `more` extends `spent` by `n` further events and keeps it sound. */
  ghost predicate Grows(roots: seq<TapeRoot>, spent: seq<Spent>, more: seq<Spent>, n: nat) {
    |more| == |spent| + n && (Sound(roots, spent) ==> Sound(roots, more))
  }

  lemma {:induction false} SpendGrows(roots: seq<TapeRoot>, spent: seq<Spent>, root: TapeRoot, id: string)
    requires root in roots && RootSound(root) && id in root.verifiedEvents
    requires Spend(spent, root, root.verifiedEvents[id]).Some?
    ensures Grows(roots, spent, Spend(spent, root, root.verifiedEvents[id]).value, 1)
  {
    var p := Spent(root.sourceRunId, id);
    assert InRoot(root, p);
    assert p !in spent;
  }

  lemma {:induction false} ClaimGrows(c: Context, spent: seq<Spent>, r: EvidenceRef)
    requires RootsSound(c.roots) && UseClaim(c, spent, r).Some?
    ensures Grows(c.roots, spent, UseClaim(c, spent, r).value.spent, 1)
  {
    RootForMember(c.roots, r.tapeId);
    SpendGrows(c.roots, spent, RootFor(c.roots, r.tapeId).value, r.eventId);
  }

  lemma {:induction false} SourceGrows(c: Context, spent: seq<Spent>, s: SourceRef)
    requires RootsSound(c.roots) && UseSource(c, spent, s).Some?
    ensures Grows(c.roots, spent, UseSource(c, spent, s).value, 1)
  {
    var root := RootsHolding(c.roots, s)[0];
    RootsHoldingMembers(c.roots, s, root);
    SpendGrows(c.roots, spent, root, s.sourceEventId);
  }

  lemma {:induction false} SourcesGrow(c: Context, spent: seq<Spent>, sources: seq<SourceRef>)
    requires RootsSound(c.roots) && UseSources(c, spent, sources).Some?
    ensures Grows(c.roots, spent, UseSources(c, spent, sources).value, |sources|)
  {
    if sources != [] {
      var n := |sources| - 1;
      SourcesGrow(c, spent, sources[..n]);
      SourceGrows(c, UseSources(c, spent, sources[..n]).value, sources[n]);
    }
  }

  lemma {:induction false} TrialGrows(c: Context, spent: seq<Spent>, r: EvidenceRef)
    requires RootsSound(c.roots) && UseTrial(c, spent, r).Some?
    ensures Grows(c.roots, spent, UseTrial(c, spent, r).value.spent, 7)
  {
    ClaimGrows(c, spent, r);
    var used := UseClaim(c, spent, r).value;
    SourcesGrow(c, used.spent, SourceList(used.value.claim.sources));
  }

  lemma {:induction false} TrialsGrow(c: Context, spent: seq<Spent>, refs: seq<EvidenceRef>)
    requires RootsSound(c.roots) && UseTrials(c, spent, refs).Some?
    ensures |UseTrials(c, spent, refs).value.value| == |refs|
    ensures Grows(c.roots, spent, UseTrials(c, spent, refs).value.spent, 7 * |refs|)
  {
    if refs != [] {
      var n := |refs| - 1;
      TrialsGrow(c, spent, refs[..n]);
      TrialGrows(c, UseTrials(c, spent, refs[..n]).value.spent, refs[n]);
    }
  }

  lemma {:induction false} CheckGrows(c: Context, before: Used<map<string, bool>>, r: EvidenceRef)
    requires RootsSound(c.roots) && UseCheck(c, before, r).Some?
    ensures Grows(c.roots, before.spent, UseCheck(c, before, r).value.spent, 2)
  {
    ClaimGrows(c, before.spent, r);
    var used := UseClaim(c, before.spent, r).value;
    SourceGrows(c, used.spent, used.value.source);
  }

  lemma {:induction false} ChecksGrow(c: Context, spent: seq<Spent>, refs: seq<EvidenceRef>)
    requires RootsSound(c.roots) && UseChecks(c, spent, refs).Some?
    ensures Grows(c.roots, spent, UseChecks(c, spent, refs).value.spent, 2 * |refs|)
  {
    if refs != [] {
      var n := |refs| - 1;
      ChecksGrow(c, spent, refs[..n]);
      CheckGrows(c, UseChecks(c, spent, refs[..n]).value, refs[n]);
    }
  }

  /** Every piece of check evidence answers one required name, and no two answer the same. */
  lemma {:induction false} ChecksAnswer(c: Context, spent: seq<Spent>, refs: seq<EvidenceRef>)
    requires UseChecks(c, spent, refs).Some?
    ensures var byName := UseChecks(c, spent, refs).value.value;
            |byName| == |refs| && byName.Keys <= ToSet(c.policy.requiredCheckNames)
  {
    if refs != [] { ChecksAnswer(c, spent, refs[..|refs| - 1]); }
  }

  lemma {:induction false} AllResolved(names: seq<string>, byName: map<string, bool>)
    requires Unresolved(names, byName) == []
    ensures ToSet(names) <= byName.Keys
  {
    if names != [] {
      var n := |names| - 1;
      AllResolved(names[..n], byName);
      assert names == names[..n] + [names[n]];
    }
  }

  lemma {:induction false} InvariantsGrow(c: Context, spent: seq<Spent>, b: Bundle)
    requires RootsSound(c.roots) && UseInvariants(c, spent, b).Some?
    ensures Grows(c.roots, spent, UseInvariants(c, spent, b).value.spent, 4 + 2 * |b.requiredChecks|)
  {
    ClaimGrows(c, spent, b.targetBranchImmutability);
    var used := UseClaim(c, spent, b.targetBranchImmutability).value;
    SourceGrows(c, used.spent, used.value.source);
    var branch := UseBranch(c, spent, b.targetBranchImmutability).value.spent;
    ClaimGrows(c, branch, b.backwardReplayCompatibility);
    var used' := UseClaim(c, branch, b.backwardReplayCompatibility).value;
    SourceGrows(c, used'.spent, used'.value.source);
    ChecksGrow(c, UseReplay(c, branch, b.backwardReplayCompatibility).value.spent, b.requiredChecks);
  }

  lemma {:induction false} ChecksMatchPolicy(c: Context, spent: seq<Spent>, b: Bundle)
    requires UseInvariants(c, spent, b).Some? && UseInvariants(c, spent, b).value.value.unresolved == []
    requires Distinct(c.policy.requiredCheckNames)
    ensures |b.requiredChecks| == |c.policy.requiredCheckNames|
  {
    var branch := UseBranch(c, spent, b.targetBranchImmutability).value;
    var replay := UseReplay(c, branch.spent, b.backwardReplayCompatibility).value;
    var byName := UseChecks(c, replay.spent, b.requiredChecks).value.value;
    ChecksAnswer(c, replay.spent, b.requiredChecks);
    AllResolved(c.policy.requiredCheckNames, byName);
    assert byName.Keys == ToSet(c.policy.requiredCheckNames);
    DistinctCount(c.policy.requiredCheckNames);
  }

  // --------------------------------------------------------- counting trials

  ghost predicate TrialsInPolicy(p: Policy, trials: seq<G.Trial>) {
    forall x :: x in trials ==>
      x.governance.Governed? && x.provider in p.expectedProviders && x.trustTier in p.expectedTrustTiers
      && G.ValidTrial(x)
  }

  lemma {:induction false} TrialDerived(c: Context, spent: seq<Spent>, r: EvidenceRef)
    requires UseTrial(c, spent, r).Some?
    ensures TrialsInPolicy(c.policy, [UseTrial(c, spent, r).value.value])
  {
    var used := UseClaim(c, spent, r).value;
    assert ReadClaim(c, UseRef(c, spent, r).value.value) == Some(used.value);
    assert ValidTrialClaim(c.host, used.value.claim);
  }

  /** Every derived trial is governed, within the policy, and acceptable to the report. */
  lemma {:induction false} TrialsDerived(c: Context, spent: seq<Spent>, refs: seq<EvidenceRef>)
    requires UseTrials(c, spent, refs).Some?
    ensures TrialsInPolicy(c.policy, UseTrials(c, spent, refs).value.value)
  {
    if refs != [] {
      var n := |refs| - 1;
      TrialsDerived(c, spent, refs[..n]);
      TrialDerived(c, UseTrials(c, spent, refs[..n]).value.spent, refs[n]);
      assert UseTrial(c, UseTrials(c, spent, refs[..n]).value.spent, refs[n]).value.value
          in [UseTrial(c, UseTrials(c, spent, refs[..n]).value.spent, refs[n]).value.value];
    }
  }

  function Product<A(!new), B(!new)>(a: set<A>, b: set<B>): set<(A, B)> { set x, y | x in a && y in b :: (x, y) }

  lemma {:induction false} RowSize<A(!new), B(!new)>(x: A, b: set<B>)
    ensures |Product({x}, b)| == |b|
    decreases b
  {
    if b != {} {
      var y :| y in b;
      RowSize(x, b - {y});
      assert Product({x}, b) == Product({x}, b - {y}) + {(x, y)};
    } else {
      assert Product({x}, b) == {};
    }
  }

  lemma {:induction false} ProductSplit<A(!new), B(!new)>(a: set<A>, b: set<B>, x: A)
    requires x in a
    ensures |Product(a, b)| == |Product(a - {x}, b)| + |b|
  {
    RowSize(x, b);
    assert Product(a, b) == Product(a - {x}, b) + Product({x}, b);
  }

  lemma {:induction false} ProductSize<A(!new), B(!new)>(a: set<A>, b: set<B>)
    ensures |Product(a, b)| == |a| * |b|
    decreases a
  {
    if a != {} {
      var x :| x in a;
      ProductSplit(a, b, x);
      ProductSize(a - {x}, b);
      var n := |a - {x}|;
      assert |a| == n + 1;
      assert (n + 1) * |b| == n * |b| + |b|;
    } else {
      assert Product(a, b) == {};
    }
  }

  type Slot = ((string, string), (string, int))

  function SlotOf(x: G.Trial): Slot { ((x.provider, x.trustTier), (x.taskId, x.trial)) }

  ghost function SlotsOf(trials: seq<G.Trial>): (r: seq<Slot>)
    ensures |r| == |trials| && forall i :: 0 <= i < |r| ==> r[i] == SlotOf(trials[i])
  {
    if trials == [] then [] else SlotsOf(trials[..|trials| - 1]) + [SlotOf(trials[|trials| - 1])]
  }

  lemma {:induction false} AllGoverned(trials: seq<G.Trial>)
    requires forall x :: x in trials ==> x.governance.Governed?
    ensures G.GovernedOf(trials) == trials
  {
    if trials != [] {
      AllGoverned(trials[..|trials| - 1]);
      assert trials == trials[..|trials| - 1] + [trials[|trials| - 1]];
    }
  }

  lemma {:induction false} SlotsDistinct(trials: seq<G.Trial>)
    requires !G.HasDuplicate(trials)
    ensures Distinct(SlotsOf(trials))
  {
    var slots := SlotsOf(trials);
    forall i, j | 0 <= i < j < |slots| ensures slots[i] != slots[j] {
      assert !G.SameSlot(trials[i], trials[j]);
    }
  }

  ghost function CohortSlots(input: D.GateInput, cohort: set<string>): set<Slot> {
    Product(Product(ToSet(input.expectedProviders), ToSet(input.expectedTrustTiers)), Product(cohort, {1, 2, 3}))
  }

  lemma {:induction false} SlotTried(trials: seq<G.Trial>, input: D.GateInput, cohort: set<string>, s: Slot)
    requires CohortReleasable(trials, input, cohort) && s in CohortSlots(input, cohort)
    ensures s in SlotsOf(trials)
  {
    var ((p, t), (task, n)) := s;
    assert PairReleasable(trials, input, p, t, cohort);
    assert PairTried(trials, p, t, task, n);
    var x :| x in trials && InPair(x, p, t) && G.Claims(x, task, n);
    var i :| 0 <= i < |trials| && trials[i] == x;
    assert SlotsOf(trials)[i] == s;
  }

  lemma {:induction false} TrialSlot(
      trials: seq<G.Trial>, policy: Policy, input: D.GateInput, cohort: set<string>, x: G.Trial)
    requires TrialsInPolicy(policy, trials) && CohortReleasable(trials, input, cohort) && x in trials
    requires input.expectedProviders == policy.expectedProviders
    requires input.expectedTrustTiers == policy.expectedTrustTiers
    ensures SlotOf(x) in CohortSlots(input, cohort)
  {
    assert PairReleasable(trials, input, x.provider, x.trustTier, cohort);
    assert InPair(x, x.provider, x.trustTier);
    assert x.taskId in PairTasks(trials, x.provider, x.trustTier);
    assert (x.provider, x.trustTier) in Product(ToSet(input.expectedProviders), ToSet(input.expectedTrustTiers));
    assert (x.taskId, x.trial) in Product(cohort, {1, 2, 3});
  }

  /** The trials of a releasable cohort fill every provider, tier, task and trial number exactly once. */
  lemma {:induction false} TrialCount(trials: seq<G.Trial>, policy: Policy, input: D.GateInput, cohort: set<string>)
    requires TrialsInPolicy(policy, trials) && !G.HasDuplicate(trials) && CohortReleasable(trials, input, cohort)
    requires input.expectedProviders == policy.expectedProviders
    requires input.expectedTrustTiers == policy.expectedTrustTiers
    requires Distinct(policy.expectedProviders) && Distinct(policy.expectedTrustTiers)
    ensures |trials| == |policy.expectedProviders| * |policy.expectedTrustTiers| * (|cohort| * 3)
  {
    var slots := SlotsOf(trials);
    SlotsDistinct(trials);
    DistinctCount(slots);
    forall s | s in CohortSlots(input, cohort) ensures s in slots { SlotTried(trials, input, cohort, s); }
    forall s | s in slots ensures s in CohortSlots(input, cohort) {
      var i :| 0 <= i < |slots| && slots[i] == s;
      TrialSlot(trials, policy, input, cohort, trials[i]);
    }
    assert ToSet(slots) == CohortSlots(input, cohort);
    CohortSlotCount(policy, input, cohort);
  }

  lemma {:induction false} CohortSlotCount(policy: Policy, input: D.GateInput, cohort: set<string>)
    requires input.expectedProviders == policy.expectedProviders
    requires input.expectedTrustTiers == policy.expectedTrustTiers
    requires Distinct(policy.expectedProviders) && Distinct(policy.expectedTrustTiers)
    ensures |CohortSlots(input, cohort)|
            == |policy.expectedProviders| * |policy.expectedTrustTiers| * (|cohort| * 3)
  {
    var ps, ts := ToSet(input.expectedProviders), ToSet(input.expectedTrustTiers);
    DistinctCount(input.expectedProviders);
    DistinctCount(input.expectedTrustTiers);
    ProductSize(ps, ts);
    assert |{1, 2, 3}| == 3;
    ProductSize(cohort, {1, 2, 3});
    ProductSize(Product(ps, ts), Product(cohort, {1, 2, 3}));
  }

  // ------------------------------------------------------------ the universe

  ghost function PairsOf(root: TapeRoot): set<Spent> { RunPairs(root.sourceRunId, root.verifiedEvents.Keys) }

  ghost function RunPairs(run: string, ids: set<string>): set<Spent> { set id | id in ids :: Spent(run, id) }

  lemma {:induction false} RunPairsSize(run: string, ids: set<string>)
    ensures |RunPairs(run, ids)| == |ids|
    decreases ids
  {
    if ids == {} {
      assert RunPairs(run, ids) == {};
    } else {
      var id :| id in ids;
      RunPairsSize(run, ids - {id});
      assert RunPairs(run, ids) == RunPairs(run, ids - {id}) + {Spent(run, id)};
    }
  }

  ghost function Universe(roots: seq<TapeRoot>): set<Spent> {
    if roots == [] then {} else Universe(roots[..|roots| - 1]) + PairsOf(roots[|roots| - 1])
  }

  lemma {:induction false} UniverseHas(roots: seq<TapeRoot>, p: Spent)
    requires InRoots(roots, p)
    ensures p in Universe(roots)
  {
    var n := |roots| - 1;
    assert roots == roots[..n] + [roots[n]];
    if !InRoot(roots[n], p) { UniverseHas(roots[..n], p); }
  }

  ghost function DeclaredTotal(entries: seq<RootEntry>): int {
    if entries == [] then 0
    else DeclaredTotal(entries[..|entries| - 1]) + entries[|entries| - 1].throughEventCount
  }

  lemma {:induction false} UniverseSize(trust: Trust, entries: seq<RootEntry>)
    requires EachAccepted(trust, entries)
    ensures |Universe(RootsOf(trust, entries))| <= DeclaredTotal(entries)
  {
    if entries != [] {
      var n := |entries| - 1;
      var e := entries[n];
      assert e in entries;
      UniverseSize(trust, entries[..n]);
      ResolvedMeaning(trust, e.tape, DeclaredBy(e));
      var root := RootOf(trust, e);
      RunPairsSize(root.sourceRunId, root.verifiedEvents.Keys);
      var before := RootsOf(trust, entries[..n]);
      assert RootsOf(trust, entries)[..n] == before;
      assert |Universe(before) + PairsOf(root)| <= |Universe(before)| + |PairsOf(root)|;
    }
  }

  lemma {:induction false} RootSource(trust: Trust, entries: seq<RootEntry>, root: TapeRoot) returns (e: RootEntry)
    requires EachAccepted(trust, entries) && root in RootsOf(trust, entries)
    ensures e in entries && root == RootOf(trust, e)
  {
    var n := |entries| - 1;
    assert entries[n] in entries;
    if root == RootOf(trust, entries[n]) {
      e := entries[n];
    } else {
      e := RootSource(trust, entries[..n], root);
    }
  }

  lemma {:induction false} RootsAreSound(trust: Trust, entries: seq<RootEntry>)
    requires EachAccepted(trust, entries)
    ensures RootsSound(RootsOf(trust, entries))
  {
    forall root | root in RootsOf(trust, entries) ensures RootSound(root) {
      var e := RootSource(trust, entries, root);
      ResolvedMeaning(trust, e.tape, DeclaredBy(e));
    }
  }

  // ------------------------------------------------------------- the theorem

  /** A tape entry verifies, and its declared checkpoint covers this non-checkpoint event of its run. */
  ghost predicate Covers(trust: Trust, e: RootEntry, p: Spent) {
    && RootAccepted(trust, e) && p.runId == e.tape.runId && StrLe(p.eventId, e.throughEventId)
    && exists v :: v in Verified(trust, e.tape).events && EventId(v) == p.eventId && !IsCheckpoint(v)
  }

  lemma {:induction false} SpentIsCovered(trust: Trust, entries: seq<RootEntry>, p: Spent)
    requires EachAccepted(trust, entries) && InRoots(RootsOf(trust, entries), p)
    ensures exists e :: e in entries && Covers(trust, e, p)
  {
    var root :| root in RootsOf(trust, entries) && InRoot(root, p);
    var e := RootSource(trust, entries, root);
    ResolvedMeaning(trust, e.tape, DeclaredBy(e));
    var v := root.verifiedEvents[p.eventId];
    assert v in Verified(trust, e.tape).events && EventId(v) == p.eventId;
    assert Covers(trust, e, p);
  }

  lemma {:induction false} PolicyInput(p: Policy, v: Invariants)
    requires PolicyAccepted(p)
    ensures InputNamesSlashFree(GateInputOf(p, v)) && D.ValidInput(GateInputOf(p, v))
  {
  }

  lemma {:induction false} DerivedNames(p: Policy, trials: seq<G.Trial>)
    requires PolicyAccepted(p) && TrialsInPolicy(p, trials)
    ensures TrialNamesSlashFree(trials)
  {
  }

  /** The trials of a ready judgement fill one cohort. */
  lemma {:induction false} ReadyTrials(c: Context, b: Bundle) returns (cohort: set<string>)
    requires PolicyAccepted(c.policy) && Judge(c, b).Some? && Judge(c, b).value.evaluation.blockers == []
    ensures CohortReleasable(Judge(c, b).value.trials, Judge(c, b).value.input, cohort)
    ensures D.GlobalsHold(Judge(c, b).value.input)
    ensures |Judge(c, b).value.trials|
            == |c.policy.expectedProviders| * |c.policy.expectedTrustTiers| * (|cohort| * 3)
  {
    var o := Judge(c, b).value;
    TrialsDerived(c, [], b.trials);
    AllGoverned(o.trials);
    PolicyInput(c.policy, UseInvariants(c, UseTrials(c, [], b.trials).value.spent, b).value.value);
    DerivedNames(c.policy, o.trials);
    cohort := ReadyCohort(c.host.collate, o.trials, o.input);
    TrialCount(o.trials, c.policy, o.input, cohort);
  }

  /** Seven events for each trial, four for the two invariants and two for each check. */
  lemma {:induction false} JudgedSpent(c: Context, b: Bundle)
    requires RootsSound(c.roots) && Judge(c, b).Some?
    ensures |Judge(c, b).value.spent| == 7 * |Judge(c, b).value.trials| + 4 + 2 * |b.requiredChecks|
    ensures Sound(c.roots, Judge(c, b).value.spent)
  {
    TrialsGrow(c, [], b.trials);
    InvariantsGrow(c, UseTrials(c, [], b.trials).value.spent, b);
  }

  /** A ready campaign's evidence, counted, over any roots. */
  lemma {:induction false} ReadyCount(c: Context, b: Bundle) returns (cohort: set<string>)
    requires PolicyAccepted(c.policy) && RootsSound(c.roots)
    requires Judge(c, b).Some? && Judge(c, b).value.evaluation.blockers == []
    ensures CohortReleasable(Judge(c, b).value.trials, Judge(c, b).value.input, cohort)
    ensures D.GlobalsHold(Judge(c, b).value.input)
    ensures |Judge(c, b).value.spent|
            == 21 * (|cohort| * (|c.policy.expectedProviders| * |c.policy.expectedTrustTiers|))
               + 4 + 2 * |c.policy.requiredCheckNames|
    ensures Sound(c.roots, Judge(c, b).value.spent)
  {
    cohort := ReadyTrials(c, b);
    JudgedSpent(c, b);
    ChecksMatchPolicy(c, UseTrials(c, [], b.trials).value.spent, b);
    Regroup(|c.policy.expectedProviders|, |c.policy.expectedTrustTiers|, |cohort|);
  }

  lemma {:induction false} Regroup(p: nat, q: nat, n: nat)
    ensures 7 * (p * q * (n * 3)) == 21 * (n * (p * q))
  {
    var m := p * q;
    assert m * (n * 3) == 3 * (n * m);
  }

  // -------------------------------------------------- what the judgement rests on

  lemma {:induction false} TapesApart(trust: Trust, entries: seq<RootEntry>)
    requires RootsAccepted(trust, entries)
    ensures TapesDistinct(RootsOf(trust, entries))
  {
    var roots := RootsOf(trust, entries);
    forall x, y | x in roots && y in roots && x.tapeId == y.tapeId ensures x == y {
      var e := RootSource(trust, entries, x);
      var f := RootSource(trust, entries, y);
      var i :| 0 <= i < |entries| && entries[i] == e;
      var j :| 0 <= j < |entries| && entries[j] == f;
      assert TapeIdOf(entries[i]) == TapeIdOf(entries[j]);
    }
  }

  lemma {:induction false} AllWitnessedMore(
      c: Context, u: Used<seq<G.Trial>>, more: seq<Spent>, refs: seq<EvidenceRef>)
    requires AllWitnessed(c, u, refs) && u.spent <= more
    ensures AllWitnessed(c, Used(u.value, more), refs)
  {
    forall i | 0 <= i < |refs| ensures Witnessed(c, more, refs[i], u.value[i]) {
      WitnessedMore(c, u.spent, more, refs[i], u.value[i]);
    }
  }

  /** The gate's input: the policy's own fields, and the three invariants as the campaign's events state them. */
  ghost predicate InputStated(c: Context, b: Bundle, input: D.GateInput, spent: seq<Spent>) {
    && input.expectedProviders == c.policy.expectedProviders && input.expectedTrustTiers == c.policy.expectedTrustTiers
    && input.minimumTasksPerGroup == c.policy.minimumTasksPerGroup && input.baseline.None?
    && input.baselineByGroup == c.policy.baselineByGroup
    && input.maxCapabilityRegression == Some(c.policy.maxCapabilityRegression)
    && BranchStated(c, spent, b.targetBranchImmutability, input.targetBranchImmutability)
    && ReplayStated(c, spent, b.backwardReplayCompatibility, input.backwardReplayCompatible)
    && (forall name :: name in input.unresolvedRequiredChecks <==>
          name in c.policy.requiredCheckNames && !Succeeded(c, spent, b.requiredChecks, name))
  }

  lemma {:induction false} JudgeParts(c: Context, b: Bundle)
    returns (trials: Used<seq<G.Trial>>, u: Used<Invariants>)
    requires Judge(c, b).Some?
    ensures UseTrials(c, [], b.trials) == Some(trials) && UseInvariants(c, trials.spent, b) == Some(u)
    ensures Judge(c, b).value.trials == trials.value && Judge(c, b).value.spent == u.spent
    ensures Judge(c, b).value.input == GateInputOf(c.policy, u.value)
  {
    trials := UseTrials(c, [], b.trials).value;
    u := UseInvariants(c, trials.spent, b).value;
  }

  lemma {:induction false} JudgedTrials(c: Context, b: Bundle, trials: Used<seq<G.Trial>>, more: seq<Spent>)
    requires RootsSound(c.roots) && UseTrials(c, [], b.trials) == Some(trials) && trials.spent <= more
    ensures AllWitnessed(c, Used(trials.value, more), b.trials)
  {
    TrialsWitnessed(c, [], b.trials);
    AllWitnessedMore(c, trials, more, b.trials);
  }

  lemma {:induction false} JudgedInput(c: Context, b: Bundle, spent: seq<Spent>, u: Used<Invariants>)
    requires RootsSound(c.roots) && TapesDistinct(c.roots) && UseInvariants(c, spent, b) == Some(u)
    ensures spent <= u.spent && InputStated(c, b, GateInputOf(c.policy, u.value), u.spent)
  {
    InvariantsMeaning(c, spent, b);
  }

  /**
   * Every judgement, ready or not: each trial is what the event of its own reference states, and the gate's input is
   * the policy with the invariants that the campaign's events state.
   */
  lemma {:induction false} JudgedOnEvidence(c: Context, b: Bundle)
    requires RootsSound(c.roots) && TapesDistinct(c.roots) && Judge(c, b).Some?
    ensures var o := Judge(c, b).value;
            AllWitnessed(c, Used(o.trials, o.spent), b.trials) && InputStated(c, b, o.input, o.spent)
  {
    var trials, u := JudgeParts(c, b);
    JudgedInput(c, b, trials.spent, u);
    JudgedTrials(c, b, trials, u.spent);
  }

  /** An evaluation is for the bundle, release and policy it was asked for, over accepted roots. */
  lemma {:induction false} EvaluationBound(host: Host, trust: Trust, policy: Policy, release: Bindings, b: Bundle)
    requires Evaluate(host, trust, Some(policy), release, b).Some?
    ensures b.releaseCommit == release.releaseCommit && b.releaseRef == release.releaseRef == policy.targetRef
    ensures b.policyDigest == release.policyDigest == host.policyDigest(policy)
    ensures b.tapeRoots != [] && b.trials != [] && RootsAccepted(trust, b.tapeRoots)
    ensures Evaluate(host, trust, Some(policy), release, b)
            == Judge(Context(host, policy, release, RootsOf(trust, b.tapeRoots)), b)
  {
  }

  /** Every expected pair wins its share: its own baseline of the policy less the regression the policy allows. */
  ghost predicate BaselinesReached(policy: Policy, trials: seq<G.Trial>, cohort: set<string>) {
    forall p, t :: p in policy.expectedProviders && t in policy.expectedTrustTiers ==>
      && p + "/" + t in policy.baselineByGroup
      && WinsReach(trials, p, t, cohort, policy.baselineByGroup[p + "/" + t], policy.maxCapabilityRegression)
  }

  lemma {:induction false} ReleasableReaches(
      policy: Policy, trials: seq<G.Trial>, input: D.GateInput, cohort: set<string>)
    requires PolicyAccepted(policy) && CohortReleasable(trials, input, cohort)
    requires input.expectedProviders == policy.expectedProviders
    requires input.expectedTrustTiers == policy.expectedTrustTiers
    requires input.baselineByGroup == policy.baselineByGroup
    requires input.maxCapabilityRegression == Some(policy.maxCapabilityRegression)
    ensures BaselinesReached(policy, trials, cohort)
  {
    forall p, t | p in policy.expectedProviders && t in policy.expectedTrustTiers
      ensures p + "/" + t in policy.baselineByGroup
      ensures WinsReach(trials, p, t, cohort, policy.baselineByGroup[p + "/" + t], policy.maxCapabilityRegression)
    {
      D.PairMembers(policy.expectedProviders, policy.expectedTrustTiers, p, t);
      assert G.GroupKey(p, t) == p + "/" + t;
      assert G.GroupKey(p, t) in ExpectedGroups(policy.expectedProviders, policy.expectedTrustTiers) by {
        assert (p, t) in D.Pairs(policy.expectedProviders, policy.expectedTrustTiers);
      }
      assert PairReleasable(trials, input, p, t, cohort);
    }
  }

  /** Both invariants hold and every required check succeeded, each by an event of this release that was spent. */
  ghost predicate InvariantsProven(c: Context, b: Bundle, spent: seq<Spent>) {
    && BranchStated(c, spent, b.targetBranchImmutability, true)
    && ReplayStated(c, spent, b.backwardReplayCompatibility, true)
    && forall name :: name in c.policy.requiredCheckNames ==> Succeeded(c, spent, b.requiredChecks, name)
  }

  lemma {:induction false} GlobalsProven(c: Context, b: Bundle, input: D.GateInput, spent: seq<Spent>)
    requires InputStated(c, b, input, spent) && D.GlobalsHold(input)
    ensures InvariantsProven(c, b, spent)
  {
    forall name | name in c.policy.requiredCheckNames ensures Succeeded(c, spent, b.requiredChecks, name) {
      assert name !in input.unresolvedRequiredChecks;
    }
  }

  /**
   * A ready campaign over P providers, Q tiers and R required checks holds every pair to one cohort of n tasks,
   * n at least the policy's minimum, and to its own baseline less the allowed regression; branch immutability, replay
   * compatibility and the success of every required check are stated by spent events of this release; it has spent
   * exactly 21*n*P*Q + 4 + 2*R events, no event twice, each a non-checkpoint event covered by a verified checkpoint,
   * so the declared counts add up to at least that many.
   */
  lemma {:induction false} ReadyCampaignEvidence(host: Host, trust: Trust, policy: Policy, release: Bindings, b: Bundle)
    returns (cohort: set<string>)
    requires PolicyAccepted(policy)
    requires Evaluate(host, trust, Some(policy), release, b).Some?
    requires Evaluate(host, trust, Some(policy), release, b).value.evaluation.blockers == []
    ensures |cohort| >= policy.minimumTasksPerGroup >= 30
    ensures forall p, t :: p in policy.expectedProviders && t in policy.expectedTrustTiers ==>
              PairTasks(Evaluate(host, trust, Some(policy), release, b).value.trials, p, t) == cohort
    ensures EachAccepted(trust, b.tapeRoots)
    ensures var c := Context(host, policy, release, RootsOf(trust, b.tapeRoots));
            var o := Evaluate(host, trust, Some(policy), release, b).value;
            && BaselinesReached(policy, o.trials, cohort)
            && AllWitnessed(c, Used(o.trials, o.spent), b.trials) && InvariantsProven(c, b, o.spent)
    ensures var spent := Evaluate(host, trust, Some(policy), release, b).value.spent;
            && |spent| == 21 * (|cohort| * (|policy.expectedProviders| * |policy.expectedTrustTiers|))
                          + 4 + 2 * |policy.requiredCheckNames|
            && Distinct(spent)
            && (forall p :: p in spent ==> exists e :: e in b.tapeRoots && Covers(trust, e, p))
            && |spent| <= DeclaredTotal(b.tapeRoots)
  {
    EvaluationBound(host, trust, policy, release, b);
    var c := Context(host, policy, release, RootsOf(trust, b.tapeRoots));
    RootsAreSound(trust, b.tapeRoots);
    TapesApart(trust, b.tapeRoots);
    cohort := ReadyCount(c, b);
    var o := Judge(c, b).value;
    CohortTasks(o.trials, o.input, cohort);
    JudgedOnEvidence(c, b);
    ReleasableReaches(policy, o.trials, o.input, cohort);
    GlobalsProven(c, b, o.input, o.spent);
    SpentWithinDeclared(trust, b.tapeRoots, o.spent);
  }

  lemma {:induction false} CohortTasks(trials: seq<G.Trial>, input: D.GateInput, cohort: set<string>)
    requires CohortReleasable(trials, input, cohort)
    ensures |cohort| >= input.minimumTasksPerGroup
    ensures forall p, t :: p in input.expectedProviders && t in input.expectedTrustTiers ==>
              PairTasks(trials, p, t) == cohort
  {
    forall p, t | p in input.expectedProviders && t in input.expectedTrustTiers
      ensures PairTasks(trials, p, t) == cohort
    {
      assert PairReleasable(trials, input, p, t, cohort);
    }
  }

  /** Sound spending names covered events, and no more of them than the checkpoints declare. */
  lemma {:induction false} SpentWithinDeclared(trust: Trust, entries: seq<RootEntry>, spent: seq<Spent>)
    requires EachAccepted(trust, entries) && Sound(RootsOf(trust, entries), spent)
    ensures forall p :: p in spent ==> exists e :: e in entries && Covers(trust, e, p)
    ensures |spent| <= DeclaredTotal(entries)
  {
    var roots := RootsOf(trust, entries);
    forall p | p in spent ensures p in Universe(roots) && exists e :: e in entries && Covers(trust, e, p) {
      UniverseHas(roots, p);
      SpentIsCovered(trust, entries, p);
    }
    DistinctSubset(spent, Universe(roots));
    UniverseSize(trust, entries);
  }

  /** With no hash collision among what the two tapes hash, two roots of one campaign never share a root hash. */
  lemma {:induction false} RootHashesDiffer(trust: Trust, entries: seq<RootEntry>, i: nat, j: nat)
    requires RootsAccepted(trust, entries) && i < j < |entries|
    requires RootAccepted(trust, entries[i]) && RootAccepted(trust, entries[j])
    requires CollisionFree(trust.sha256,
               Hashed(trust, entries[i].tape, entries[i].throughEventId)
               + Hashed(trust, entries[j].tape, entries[j].throughEventId))
    ensures entries[i].tapeRootHash != entries[j].tapeRootHash
  {
    var a, b := entries[i], entries[j];
    assert RunOf(a) != RunOf(b);
    if a.tapeRootHash == b.tapeRootHash {
      RootCommitsToCover(trust, a.tape, b.tape, DeclaredBy(a), DeclaredBy(b));
    }
  }
}
