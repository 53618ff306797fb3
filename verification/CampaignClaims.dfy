/** What the claims of a campaign say, read off the events its references name. */
module CampaignClaims {
  import opened Seqs
  import opened Tape
  import opened Campaign
  import G = ReleaseGate
  import D = ReleaseDecision

  // ------------------------------------------------------- events and sources

  ghost predicate RootSound(root: TapeRoot) {
    forall id :: id in root.verifiedEvents ==> EventId(root.verifiedEvents[id]) == id
  }

  ghost predicate RootsSound(roots: seq<TapeRoot>) { forall root :: root in roots ==> RootSound(root) }

  lemma {:induction false} RootForMember(roots: seq<TapeRoot>, tapeId: string)
    requires RootFor(roots, tapeId).Some?
    ensures RootFor(roots, tapeId).value in roots && RootFor(roots, tapeId).value.tapeId == tapeId
  {
    if roots[|roots| - 1].tapeId != tapeId { RootForMember(roots[..|roots| - 1], tapeId); }
  }

  /** A root that holds this very source event. */
  predicate HoldsSource(root: TapeRoot, s: SourceRef) {
    s.sourceEventId in root.verifiedEvents
    && root.verifiedEvents[s.sourceEventId].canonicalEventHash == s.sourceCanonicalEventHash
  }

  /** Exactly one root holds the source event, and it is among what was spent. */
  ghost predicate SourceSpent(c: Context, spent: seq<Spent>, s: SourceRef) {
    exists root :: root in c.roots && HoldsSource(root, s) && Spent(root.sourceRunId, s.sourceEventId) in spent
                   && forall other :: other in c.roots && HoldsSource(other, s) ==> other == root
  }

  /** An event of some root that states the claim under this release, policy and digest, and was spent. */
  ghost predicate States(c: Context, spent: seq<Spent>, root: TapeRoot, id: string, claim: Claim) {
    && root in c.roots && id in root.verifiedEvents && Spent(root.sourceRunId, id) in spent
    && var e := root.verifiedEvents[id].canonical;
       && e.kind == "release_evaluation_evidence_v1" && e.payload.EvidencePayload?
       && e.payload.evidence.claim == claim && e.payload.evidence.schemaVersion == 1
       && e.payload.evidence.releaseCommit == c.bindings.releaseCommit
       && e.payload.evidence.releaseRef == c.bindings.releaseRef
       && e.payload.evidence.policyDigest == c.bindings.policyDigest
       && e.payload.evidence.claimDigest == c.host.claimDigest(e.payload.evidence)
  }

  /** The reference names this event of this root. */
  ghost predicate Refers(c: Context, r: EvidenceRef, root: TapeRoot) {
    && root in c.roots && root.tapeId == r.tapeId && root.tapeRootHash == r.tapeRootHash
    && r.eventId in root.verifiedEvents && root.verifiedEvents[r.eventId].canonicalEventHash == r.canonicalEventHash
  }

  /** The event a reference names was spent, and states this claim for this release. */
  ghost predicate Answers(c: Context, spent: seq<Spent>, r: EvidenceRef, claim: Claim) {
    exists root :: Refers(c, r, root) && States(c, spent, root, r.eventId, claim)
  }

  ghost predicate TapesDistinct(roots: seq<TapeRoot>) {
    forall x, y :: x in roots && y in roots && x.tapeId == y.tapeId ==> x == y
  }

  /** A reference names one event, which states one claim. */
  lemma {:induction false} AnswersOnce(
      c: Context, spent: seq<Spent>, more: seq<Spent>, r: EvidenceRef, a: Claim, b: Claim)
    requires TapesDistinct(c.roots) && Answers(c, spent, r, a) && Answers(c, more, r, b)
    ensures a == b
  {
  }

  lemma {:induction false} AnswersMore(c: Context, spent: seq<Spent>, more: seq<Spent>, r: EvidenceRef, claim: Claim)
    requires spent <= more && Answers(c, spent, r, claim)
    ensures Answers(c, more, r, claim)
  {
    var root :| Refers(c, r, root) && States(c, spent, root, r.eventId, claim);
    assert States(c, more, root, r.eventId, claim);
  }

  lemma {:induction false} SourceMore(c: Context, spent: seq<Spent>, more: seq<Spent>, s: SourceRef)
    requires spent <= more && SourceSpent(c, spent, s)
    ensures SourceSpent(c, more, s)
  {
  }

  lemma {:induction false} ClaimAnswers(c: Context, spent: seq<Spent>, r: EvidenceRef)
    requires RootsSound(c.roots) && UseClaim(c, spent, r).Some?
    ensures spent <= UseClaim(c, spent, r).value.spent
    ensures Answers(c, UseClaim(c, spent, r).value.spent, r, UseClaim(c, spent, r).value.value)
  {
    var used := UseClaim(c, spent, r).value;
    var root := RootFor(c.roots, r.tapeId).value;
    RootForMember(c.roots, r.tapeId);
    assert Refers(c, r, root) && States(c, used.spent, root, r.eventId, used.value);
  }

  lemma {:induction false} SourceUsed(c: Context, spent: seq<Spent>, s: SourceRef)
    requires RootsSound(c.roots) && UseSource(c, spent, s).Some?
    ensures spent <= UseSource(c, spent, s).value && SourceSpent(c, UseSource(c, spent, s).value, s)
  {
    var matches := RootsHolding(c.roots, s);
    var root := matches[0];
    RootsHoldingMembers(c.roots, s, root);
    forall other | other in c.roots && HoldsSource(other, s) ensures other == root {
      RootsHoldingMembers(c.roots, s, other);
    }
  }

  lemma {:induction false} SourcesSpent(c: Context, spent: seq<Spent>, sources: seq<SourceRef>)
    requires RootsSound(c.roots) && UseSources(c, spent, sources).Some?
    ensures spent <= UseSources(c, spent, sources).value
    ensures forall s :: s in sources ==> SourceSpent(c, UseSources(c, spent, sources).value, s)
  {
    if sources != [] {
      var n := |sources| - 1;
      SourcesSpent(c, spent, sources[..n]);
      var before, after := UseSources(c, spent, sources[..n]).value, UseSources(c, spent, sources).value;
      SourceUsed(c, before, sources[n]);
      forall s | s in sources ensures SourceSpent(c, after, s) {
        if s in sources[..n] { SourceMore(c, before, after, s); }
      }
    }
  }

  // ------------------------------------------------------------------- trials

  /** The trial carries the claim's figures, field by field. */
  ghost predicate Carries(x: G.Trial, claim: TrialClaim) {
    && x.taskId == claim.taskId && x.provider == claim.provider && x.trustTier == claim.trustTier
    && x.trial == claim.trial && x.governance.Governed? && claim.governed && x.passed == claim.passed
    && x.costUsd * 1000000.0 == claim.costUsdMicros as real && x.latencyMs == claim.latencyMs as real
    && x.tokens == claim.tokens as real && x.toolCalls == claim.toolCalls as real
    && x.candidateCount == claim.candidateCount as real && x.reviewerDisagreed == claim.reviewerDisagreed
    && x.falseApproval == claim.falseApproval && x.unauthorizedEffects == claim.unauthorizedEffects as real
    && x.duplicateEffects == claim.duplicateEffects as real && x.safetyViolations == claim.safetyViolations as real
    && x.recoveryCorrect == claim.recoveryCorrect && x.illegitimateSuccess == claim.illegitimateSuccess
  }

  /** All six sources of a trial claim were spent. */
  ghost predicate TrialSourcesSpent(c: Context, spent: seq<Spent>, s: Sources) {
    && SourceSpent(c, spent, s.modelRequest) && SourceSpent(c, spent, s.candidate)
    && SourceSpent(c, spent, s.acceptance) && SourceSpent(c, spent, s.review)
    && SourceSpent(c, spent, s.recovery) && SourceSpent(c, spent, s.terminal)
  }

  /** The event of this reference states the claim, the trial carries it, and its six sources were spent with it. */
  ghost predicate WitnessedBy(c: Context, spent: seq<Spent>, r: EvidenceRef, x: G.Trial, claim: TrialClaim) {
    && Answers(c, spent, r, Trial(claim)) && Carries(x, claim) && TrialSourcesSpent(c, spent, claim.sources)
    && claim.provider in c.policy.expectedProviders && claim.trustTier in c.policy.expectedTrustTiers
  }

  ghost predicate Witnessed(c: Context, spent: seq<Spent>, r: EvidenceRef, x: G.Trial) {
    exists claim :: WitnessedBy(c, spent, r, x, claim)
  }

  lemma {:induction false} TrialSourcesMore(c: Context, spent: seq<Spent>, more: seq<Spent>, s: Sources)
    requires spent <= more && TrialSourcesSpent(c, spent, s)
    ensures TrialSourcesSpent(c, more, s)
  {
    SourceMore(c, spent, more, s.modelRequest);
    SourceMore(c, spent, more, s.candidate);
    SourceMore(c, spent, more, s.acceptance);
    SourceMore(c, spent, more, s.review);
    SourceMore(c, spent, more, s.recovery);
    SourceMore(c, spent, more, s.terminal);
  }

  lemma {:induction false} WitnessedMore(c: Context, spent: seq<Spent>, more: seq<Spent>, r: EvidenceRef, x: G.Trial)
    requires spent <= more && Witnessed(c, spent, r, x)
    ensures Witnessed(c, more, r, x)
  {
    var claim :| WitnessedBy(c, spent, r, x, claim);
    AnswersMore(c, spent, more, r, Trial(claim));
    TrialSourcesMore(c, spent, more, claim.sources);
    assert WitnessedBy(c, more, r, x, claim);
  }

  lemma {:induction false} TrialCarries(claim: TrialClaim)
    requires claim.governed
    ensures Carries(TrialOf(claim), claim)
  {
    var micros := claim.costUsdMicros as real;
    assert micros / 1000000.0 * 1000000.0 == micros;
  }

  lemma {:induction false} TrialWitnessed(c: Context, spent: seq<Spent>, r: EvidenceRef)
    requires RootsSound(c.roots) && UseTrial(c, spent, r).Some?
    ensures spent <= UseTrial(c, spent, r).value.spent
    ensures Witnessed(c, UseTrial(c, spent, r).value.spent, r, UseTrial(c, spent, r).value.value)
  {
    ClaimAnswers(c, spent, r);
    var used := UseClaim(c, spent, r).value;
    var claim := used.value.claim;
    SourcesSpent(c, used.spent, SourceList(claim.sources));
    var after := UseTrial(c, spent, r).value.spent;
    AnswersMore(c, used.spent, after, r, Trial(claim));
    TrialCarries(claim);
    SixSources(claim.sources);
    assert WitnessedBy(c, after, r, TrialOf(claim), claim);
  }

  lemma {:induction false} SixSources(s: Sources)
    ensures var l := SourceList(s);
            s.modelRequest in l && s.candidate in l && s.acceptance in l && s.review in l && s.recovery in l
            && s.terminal in l
  {
    var l := SourceList(s);
    assert l[0] == s.modelRequest && l[1] == s.candidate && l[2] == s.acceptance && l[3] == s.review;
    assert l[4] == s.recovery && l[5] == s.terminal;
  }

  ghost predicate AllWitnessed(c: Context, u: Used<seq<G.Trial>>, refs: seq<EvidenceRef>) {
    |u.value| == |refs| && forall i :: 0 <= i < |refs| ==> Witnessed(c, u.spent, refs[i], u.value[i])
  }

  lemma {:induction false} WitnessedStep(
      c: Context, before: Used<seq<G.Trial>>, x: G.Trial, more: seq<Spent>, refs: seq<EvidenceRef>)
    requires refs != [] && AllWitnessed(c, before, refs[..|refs| - 1]) && before.spent <= more
    requires Witnessed(c, more, refs[|refs| - 1], x)
    ensures AllWitnessed(c, Used(before.value + [x], more), refs)
  {
    var n := |refs| - 1;
    forall i | 0 <= i < n ensures Witnessed(c, more, refs[i], before.value[i]) {
      assert refs[..n][i] == refs[i];
      WitnessedMore(c, before.spent, more, refs[i], before.value[i]);
    }
  }

  /** Every trial the report is computed from is what the event of its own reference states for this very release. */
  lemma {:induction false} TrialsWitnessed(c: Context, spent: seq<Spent>, refs: seq<EvidenceRef>)
    requires RootsSound(c.roots) && UseTrials(c, spent, refs).Some?
    ensures spent <= UseTrials(c, spent, refs).value.spent && AllWitnessed(c, UseTrials(c, spent, refs).value, refs)
  {
    if refs != [] {
      var n := |refs| - 1;
      TrialsWitnessed(c, spent, refs[..n]);
      var before := UseTrials(c, spent, refs[..n]).value;
      TrialWitnessed(c, before.spent, refs[n]);
      var last := UseTrial(c, before.spent, refs[n]).value;
      WitnessedStep(c, before, last.value, last.spent, refs);
    }
  }

  // --------------------------------------------------------------- invariants

  /** The event of this reference states a claim with one source, which was spent with it. */
  ghost predicate Backs(c: Context, spent: seq<Spent>, r: EvidenceRef, claim: Claim) {
    !claim.Trial? && Answers(c, spent, r, claim) && SourceSpent(c, spent, claim.source)
  }

  lemma {:induction false} BacksMore(c: Context, spent: seq<Spent>, more: seq<Spent>, r: EvidenceRef, claim: Claim)
    requires spent <= more && Backs(c, spent, r, claim)
    ensures Backs(c, more, r, claim)
  {
    AnswersMore(c, spent, more, r, claim);
    SourceMore(c, spent, more, claim.source);
  }

  ghost predicate BranchStated(c: Context, spent: seq<Spent>, r: EvidenceRef, immutable: bool) {
    exists source :: Backs(c, spent, r, TargetBranchImmutability(immutable, source))
  }

  ghost predicate ReplayStated(c: Context, spent: seq<Spent>, r: EvidenceRef, compatible: bool) {
    exists source :: Backs(c, spent, r, BackwardReplayCompatibility(compatible, source))
  }

  ghost predicate CheckStated(c: Context, spent: seq<Spent>, r: EvidenceRef, name: string, conclusion: Conclusion) {
    exists source :: Backs(c, spent, r, RequiredCheck(name, conclusion, source))
  }

  lemma {:induction false} OneSource(c: Context, spent: seq<Spent>, r: EvidenceRef)
    requires RootsSound(c.roots) && UseClaim(c, spent, r).Some? && !UseClaim(c, spent, r).value.value.Trial?
    requires UseSource(c, UseClaim(c, spent, r).value.spent, UseClaim(c, spent, r).value.value.source).Some?
    ensures var used := UseClaim(c, spent, r).value;
            var after := UseSource(c, used.spent, used.value.source).value;
            spent <= after && Backs(c, after, r, used.value)
  {
    ClaimAnswers(c, spent, r);
    var used := UseClaim(c, spent, r).value;
    SourceUsed(c, used.spent, used.value.source);
    AnswersMore(c, used.spent, UseSource(c, used.spent, used.value.source).value, r, used.value);
  }

  lemma {:induction false} BranchMeaning(c: Context, spent: seq<Spent>, r: EvidenceRef)
    requires RootsSound(c.roots) && UseBranch(c, spent, r).Some?
    ensures var u := UseBranch(c, spent, r).value; spent <= u.spent && BranchStated(c, u.spent, r, u.value)
  {
    OneSource(c, spent, r);
    var claim := UseClaim(c, spent, r).value.value;
    assert Backs(c, UseBranch(c, spent, r).value.spent, r, TargetBranchImmutability(claim.immutable, claim.source));
  }

  lemma {:induction false} ReplayMeaning(c: Context, spent: seq<Spent>, r: EvidenceRef)
    requires RootsSound(c.roots) && UseReplay(c, spent, r).Some?
    ensures var u := UseReplay(c, spent, r).value; spent <= u.spent && ReplayStated(c, u.spent, r, u.value)
  {
    OneSource(c, spent, r);
    var claim := UseClaim(c, spent, r).value.value;
    assert Backs(c, UseReplay(c, spent, r).value.spent, r,
                 BackwardReplayCompatibility(claim.compatible, claim.source));
  }

  /** What the map of answers holds: for each reference its check's name, and whether it concluded in success. */
  ghost predicate AnswerOf(c: Context, spent: seq<Spent>, r: EvidenceRef, byName: map<string, bool>, name: string) {
    name in byName && exists conclusion :: CheckStated(c, spent, r, name, conclusion)
                                           && (byName[name] <==> conclusion == Success)
  }

  lemma {:induction false} CheckMeaning(c: Context, before: Used<map<string, bool>>, r: EvidenceRef)
    returns (name: string)
    requires RootsSound(c.roots) && UseCheck(c, before, r).Some?
    ensures var u := UseCheck(c, before, r).value;
            && before.spent <= u.spent && AnswerOf(c, u.spent, r, u.value, name)
            && name in c.policy.requiredCheckNames && name !in before.value
            && u.value == before.value[name := u.value[name]]
  {
    OneSource(c, before.spent, r);
    var claim := UseClaim(c, before.spent, r).value.value;
    name := claim.name;
    var u := UseCheck(c, before, r).value;
    assert Backs(c, u.spent, r, RequiredCheck(name, claim.conclusion, claim.source));
    assert CheckStated(c, u.spent, r, name, claim.conclusion);
  }

  lemma {:induction false} AnswerMore(
      c: Context, spent: seq<Spent>, more: seq<Spent>, r: EvidenceRef, byName: map<string, bool>,
      byName': map<string, bool>, name: string)
    requires spent <= more && AnswerOf(c, spent, r, byName, name)
    requires name in byName' && byName'[name] == byName[name]
    ensures AnswerOf(c, more, r, byName', name)
  {
    var conclusion :| CheckStated(c, spent, r, name, conclusion) && (byName[name] <==> conclusion == Success);
    var source :| Backs(c, spent, r, RequiredCheck(name, conclusion, source));
    BacksMore(c, spent, more, r, RequiredCheck(name, conclusion, source));
    assert CheckStated(c, more, r, name, conclusion);
  }

  ghost predicate AnswersFor(c: Context, u: Used<map<string, bool>>, refs: seq<EvidenceRef>, name: string) {
    exists i :: 0 <= i < |refs| && AnswerOf(c, u.spent, refs[i], u.value, name)
  }

  lemma {:induction false} AnswerForKept(
      c: Context, before: Used<map<string, bool>>, u: Used<map<string, bool>>, refs: seq<EvidenceRef>, last: string,
      name: string)
    requires before.spent <= u.spent && last in u.value && u.value == before.value[last := u.value[last]]
    requires refs != [] && name != last && name in u.value && AnswersFor(c, before, refs[..|refs| - 1], name)
    ensures AnswersFor(c, u, refs, name)
  {
    var n := |refs| - 1;
    var i :| 0 <= i < n && AnswerOf(c, before.spent, refs[..n][i], before.value, name);
    AnswerMore(c, before.spent, u.spent, refs[i], before.value, u.value, name);
  }

  lemma {:induction false} LastAnswers(c: Context, u: Used<map<string, bool>>, refs: seq<EvidenceRef>, last: string)
    requires refs != [] && AnswerOf(c, u.spent, refs[|refs| - 1], u.value, last)
    ensures AnswersFor(c, u, refs, last)
  {
  }

  lemma {:induction false} ChecksGrow(c: Context, spent: seq<Spent>, refs: seq<EvidenceRef>)
    requires RootsSound(c.roots) && UseChecks(c, spent, refs).Some?
    ensures spent <= UseChecks(c, spent, refs).value.spent
  {
    if refs != [] {
      var n := |refs| - 1;
      ChecksGrow(c, spent, refs[..n]);
      var last := CheckMeaning(c, UseChecks(c, spent, refs[..n]).value, refs[n]);
    }
  }

  /** The checks up to the last, and the last one's own step. */
  lemma {:induction false} LastCheck(c: Context, spent: seq<Spent>, refs: seq<EvidenceRef>)
    returns (before: Used<map<string, bool>>, u: Used<map<string, bool>>, last: string)
    requires RootsSound(c.roots) && UseChecks(c, spent, refs).Some? && refs != []
    ensures UseChecks(c, spent, refs[..|refs| - 1]) == Some(before) && UseChecks(c, spent, refs) == Some(u)
    ensures before.spent <= u.spent && AnswerOf(c, u.spent, refs[|refs| - 1], u.value, last)
    ensures last !in before.value && u.value == before.value[last := u.value[last]]
  {
    var n := |refs| - 1;
    before := UseChecks(c, spent, refs[..n]).value;
    u := UseCheck(c, before, refs[n]).value;
    last := CheckMeaning(c, before, refs[n]);
  }

  /** Every check reference gives an answer. */
  lemma {:induction false} CheckAnswered(
      c: Context, spent: seq<Spent>, refs: seq<EvidenceRef>, u: Used<map<string, bool>>, i: nat)
    returns (name: string)
    requires RootsSound(c.roots) && UseChecks(c, spent, refs) == Some(u) && i < |refs|
    ensures AnswerOf(c, u.spent, refs[i], u.value, name)
  {
    var before, after, last := LastCheck(c, spent, refs);
    if i < |refs| - 1 {
      name := CheckAnswered(c, spent, refs[..|refs| - 1], before, i);
      AnswerMore(c, before.spent, u.spent, refs[i], before.value, u.value, name);
    } else {
      name := last;
    }
  }

  /** Every answer comes from a check reference. */
  lemma {:induction false} AnswerFound(c: Context, spent: seq<Spent>, refs: seq<EvidenceRef>, name: string)
    requires RootsSound(c.roots) && UseChecks(c, spent, refs).Some? && name in UseChecks(c, spent, refs).value.value
    ensures AnswersFor(c, UseChecks(c, spent, refs).value, refs, name)
  {
    var n := |refs| - 1;
    var before, u, last := LastCheck(c, spent, refs);
    if name == last {
      LastAnswers(c, u, refs, last);
    } else {
      AnswerFound(c, spent, refs[..n], name);
      AnswerForKept(c, before, u, refs, last, name);
    }
  }

  lemma {:induction false} UnresolvedMembers(names: seq<string>, byName: map<string, bool>, x: string)
    ensures x in Unresolved(names, byName) <==> x in names && !(x in byName && byName[x])
  {
    if names != [] {
      UnresolvedMembers(names[..|names| - 1], byName, x);
      assert names == names[..|names| - 1] + [names[|names| - 1]];
    }
  }

  /** A reference that states success for a name makes the answer for that name true. */
  lemma {:induction false} SuccessAnswers(
      c: Context, u: Used<map<string, bool>>, more: seq<Spent>, r: EvidenceRef, other: string, name: string)
    requires TapesDistinct(c.roots) && AnswerOf(c, u.spent, r, u.value, other) && CheckStated(c, more, r, name, Success)
    ensures name in u.value && u.value[name]
  {
    var conclusion :| CheckStated(c, u.spent, r, other, conclusion) && (u.value[other] <==> conclusion == Success);
    var source :| Backs(c, u.spent, r, RequiredCheck(other, conclusion, source));
    var s :| Backs(c, more, r, RequiredCheck(name, Success, s));
    AnswersOnce(c, u.spent, more, r, RequiredCheck(other, conclusion, source), RequiredCheck(name, Success, s));
  }

  /** Some reference of the campaign states that the check of this name concluded in success. */
  ghost predicate Succeeded(c: Context, spent: seq<Spent>, refs: seq<EvidenceRef>, name: string) {
    exists i :: 0 <= i < |refs| && CheckStated(c, spent, refs[i], name, Success)
  }

  lemma {:induction false} AnsweredTrue(c: Context, u: Used<map<string, bool>>, refs: seq<EvidenceRef>, name: string)
    requires name in u.value && u.value[name] && AnswersFor(c, u, refs, name)
    ensures Succeeded(c, u.spent, refs, name)
  {
    var i :| 0 <= i < |refs| && AnswerOf(c, u.spent, refs[i], u.value, name);
  }

  lemma {:induction false} ResolvedMeansSuccess(c: Context, spent: seq<Spent>, refs: seq<EvidenceRef>, name: string)
    requires RootsSound(c.roots) && TapesDistinct(c.roots) && UseChecks(c, spent, refs).Some?
    ensures var u := UseChecks(c, spent, refs).value;
            name in u.value && u.value[name] <==> Succeeded(c, u.spent, refs, name)
  {
    var u := UseChecks(c, spent, refs).value;
    if name in u.value && u.value[name] {
      AnswerFound(c, spent, refs, name);
      AnsweredTrue(c, u, refs, name);
    }
    if i :| 0 <= i < |refs| && CheckStated(c, u.spent, refs[i], name, Success) {
      var other := CheckAnswered(c, spent, refs, u, i);
      SuccessAnswers(c, u, u.spent, refs[i], other, name);
    }
  }

  /**
   * The three invariants of a campaign, read off its references: the branch and replay flags are what their events
   * state; a required check is unresolved exactly when no check reference states its success for this release.
   */
  lemma {:induction false} InvariantsMeaning(c: Context, spent: seq<Spent>, b: Bundle)
    requires RootsSound(c.roots) && TapesDistinct(c.roots) && UseInvariants(c, spent, b).Some?
    ensures var u := UseInvariants(c, spent, b).value;
            && spent <= u.spent
            && BranchStated(c, u.spent, b.targetBranchImmutability, u.value.immutable)
            && ReplayStated(c, u.spent, b.backwardReplayCompatibility, u.value.compatible)
            && (forall name :: name in u.value.unresolved <==>
                  name in c.policy.requiredCheckNames && !Succeeded(c, u.spent, b.requiredChecks, name))
  {
    var branch := UseBranch(c, spent, b.targetBranchImmutability).value;
    var replay := UseReplay(c, branch.spent, b.backwardReplayCompatibility).value;
    var checks := UseChecks(c, replay.spent, b.requiredChecks).value;
    BranchMeaning(c, spent, b.targetBranchImmutability);
    ReplayMeaning(c, branch.spent, b.backwardReplayCompatibility);
    ChecksGrow(c, replay.spent, b.requiredChecks);
    BranchStays(c, branch.spent, checks.spent, b.targetBranchImmutability, branch.value);
    ReplayStays(c, replay.spent, checks.spent, b.backwardReplayCompatibility, replay.value);
    forall name
      ensures name in Unresolved(c.policy.requiredCheckNames, checks.value) <==>
              name in c.policy.requiredCheckNames && !Succeeded(c, checks.spent, b.requiredChecks, name)
    {
      UnresolvedMembers(c.policy.requiredCheckNames, checks.value, name);
      ResolvedMeansSuccess(c, replay.spent, b.requiredChecks, name);
    }
  }

  lemma {:induction false} BranchStays(c: Context, spent: seq<Spent>, more: seq<Spent>, r: EvidenceRef, immutable: bool)
    requires spent <= more && BranchStated(c, spent, r, immutable)
    ensures BranchStated(c, more, r, immutable)
  {
    var source :| Backs(c, spent, r, TargetBranchImmutability(immutable, source));
    BacksMore(c, spent, more, r, TargetBranchImmutability(immutable, source));
  }

  lemma {:induction false} ReplayStays(
      c: Context, spent: seq<Spent>, more: seq<Spent>, r: EvidenceRef, compatible: bool)
    requires spent <= more && ReplayStated(c, spent, r, compatible)
    ensures ReplayStated(c, more, r, compatible)
  {
    var source :| Backs(c, spent, r, BackwardReplayCompatibility(compatible, source));
    BacksMore(c, spent, more, r, BackwardReplayCompatibility(compatible, source));
  }
}
