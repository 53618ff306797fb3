/**
 * The fresh-start gates (apps/cli/src/governed-execution-session.ts, governed-candidate-session.ts) and what
 * the recovery parser lets them conclude about state they never read.
 */
module FreshStart {
  import opened Seqs
  import opened Recovery
  import opened RecoveryLinks
  import opened RecoveryProjection
  import opened RecoveryExact

  // ------------------------------------------------------------ same dispatch

  /** sameDispatch. */
  predicate SameDispatch(l: Dispatch, r: Dispatch) {
    && l.schemaVersion == r.schemaVersion && l.runId == r.runId && l.workflowId == r.workflowId
    && l.workflowRevision == r.workflowRevision && l.unitId == r.unitId && l.attempt == r.attempt
    && l.provenanceRef == r.provenanceRef && l.dispatchEnvelopeRef == r.dispatchEnvelopeRef
    && l.envelopeDigest == r.envelopeDigest && l.baseCommitSha == r.baseCommitSha
    && l.executionRole == r.executionRole && l.commitMode == r.commitMode && l.trustTier == r.trustTier
    && l.capabilityBundleDigest == r.capabilityBundleDigest
    && l.acceptanceContractDigest == r.acceptanceContractDigest && l.policyDigest == r.policyDigest
    && l.contextManifestDigest == r.contextManifestDigest && l.workerManifestDigest == r.workerManifestDigest
    && l.sandboxProfileDigest == r.sandboxProfileDigest && l.repositoryBindingDigest == r.repositoryBindingDigest
    && l.ledgerAuthorityRealmDigest == r.ledgerAuthorityRealmDigest
    && l.governedPacketDigest == r.governedPacketDigest && l.idempotencyKey == r.idempotencyKey
    && l.authorityActor == r.authorityActor && l.actionEvidenceVersion == r.actionEvidenceVersion
    && l.issuedAt == r.issuedAt && l.expiresAt == r.expiresAt
    && l.budget.maxTokens == r.budget.maxTokens && l.budget.maxComputeTimeMs == r.budget.maxComputeTimeMs
  }

  datatype FieldValue = Text(text: string) | Number(number: int)

  /** The fields that assertSameDispatch compares one by one. */
  function Fields(d: Dispatch): seq<FieldValue> {
    [Number(d.schemaVersion), Text(d.runId), Text(d.workflowId), Text(d.workflowRevision), Text(d.unitId),
     Number(d.attempt),
     Text(d.provenanceRef), Text(d.dispatchEnvelopeRef), Text(d.envelopeDigest), Text(d.baseCommitSha),
     Text(d.executionRole),
     Text(d.commitMode), Text(d.trustTier), Text(d.capabilityBundleDigest), Text(d.acceptanceContractDigest),
     Text(d.policyDigest), Text(d.contextManifestDigest), Text(d.workerManifestDigest), Text(d.sandboxProfileDigest),
     Text(d.repositoryBindingDigest), Text(d.ledgerAuthorityRealmDigest), Text(d.governedPacketDigest),
     Text(d.idempotencyKey), Text(d.authorityActor), Text(d.actionEvidenceVersion), Text(d.issuedAt), Text(d.expiresAt)]
  }

  lemma {:induction false} FieldsAgree(l: Dispatch, r: Dispatch)
    requires Fields(l) == Fields(r)
    ensures l.(budget := r.budget) == r
  {
    var a, b := Fields(l), Fields(r);
    assert a[0] == b[0] && a[1] == b[1] && a[2] == b[2] && a[3] == b[3] && a[4] == b[4] && a[5] == b[5] && a[6] == b[6];
    assert a[7] == b[7] && a[8] == b[8] && a[9] == b[9] && a[10] == b[10] && a[11] == b[11] && a[12] == b[12];
    assert a[13] == b[13] && a[14] == b[14] && a[15] == b[15] && a[16] == b[16] && a[17] == b[17] && a[18] == b[18];
    assert a[19] == b[19] && a[20] == b[20] && a[21] == b[21] && a[22] == b[22] && a[23] == b[23] && a[24] == b[24];
    assert a[25] == b[25] && a[26] == b[26];
  }

  method SameFields(a: seq<FieldValue>, b: seq<FieldValue>) returns (ok: bool)
    requires |a| == |b|
    ensures ok <==> a == b
  {
    for i := 0 to |a|
      invariant forall j :: 0 <= j < i ==> a[j] == b[j]
    {
      if a[i] != b[i] {
        return false;
      }
    }
    return true;
  }

  /** assertSameDispatch: its field loop and budget check leave no field out. */
  method AssertSameDispatch(provided: Dispatch, trusted: Dispatch) returns (ok: bool)
    ensures ok <==> provided == trusted
  {
    ok := SameFields(Fields(provided), Fields(trusted));
    if ok {
      FieldsAgree(provided, trusted);
      BudgetDecides(provided, trusted);
      ok := provided.budget.maxTokens == trusted.budget.maxTokens
            && provided.budget.maxComputeTimeMs == trusted.budget.maxComputeTimeMs;
    }
  }

  lemma {:induction false} BudgetDecides(l: Dispatch, r: Dispatch)
    requires l.(budget := r.budget) == r
    ensures l == r <==>
            l.budget.maxTokens == r.budget.maxTokens && l.budget.maxComputeTimeMs == r.budget.maxComputeTimeMs
  {
    assert l.budget == Budget(l.budget.maxTokens, l.budget.maxComputeTimeMs);
    assert l == l.(budget := l.budget);
  }

  /** The two comparisons of dispatches agree: each is equality. */
  lemma {:induction false} SameDispatchIsEquality(l: Dispatch, r: Dispatch)
    ensures SameDispatch(l, r) <==> l == r
  {
    if SameDispatch(l, r) {
      assert l.budget == Budget(l.budget.maxTokens, l.budget.maxComputeTimeMs) == r.budget;
    }
  }

  // ------------------------------------------------------------------ gates

  /** The recovery part of validateResolution. */
  predicate ExecutionGate(dispatch: Dispatch, r: Resolution) {
    && SameDispatch(dispatch, r.dispatch)
    && r.phase.Dispatched? && r.timers == [] && r.cancellation.None?
    && r.pendingActionIds == [] && r.unknownActionIds == [] && r.failedActionIds == []
    && r.recovery.requests == [] && r.recovery.receipts == [] && r.recovery.candidates == []
    && r.recovery.receiptSet.None?
  }

  /** The recovery part of validateInput; it does not look at timers or cancellation. */
  predicate CandidateGate(dispatch: Dispatch, r: Resolution) {
    && dispatch == r.dispatch
    && r.phase.Dispatched?
    && |r.recovery.requests| == 0 && |r.recovery.receipts| == 0 && |r.recovery.candidates| == 0
    && r.recovery.receiptSet.None?
    && |r.pendingActionIds| == 0 && |r.unknownActionIds| == 0 && |r.failedActionIds| == 0
  }

  /** Nothing has happened under the dispatch yet, in the raw projection or in what was parsed from it. */
  ghost predicate Untouched(n: NativeRecovery, r: Resolution) {
    && n.activityClaims == [] && r.recovery.activityClaims == []
    && n.pendingWork == [] && r.pendingWork == []
    && n.candidateCompletion.None? && r.recovery.candidateCompletion.None?
    && n.promotionApproval.None? && r.promotionApproval.None?
    && n.pendingApprovalWork == [] && r.pendingApprovalWork == []
    && n.cancellation.None? && r.cancellation.None?
    && n.acceptance.None? && n.reviews == [] && n.promotion.None? && n.terminal.None?
    && n.requests == [] && n.receipts == [] && n.candidates == [] && n.receiptSet.None?
  }

  lemma {:induction false} CandidatesKept(d: Dispatch, entries: seq<NativeCandidate>)
    requires ReadCandidates(d, entries).Some?
    ensures |ReadCandidates(d, entries).value| == |entries|
  {
    if entries != [] { CandidatesKept(d, entries[..|entries| - 1]); }
  }

  lemma {:induction false} NoRequestsNoReceipts(h: Host, d: Dispatch, entries: seq<NativeReceipt>)
    requires ReadReceipts(h, d, [], entries).Some?
    ensures entries == []
  {
  }

  /** Every claim must find its request. */
  lemma {:induction false} NoRequestsNoClaims(h: Host, d: Dispatch, deadline: int, entries: seq<NativeClaim>)
    requires AddClaims(h, d, [], deadline, entries).Some?
    ensures entries == []
  {
  }

  lemma {:induction false} NoRequestsNothing(k: Kernel, d: Dispatch, n: NativeRecovery)
    requires SnapshotOf(k, d, n).Some? && SnapshotOf(k, d, n).value.requests == []
    ensures n.requests == [] && n.receipts == [] && n.activityClaims == [] && n.pendingWork == []
  {
    RequestsDistinct(k.host, d, n.requests);
    NoRequestsNoReceipts(k.host, d, n.receipts);
    NoRequestsNoClaims(k.host, d, EffectDeadline(k.host, d).value, n.activityClaims);
  }

  lemma {:induction false} FreshMeansUntouched(k: Kernel, d: Dispatch, schema: int, n: NativeRecovery)
    requires ReadRecovery(k, d, schema, n).Some?
    requires CandidateGate(d, ReadRecovery(k, d, schema, n).value)
    ensures Untouched(n, ReadRecovery(k, d, schema, n).value)
  {
    NoRequestsNothing(k, d, n);
    CandidatesKept(d, n.candidates);
  }

  /**
   * A parsed recovery that the candidate-session gate accepts has no claim, pending work, completion, approval,
   * approval work, cancellation, acceptance, review, promotion or terminal evidence.
   */
  lemma {:induction false} CandidateGateIsFresh(
      k: Kernel, dispatch: Dispatch, d: Dispatch, schema: int, n: NativeRecovery)
    requires ReadRecovery(k, d, schema, n).Some? && CandidateGate(dispatch, ReadRecovery(k, d, schema, n).value)
    ensures dispatch == d && Untouched(n, ReadRecovery(k, d, schema, n).value)
  {
    assert ReadRecovery(k, d, schema, n).value.dispatch == d;
    FreshMeansUntouched(k, d, schema, n);
  }

  /** The same for the execution-session gate, which also rules out timers. */
  lemma {:induction false} ExecutionGateIsFresh(
      k: Kernel, dispatch: Dispatch, d: Dispatch, schema: int, n: NativeRecovery)
    requires ReadRecovery(k, d, schema, n).Some? && ExecutionGate(dispatch, ReadRecovery(k, d, schema, n).value)
    ensures dispatch == d && Untouched(n, ReadRecovery(k, d, schema, n).value) && n.timers == []
  {
    assert ReadRecovery(k, d, schema, n).value.dispatch == d;
    SameDispatchIsEquality(dispatch, d);
    FreshMeansUntouched(k, d, schema, n);
  }

  /** Conversely both gates open on every untouched dispatched recovery; they differ only on timers. */
  lemma {:induction false} GatesOpen(k: Kernel, d: Dispatch, schema: int, n: NativeRecovery)
    requires ReadRecovery(k, d, schema, n).Some?
    ensures var r := ReadRecovery(k, d, schema, n).value;
            var quiet := r.phase.Dispatched? && Untouched(n, r)
                         && r.pendingActionIds == [] && r.unknownActionIds == [] && r.failedActionIds == [];
            && (CandidateGate(d, r) <==> quiet)
            && (ExecutionGate(d, r) <==> quiet && n.timers == [])
  {
    var r := ReadRecovery(k, d, schema, n).value;
    assert r.dispatch == d;
    SameDispatchIsEquality(d, d);
    if CandidateGate(d, r) { FreshMeansUntouched(k, d, schema, n); }
    if ExecutionGate(d, r) { FreshMeansUntouched(k, d, schema, n); }
  }

  // -------------------------------------------------------- promotion approval

  lemma {:induction false} AcceptedLater(k: Kernel, d: Dispatch, schema: int, n: NativeRecovery)
    requires ReadRecovery(k, d, schema, n).Some?
    ensures LaterTaken(d, schema, ReadRecovery(k, d, schema, n).value.recovery.candidates, n)
    ensures CompletionFits(k, d, n, ReadRecovery(k, d, schema, n).value.recovery)
  {
    RecoveryExactly(k, d, schema, n, ReadRecovery(k, d, schema, n).value);
  }

  /**
   * An accepted recovery that waits for a promotion decision names one candidate, and holds a completion and a
   * passed acceptance for it and, for every review it names, an approving version-2 review that binds the same
   * candidate, envelope and acceptance; its work list is decided by its schema and event digest.
   */
  lemma {:induction false} ApprovalIsBound(k: Kernel, d: Dispatch, schema: int, n: NativeRecovery)
    returns (i: nat)
    requires ReadRecovery(k, d, schema, n).Some? && n.phase.PromotionApprovalPending?
    ensures n.promotionApproval.Some?
    ensures var a := n.promotionApproval.value;
            var candidates := ReadRecovery(k, d, schema, n).value.recovery.candidates;
            && ApprovedAt(a, candidates, i) && candidates[i].candidateDigest == a.candidateDigest
            && candidates[i].envelopeDigest == d.envelopeDigest && candidates[i].baseCommitSha == d.baseCommitSha
            && n.candidateCompletion.Some?
            && CompletionTaken(k, d, candidates, n.candidateCompletion.value, i)
            && n.acceptance.Some? && AcceptancePassed(d, a, candidates[i], n.acceptance.value)
            && a.reviewRefs != []
            && (forall ref :: ref in a.reviewRefs ==>
                  ReviewApproves(d, candidates[i], n.acceptance.value, n.reviews, ref))
            && n.promotion.None? && n.terminal.None?
            && (schema == 1 ==> n.pendingApprovalWork == [])
            && (schema != 1 ==> (|n.pendingApprovalWork| == 1 <==> a.eventDigest.Some?) && |n.pendingApprovalWork| <= 1)
            && (forall w :: w in n.pendingApprovalWork ==> ApprovalWorkTaken(d, a, w))
  {
    AcceptedLater(k, d, schema, n);
    var a, candidates := n.promotionApproval.value, ReadRecovery(k, d, schema, n).value.recovery.candidates;
    i :| Approved(d, schema, a, candidates, n, i);
    var j :| CompletionTaken(k, d, candidates, n.candidateCompletion.value, j);
    assert candidates[i].createdRef == n.candidateCompletion.value.candidateCreatedEventRef;
  }
}
