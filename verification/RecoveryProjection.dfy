/** The whole native recovery projection: candidates, completion, promotion approval and later state. */
module RecoveryProjection {
  import opened Seqs
  import opened Recovery

  // ------------------------------------------------------------------- data

  datatype Phase = Dispatched | PromotionApprovalPending | CancellationRequested | OtherPhase(name: string)

  datatype NativeCandidate = NativeCandidate(
    eventId: string,
    candidateRef: string,
    candidateDigest: string,
    baseCommitSha: string,
    candidateCommitSha: string,
    treeDigest: string,
    envelopeDigest: string,
    legacyReceiptDigest: Option<string>)

  datatype Candidate = Candidate(
    createdRef: string,
    candidateRef: string,
    candidateDigest: string,
    baseCommitSha: string,
    candidateCommitSha: string,
    treeDigest: string,
    envelopeDigest: string)

  datatype Completion = Completion(
    runId: string,
    workflowId: string,
    unitId: string,
    attempt: int,
    provenanceRef: string,
    candidateCreatedEventRef: string,
    candidateDigest: string,
    rest: string,
    completionDigest: string)

  datatype NativeApproval = NativeApproval(
    eventId: string,
    eventDigest: Option<string>,
    candidateDigest: string,
    baseCommitSha: string,
    targetRef: string,
    envelopeDigest: string,
    acceptanceRef: string,
    reviewRefs: seq<string>,
    requestedBy: string,
    requestedAt: string,
    idempotencyKey: string)

  datatype ApprovalWork = ApprovalWork(
    schemaVersion: int,
    runId: string,
    workflowId: string,
    workflowRevision: string,
    unitId: string,
    attempt: int,
    dispatchEventRef: string,
    dispatchEnvelopeDigest: string,
    candidateDigest: string,
    baseCommitSha: string,
    targetRef: string,
    requestEventRef: string,
    requestEventDigest: string,
    acceptanceRef: string,
    reviewRefs: seq<string>,
    requestedBy: string,
    requestedAt: string,
    idempotencyKey: string)

  datatype Acceptance = Acceptance(
    candidateDigest: string,
    candidateCommitSha: string,
    acceptanceRef: string,
    acceptanceContractDigest: string,
    acceptanceDigest: string,
    passed: bool)

  datatype Decision = Approve | RequestChanges | Reject | Abstain

  datatype Role = Reviewer | Adversary | Judge | OtherRole

  datatype View = View(
    candidateRef: string, candidateDigest: string, candidateCommitSha: string, treeDigest: string,
    readOnly: bool, networkDisabled: bool)

  datatype ReviewDetail = ReviewDetail(
    candidateEnvelopeDigest: string,
    acceptanceRef: string,
    acceptanceDigest: string,
    acceptanceContractDigest: string,
    role: Role,
    view: View)

  /** A recovered review; only version 2 carries the detail that binds envelope and acceptance. */
  datatype Review = Review(
    reviewRef: string,
    decision: Decision,
    candidateDigest: string,
    candidateCommitSha: string,
    detail: Option<ReviewDetail>)

  datatype NativeRecovery = NativeRecovery(
    phase: Phase,
    timers: seq<string>,
    cancellation: Option<string>,
    promotionApproval: Option<NativeApproval>,
    requests: seq<NativeRequest>,
    receipts: seq<NativeReceipt>,
    receiptSet: Option<string>,
    candidates: seq<NativeCandidate>,
    activityClaims: seq<NativeClaim>,
    pendingWork: seq<Work>,
    candidateCompletion: Option<Completion>,
    acceptance: Option<Acceptance>,
    reviews: seq<Review>,
    promotion: Option<string>,
    terminal: Option<string>,
    pendingApprovalWork: seq<ApprovalWork>,
    pendingActionIds: seq<string>,
    unknownActionIds: seq<string>,
    failedActionIds: seq<string>)

  datatype Snapshot = Snapshot(
    requests: seq<Request>,
    receipts: seq<Receipt>,
    receiptSet: Option<string>,
    candidates: seq<Candidate>,
    activityClaims: seq<Claim>,
    candidateCompletion: Option<Completion>)

  datatype Resolution = Resolution(
    dispatch: Dispatch,
    phase: Phase,
    promotionApproval: Option<NativeApproval>,
    pendingWork: seq<Work>,
    pendingApprovalWork: seq<ApprovalWork>,
    timers: seq<string>,
    cancellation: Option<string>,
    pendingActionIds: seq<string>,
    unknownActionIds: seq<string>,
    failedActionIds: seq<string>,
    recovery: Snapshot)

  /**
   * Digests and the checks made outside this file: timers and cancellation, receipt sets, the completion's own lineage.
   */
  datatype Kernel = Kernel(
    host: Host,
    completionDigest: Completion -> string,
    lifecycleHolds: (seq<string>, Option<string>, Dispatch) -> bool,
    receiptSetHolds: (string, Dispatch) -> bool,
    completionBinds: (Snapshot, Dispatch, Completion) -> bool)

  // ------------------------------------------------- candidates and completion

  predicate CandidateBound(d: Dispatch, c: NativeCandidate) {
    c.envelopeDigest == d.envelopeDigest && c.baseCommitSha == d.baseCommitSha && c.legacyReceiptDigest.None?
  }

  function ReadCandidates(d: Dispatch, entries: seq<NativeCandidate>): Option<seq<Candidate>> {
    if entries == [] then Some([])
    else
      var before :- ReadCandidates(d, entries[..|entries| - 1]);
      var c := entries[|entries| - 1];
      if !CandidateBound(d, c) then None
      else Some(before + [Candidate(c.eventId, c.candidateRef, c.candidateDigest, d.baseCommitSha, c.candidateCommitSha,
                                    c.treeDigest, d.envelopeDigest)])
  }

  function Keep(holds: Candidate -> bool, candidates: seq<Candidate>): seq<Candidate> {
    if candidates == [] then []
    else
      var n := |candidates| - 1;
      var rest := Keep(holds, candidates[..n]);
      if holds(candidates[n]) then rest + [candidates[n]] else rest
  }

  function CreatedBy(ref: string): Candidate -> bool { (c: Candidate) => c.createdRef == ref }

  /** parseNativeCandidateCompletion: the completion is this dispatch's and names exactly one candidate. */
  predicate CompletionHolds(k: Kernel, d: Dispatch, candidates: seq<Candidate>, c: Completion) {
    var matching := Keep(CreatedBy(c.candidateCreatedEventRef), candidates);
    && k.completionDigest(c) == c.completionDigest
    && c.runId == d.runId && c.workflowId == d.workflowId && c.unitId == d.unitId && c.attempt == d.attempt
    && c.provenanceRef == d.provenanceRef
    && |matching| == 1 && matching[0].candidateDigest == c.candidateDigest
  }

  // -------------------------------------------------------- promotion approval

  predicate ApprovalHolds(d: Dispatch, schema: int, a: NativeApproval) {
    && (schema == 1 ==> a.eventDigest.None?)
    && a.envelopeDigest == d.envelopeDigest && a.baseCommitSha == d.baseCommitSha
    && a.reviewRefs != [] && Distinct(a.reviewRefs)
  }

  function BoundTo(a: NativeApproval): Candidate -> bool {
    (c: Candidate) =>
      && c.candidateDigest == a.candidateDigest
      && c.baseCommitSha == a.baseCommitSha && c.envelopeDigest == a.envelopeDigest
  }

  predicate AcceptanceHolds(d: Dispatch, a: NativeApproval, c: Candidate, x: Acceptance) {
    && x.candidateDigest == c.candidateDigest && x.candidateCommitSha == c.candidateCommitSha
    && x.acceptanceRef == a.acceptanceRef && x.acceptanceContractDigest == d.acceptanceContractDigest && x.passed
  }

  predicate ReviewReads(c: Candidate, r: Review) {
    r.detail.Some? ==>
      var v := r.detail.value.view;
      && !r.detail.value.role.OtherRole?
      && v.candidateRef == c.candidateRef && v.candidateDigest == c.candidateDigest
      && v.candidateCommitSha == c.candidateCommitSha && v.treeDigest == c.treeDigest && v.readOnly && v.networkDisabled
  }

  ghost function ReviewRefs(reviews: seq<Review>): set<string> { set r | r in reviews :: r.reviewRef }

  /** Every review reads, and no reference repeats. */
  ghost predicate ReviewsRead(c: Candidate, reviews: seq<Review>) {
    reviews != [] ==>
      var n := |reviews| - 1;
      ReviewsRead(c, reviews[..n]) && reviews[n].reviewRef !in ReviewRefs(reviews[..n]) && ReviewReads(c, reviews[n])
  }

  function ReviewBy(reviews: seq<Review>, ref: string): Option<Review> {
    if reviews == [] then None
    else if reviews[|reviews| - 1].reviewRef == ref then Some(reviews[|reviews| - 1])
    else ReviewBy(reviews[..|reviews| - 1], ref)
  }

  /** An approving version-2 review that binds this candidate, envelope and acceptance. */
  predicate Approves(d: Dispatch, a: NativeApproval, c: Candidate, x: Acceptance, r: Review) {
    && r.detail.Some? && r.decision.Approve?
    && r.candidateDigest == c.candidateDigest && r.candidateCommitSha == c.candidateCommitSha
    && r.detail.value.candidateEnvelopeDigest == a.envelopeDigest
    && r.detail.value.acceptanceRef == x.acceptanceRef && r.detail.value.acceptanceDigest == x.acceptanceDigest
    && r.detail.value.acceptanceContractDigest == d.acceptanceContractDigest
  }

  predicate RefApproved(
      d: Dispatch, a: NativeApproval, c: Candidate, x: Acceptance, reviews: seq<Review>, ref: string)
  {
    var r := ReviewBy(reviews, ref);
    r.Some? && Approves(d, a, c, x, r.value)
  }

  /** validatePendingPromotionApprovalRecoveryProjection. */
  ghost predicate PendingApprovalHolds(d: Dispatch, a: NativeApproval, candidates: seq<Candidate>, n: NativeRecovery) {
    var matching := Keep(BoundTo(a), candidates);
    && n.promotion.None? && n.terminal.None? && |matching| == 1
    && var c := matching[0];
       && n.candidateCompletion.Some?
       && n.candidateCompletion.value.candidateCreatedEventRef == c.createdRef
       && n.candidateCompletion.value.candidateDigest == c.candidateDigest
       && n.acceptance.Some? && AcceptanceHolds(d, a, c, n.acceptance.value)
       && ReviewsRead(c, n.reviews)
       && forall ref :: ref in a.reviewRefs ==> RefApproved(d, a, c, n.acceptance.value, n.reviews, ref)
  }

  predicate WorkOfDispatch(d: Dispatch, w: ApprovalWork) {
    && w.schemaVersion == 1 && w.reviewRefs != [] && Distinct(w.reviewRefs)
    && w.runId == d.runId && w.workflowId == d.workflowId && w.workflowRevision == d.workflowRevision
    && w.unitId == d.unitId && w.attempt == d.attempt && w.dispatchEventRef == d.dispatchEnvelopeRef
    && w.dispatchEnvelopeDigest == d.envelopeDigest
  }

  ghost function RequestRefs(work: seq<ApprovalWork>): set<string> { set w | w in work :: w.requestEventRef }

  ghost predicate ApprovalWorkRead(d: Dispatch, work: seq<ApprovalWork>) {
    work != [] ==>
      var n := |work| - 1;
      && ApprovalWorkRead(d, work[..n]) && WorkOfDispatch(d, work[n])
      && work[n].requestEventRef !in RequestRefs(work[..n])
  }

  predicate WorkOfApproval(a: NativeApproval, w: ApprovalWork) {
    && a.eventDigest == Some(w.requestEventDigest) && w.requestEventRef == a.eventId
    && w.candidateDigest == a.candidateDigest && w.baseCommitSha == a.baseCommitSha && w.targetRef == a.targetRef
    && w.dispatchEnvelopeDigest == a.envelopeDigest && w.acceptanceRef == a.acceptanceRef
    && w.requestedBy == a.requestedBy && w.requestedAt == a.requestedAt && w.idempotencyKey == a.idempotencyKey
    && w.reviewRefs == a.reviewRefs
  }

  /** parseNativePendingPromotionApprovalRecoveryWork, for a schema 2 projection. */
  ghost predicate ApprovalWorkHolds(
      d: Dispatch, phase: Phase, approval: Option<NativeApproval>, work: seq<ApprovalWork>)
  {
    && ApprovalWorkRead(d, work)
    && if !phase.PromotionApprovalPending? then work == []
       else approval.Some?
            && if approval.value.eventDigest.None? then work == []
               else |work| == 1 && WorkOfApproval(approval.value, work[0])
  }

  // ------------------------------------------------------------ the projection

  predicate NothingLater(n: NativeRecovery) {
    n.acceptance.None? && n.reviews == [] && n.promotion.None? && n.terminal.None?
  }

  /** The phase decides which of the later fields may be present at all. */
  ghost predicate LaterStateHolds(d: Dispatch, schema: int, candidates: seq<Candidate>, n: NativeRecovery) {
    && (n.cancellation.Some? <==> n.phase.CancellationRequested?)
    && (n.promotionApproval.Some? <==> n.phase.PromotionApprovalPending?)
    && (if n.promotionApproval.Some?
        then ApprovalHolds(d, schema, n.promotionApproval.value)
             && PendingApprovalHolds(d, n.promotionApproval.value, candidates, n)
        else NothingLater(n))
    && (if schema == 1 then n.pendingApprovalWork == []
        else ApprovalWorkHolds(d, n.phase, n.promotionApproval, n.pendingApprovalWork))
  }

  ghost function SnapshotOf(k: Kernel, d: Dispatch, n: NativeRecovery): Option<Snapshot> {
    var requests :- ReadRequests(k.host, d, n.requests);
    var receipts :- ReadReceipts(k.host, d, requests, n.receipts);
    var candidates :- ReadCandidates(d, n.candidates);
    var claims :- ReadClaims(k.host, d, requests, n.activityClaims);
    if || !WorkAccepted(d, requests, claims, n.pendingWork)
       || (n.receiptSet.Some? && !k.receiptSetHolds(n.receiptSet.value, d))
    then None
    else Some(Snapshot(requests, receipts, n.receiptSet, candidates, claims, n.candidateCompletion))
  }

  /** parseNativeRecovery, with the dispatch it was parsed under. */
  ghost function ReadRecovery(k: Kernel, d: Dispatch, schema: int, n: NativeRecovery): Option<Resolution> {
    var s :- SnapshotOf(k, d, n);
    if && k.lifecycleHolds(n.timers, n.cancellation, d)
       && LaterStateHolds(d, schema, s.candidates, n)
       && (n.candidateCompletion.Some? ==>
             CompletionHolds(k, d, s.candidates, n.candidateCompletion.value)
             && k.completionBinds(s, d, n.candidateCompletion.value))
       && Distinct(n.pendingActionIds) && Distinct(n.unknownActionIds) && Distinct(n.failedActionIds)
    then Some(Resolution(d, n.phase, n.promotionApproval, n.pendingWork, n.pendingApprovalWork, n.timers,
                         n.cancellation, n.pendingActionIds, n.unknownActionIds, n.failedActionIds, s))
    else None
  }

  // -------------------------------------------------- the source's checking loops

  lemma {:induction false} ReviewsFail(c: Candidate, reviews: seq<Review>, i: nat)
    requires i <= |reviews| && !ReviewsRead(c, reviews[..i])
    ensures !ReviewsRead(c, reviews)
  {
    if i < |reviews| {
      assert reviews[..|reviews| - 1][..i] == reviews[..i];
      ReviewsFail(c, reviews[..|reviews| - 1], i);
    } else {
      assert reviews[..i] == reviews;
    }
  }

  lemma {:induction false} ReviewsStep(c: Candidate, reviews: seq<Review>, i: nat)
    requires i < |reviews| && ReviewsRead(c, reviews[..i])
    ensures ReviewsRead(c, reviews[..i + 1]) <==>
            reviews[i].reviewRef !in ReviewRefs(reviews[..i]) && ReviewReads(c, reviews[i])
    ensures ReviewRefs(reviews[..i + 1]) == ReviewRefs(reviews[..i]) + {reviews[i].reviewRef}
  {
    assert reviews[..i + 1][..i] == reviews[..i];
    assert reviews[..i + 1] == reviews[..i] + [reviews[i]];
  }

  /** parsePendingPromotionApprovalReviews. */
  method ParseReviews(c: Candidate, reviews: seq<Review>) returns (ok: bool)
    ensures ok <==> ReviewsRead(c, reviews)
  {
    var seen: set<string> := {};
    for i := 0 to |reviews|
      invariant ReviewsRead(c, reviews[..i]) && seen == ReviewRefs(reviews[..i])
    {
      ReviewsStep(c, reviews, i);
      if reviews[i].reviewRef in seen || !ReviewReads(c, reviews[i]) {
        ReviewsFail(c, reviews, i + 1);
        return false;
      }
      seen := seen + {reviews[i].reviewRef};
    }
    assert reviews[..|reviews|] == reviews;
    return true;
  }

  method CheckReviewRefs(
      d: Dispatch, a: NativeApproval, c: Candidate, x: Acceptance, reviews: seq<Review>)
    returns (ok: bool)
    ensures ok <==> forall ref :: ref in a.reviewRefs ==> RefApproved(d, a, c, x, reviews, ref)
  {
    for i := 0 to |a.reviewRefs|
      invariant forall j :: 0 <= j < i ==> RefApproved(d, a, c, x, reviews, a.reviewRefs[j])
    {
      if !RefApproved(d, a, c, x, reviews, a.reviewRefs[i]) {
        assert a.reviewRefs[i] in a.reviewRefs;
        return false;
      }
    }
    return true;
  }

  method ValidatePendingPromotionApproval(d: Dispatch, a: NativeApproval, candidates: seq<Candidate>, n: NativeRecovery)
    returns (ok: bool)
    ensures ok <==> PendingApprovalHolds(d, a, candidates, n)
  {
    var matching := Keep(BoundTo(a), candidates);
    if n.promotion.Some? || n.terminal.Some? || |matching| != 1 {
      return false;
    }
    var c := matching[0];
    if n.candidateCompletion.None? || n.candidateCompletion.value.candidateCreatedEventRef != c.createdRef
       || n.candidateCompletion.value.candidateDigest != c.candidateDigest
       || n.acceptance.None? || !AcceptanceHolds(d, a, c, n.acceptance.value) {
      return false;
    }
    var readable := ParseReviews(c, n.reviews);
    if !readable {
      return false;
    }
    ok := CheckReviewRefs(d, a, c, n.acceptance.value, n.reviews);
  }

  lemma {:induction false} ApprovalWorkFails(d: Dispatch, work: seq<ApprovalWork>, i: nat)
    requires i <= |work| && !ApprovalWorkRead(d, work[..i])
    ensures !ApprovalWorkRead(d, work)
  {
    if i < |work| {
      assert work[..|work| - 1][..i] == work[..i];
      ApprovalWorkFails(d, work[..|work| - 1], i);
    } else {
      assert work[..i] == work;
    }
  }

  lemma {:induction false} ApprovalWorkStep(d: Dispatch, work: seq<ApprovalWork>, i: nat)
    requires i < |work| && ApprovalWorkRead(d, work[..i])
    ensures ApprovalWorkRead(d, work[..i + 1]) <==>
            WorkOfDispatch(d, work[i]) && work[i].requestEventRef !in RequestRefs(work[..i])
    ensures RequestRefs(work[..i + 1]) == RequestRefs(work[..i]) + {work[i].requestEventRef}
  {
    assert work[..i + 1][..i] == work[..i];
    assert work[..i + 1] == work[..i] + [work[i]];
  }

  /** parseNativePendingPromotionApprovalRecoveryWork. */
  method ParseApprovalWork(d: Dispatch, phase: Phase, approval: Option<NativeApproval>, work: seq<ApprovalWork>)
    returns (ok: bool)
    ensures ok <==> ApprovalWorkHolds(d, phase, approval, work)
  {
    var seen: set<string> := {};
    for i := 0 to |work|
      invariant ApprovalWorkRead(d, work[..i]) && seen == RequestRefs(work[..i])
    {
      ApprovalWorkStep(d, work, i);
      if !WorkOfDispatch(d, work[i]) || work[i].requestEventRef in seen {
        ApprovalWorkFails(d, work, i + 1);
        return false;
      }
      seen := seen + {work[i].requestEventRef};
    }
    assert work[..|work|] == work;
    if !phase.PromotionApprovalPending? {
      return |work| == 0;
    }
    if approval.None? {
      return false;
    }
    if approval.value.eventDigest.None? {
      return |work| == 0;
    }
    return |work| == 1 && WorkOfApproval(approval.value, work[0]);
  }

  method CheckLaterState(d: Dispatch, schema: int, candidates: seq<Candidate>, n: NativeRecovery) returns (ok: bool)
    ensures ok <==> LaterStateHolds(d, schema, candidates, n)
  {
    if || (n.cancellation.Some? && !n.phase.CancellationRequested?)
       || (n.cancellation.None? && n.phase.CancellationRequested?)
       || (n.promotionApproval.Some? && !n.phase.PromotionApprovalPending?)
       || (n.promotionApproval.None? && n.phase.PromotionApprovalPending?) {
      return false;
    }
    if n.promotionApproval.Some? {
      if !ApprovalHolds(d, schema, n.promotionApproval.value) {
        return false;
      }
      var pending := ValidatePendingPromotionApproval(d, n.promotionApproval.value, candidates, n);
      if !pending {
        return false;
      }
    } else if !NothingLater(n) {
      return false;
    }
    if schema == 1 {
      return |n.pendingApprovalWork| == 0;
    }
    ok := ParseApprovalWork(d, n.phase, n.promotionApproval, n.pendingApprovalWork);
  }

  method ReadSnapshot(k: Kernel, d: Dispatch, n: NativeRecovery) returns (r: Option<Snapshot>)
    ensures r == SnapshotOf(k, d, n)
  {
    var requests :- ParseNativeRequests(k.host, d, n.requests);
    var receipts :- ParseNativeReceipts(k.host, d, requests, n.receipts);
    var candidates := ReadCandidates(d, n.candidates);
    if candidates.None? {
      return None;
    }
    var claims :- ParseNativeActivityClaims(k.host, d, requests, n.activityClaims);
    var work := ParseNativePendingActivityRecoveryWork(d, requests, claims, n.pendingWork);
    if !work || (n.receiptSet.Some? && !k.receiptSetHolds(n.receiptSet.value, d)) {
      return None;
    }
    return Some(Snapshot(requests, receipts, n.receiptSet, candidates.value, claims, n.candidateCompletion));
  }

  /** parseNativeRecovery. */
  method ParseNativeRecovery(k: Kernel, d: Dispatch, schema: int, n: NativeRecovery) returns (r: Option<Resolution>)
    ensures r == ReadRecovery(k, d, schema, n)
  {
    var s :- ReadSnapshot(k, d, n);
    var later := CheckLaterState(d, schema, s.candidates, n);
    if !k.lifecycleHolds(n.timers, n.cancellation, d) || !later {
      return None;
    }
    if n.candidateCompletion.Some?
       && (!CompletionHolds(k, d, s.candidates, n.candidateCompletion.value)
           || !k.completionBinds(s, d, n.candidateCompletion.value)) {
      return None;
    }
    if !Distinct(n.pendingActionIds) || !Distinct(n.unknownActionIds) || !Distinct(n.failedActionIds) {
      return None;
    }
    return Some(Resolution(d, n.phase, n.promotionApproval, n.pendingWork, n.pendingApprovalWork, n.timers,
                           n.cancellation,
                           n.pendingActionIds, n.unknownActionIds, n.failedActionIds, s));
  }
}
