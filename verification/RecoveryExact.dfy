/**
 * Exactly which native recoveries are accepted, and what the resolution says, stated on the native records
 * (apps/cli/src/ledger-governed-dispatch-resolver.ts).
 */
module RecoveryExact {
  import opened Seqs
  import opened Recovery
  import opened RecoveryLinks
  import opened RecoveryProjection
  import opened RecoveryRecords
  import opened RecoveryClaims

  // ---------------------------------------------------------- the one candidate

  /** Candidate `i` is the only one for which `holds`. */
  ghost predicate OnlyAt(holds: Candidate -> bool, candidates: seq<Candidate>, i: nat) {
    i < |candidates| && forall j :: 0 <= j < |candidates| ==> (holds(candidates[j]) <==> j == i)
  }

  lemma {:induction false} KeepNone(holds: Candidate -> bool, candidates: seq<Candidate>)
    ensures Keep(holds, candidates) == [] <==> forall j :: 0 <= j < |candidates| ==> !holds(candidates[j])
  {
    if candidates != [] {
      var n := |candidates| - 1;
      KeepNone(holds, candidates[..n]);
      assert forall j :: 0 <= j < n ==> candidates[..n][j] == candidates[j];
    }
  }

  lemma {:induction false} KeepOnly(holds: Candidate -> bool, candidates: seq<Candidate>, i: nat)
    requires OnlyAt(holds, candidates, i)
    ensures Keep(holds, candidates) == [candidates[i]]
  {
    var n := |candidates| - 1;
    assert forall j :: 0 <= j < n ==> candidates[..n][j] == candidates[j];
    if i == n {
      KeepNone(holds, candidates[..n]);
    } else {
      KeepOnly(holds, candidates[..n], i);
    }
  }

  lemma {:induction false} KeptOnly(holds: Candidate -> bool, candidates: seq<Candidate>) returns (i: nat)
    requires |Keep(holds, candidates)| == 1
    ensures OnlyAt(holds, candidates, i) && Keep(holds, candidates) == [candidates[i]]
  {
    var n := |candidates| - 1;
    assert forall j :: 0 <= j < n ==> candidates[..n][j] == candidates[j];
    if holds(candidates[n]) {
      i := n;
      KeepNone(holds, candidates[..n]);
    } else {
      i := KeptOnly(holds, candidates[..n]);
    }
  }

  // ----------------------------------------------------------------- completion

  /** The completion is this dispatch's, and the one candidate its event created has its digest. */
  ghost predicate CompletionTaken(k: Kernel, d: Dispatch, candidates: seq<Candidate>, c: Completion, i: nat) {
    && c.completionDigest == k.completionDigest(c) && c.runId == d.runId && c.workflowId == d.workflowId
    && c.unitId == d.unitId && c.attempt == d.attempt && c.provenanceRef == d.provenanceRef
    && i < |candidates| && candidates[i].candidateDigest == c.candidateDigest
    && forall j :: 0 <= j < |candidates| ==> (candidates[j].createdRef == c.candidateCreatedEventRef <==> j == i)
  }

  lemma {:induction false} CompletionExactly(k: Kernel, d: Dispatch, candidates: seq<Candidate>, c: Completion)
    ensures CompletionHolds(k, d, candidates, c) <==> exists i :: CompletionTaken(k, d, candidates, c, i)
  {
    if CompletionHolds(k, d, candidates, c) {
      var i := KeptOnly(CreatedBy(c.candidateCreatedEventRef), candidates);
      assert forall j :: 0 <= j < |candidates| ==>
          (CreatedBy(c.candidateCreatedEventRef)(candidates[j]) <==> j == i);
      assert CompletionTaken(k, d, candidates, c, i);
    }
    if i: nat :| CompletionTaken(k, d, candidates, c, i) {
      KeepOnly(CreatedBy(c.candidateCreatedEventRef), candidates, i);
    }
  }

  // -------------------------------------------------------------- the approval

  /** The approval is of this dispatch's envelope and base commit and names reviews, none twice. */
  ghost predicate ApprovalNamed(d: Dispatch, schema: int, a: NativeApproval) {
    && a.envelopeDigest == d.envelopeDigest && a.baseCommitSha == d.baseCommitSha
    && a.reviewRefs != [] && Distinct(a.reviewRefs) && (a.eventDigest.Some? ==> schema != 1)
  }

  /** Candidate `i` is the only one with the approval's digest, base commit and envelope. */
  ghost predicate ApprovedAt(a: NativeApproval, candidates: seq<Candidate>, i: nat) {
    && i < |candidates|
    && forall j :: 0 <= j < |candidates| ==>
         ((candidates[j].candidateDigest == a.candidateDigest && candidates[j].baseCommitSha == a.baseCommitSha
           && candidates[j].envelopeDigest == a.envelopeDigest) <==> j == i)
  }

  /** A passed acceptance of the candidate under the dispatch's contract, the one the approval names. */
  ghost predicate AcceptancePassed(d: Dispatch, a: NativeApproval, c: Candidate, x: Acceptance) {
    && x.passed && x.acceptanceRef == a.acceptanceRef && x.acceptanceContractDigest == d.acceptanceContractDigest
    && x.candidateDigest == c.candidateDigest && x.candidateCommitSha == c.candidateCommitSha
  }

  /** A detailed review was made by a reviewer, adversary or judge on a read-only, offline view of the candidate. */
  ghost predicate ReviewedOffline(c: Candidate, detail: ReviewDetail) {
    && (detail.role.Reviewer? || detail.role.Adversary? || detail.role.Judge?)
    && detail.view == View(c.candidateRef, c.candidateDigest, c.candidateCommitSha, c.treeDigest, true, true)
  }

  ghost predicate ReviewsTaken(c: Candidate, reviews: seq<Review>) {
    && (forall r :: r in reviews && r.detail.Some? ==> ReviewedOffline(c, r.detail.value))
    && (forall i, j :: 0 <= i < j < |reviews| ==> reviews[i].reviewRef != reviews[j].reviewRef)
  }

  /** An approving review of this candidate, envelope and acceptance. */
  ghost predicate ApprovingReview(d: Dispatch, c: Candidate, x: Acceptance, r: Review) {
    && r.decision.Approve? && r.candidateDigest == c.candidateDigest && r.candidateCommitSha == c.candidateCommitSha
    && r.detail.Some?
    && r.detail.value.candidateEnvelopeDigest == d.envelopeDigest
    && r.detail.value.acceptanceRef == x.acceptanceRef && r.detail.value.acceptanceDigest == x.acceptanceDigest
    && r.detail.value.acceptanceContractDigest == d.acceptanceContractDigest
  }

  ghost predicate ReviewApproves(
      d: Dispatch, c: Candidate, x: Acceptance, reviews: seq<Review>, ref: string)
  {
    exists r :: r in reviews && r.reviewRef == ref && ApprovingReview(d, c, x, r)
  }

  /** The work item is the approval's own request, for this dispatch. */
  ghost predicate ApprovalWorkTaken(d: Dispatch, a: NativeApproval, w: ApprovalWork) {
    && w.schemaVersion == 1 && w.runId == d.runId && w.workflowId == d.workflowId
    && w.workflowRevision == d.workflowRevision && w.unitId == d.unitId && w.attempt == d.attempt
    && w.dispatchEventRef == d.dispatchEnvelopeRef && w.dispatchEnvelopeDigest == d.envelopeDigest
    && w.candidateDigest == a.candidateDigest && w.baseCommitSha == a.baseCommitSha && w.targetRef == a.targetRef
    && w.requestEventRef == a.eventId && Some(w.requestEventDigest) == a.eventDigest
    && w.acceptanceRef == a.acceptanceRef && w.reviewRefs == a.reviewRefs && w.requestedBy == a.requestedBy
    && w.requestedAt == a.requestedAt && w.idempotencyKey == a.idempotencyKey
  }

  /** An approval whose event has a digest brings one work item, its own; any other brings none. */
  ghost predicate PendingWorkIs(d: Dispatch, a: NativeApproval, n: NativeRecovery) {
    if a.eventDigest.None? then n.pendingApprovalWork == []
    else |n.pendingApprovalWork| == 1 && ApprovalWorkTaken(d, a, n.pendingApprovalWork[0])
  }

  ghost predicate Approved(
      d: Dispatch, schema: int, a: NativeApproval, candidates: seq<Candidate>, n: NativeRecovery, i: nat)
  {
    && ApprovalNamed(d, schema, a) && ApprovedAt(a, candidates, i) && n.promotion.None? && n.terminal.None?
    && n.candidateCompletion.Some?
    && n.candidateCompletion.value.candidateCreatedEventRef == candidates[i].createdRef
    && n.candidateCompletion.value.candidateDigest == candidates[i].candidateDigest
    && n.acceptance.Some? && AcceptancePassed(d, a, candidates[i], n.acceptance.value)
    && ReviewsTaken(candidates[i], n.reviews)
    && (forall ref :: ref in a.reviewRefs ==> ReviewApproves(d, candidates[i], n.acceptance.value, n.reviews, ref))
    && PendingWorkIs(d, a, n)
  }

  /** A waiting approval brings everything it rests on; without one there is no later state at all. */
  ghost predicate LaterTaken(d: Dispatch, schema: int, candidates: seq<Candidate>, n: NativeRecovery) {
    && (n.phase.CancellationRequested? <==> n.cancellation.Some?)
    && (n.phase.PromotionApprovalPending? <==> n.promotionApproval.Some?)
    && if n.promotionApproval.Some? then exists i :: Approved(d, schema, n.promotionApproval.value, candidates, n, i)
       else && n.acceptance.None? && n.reviews == [] && n.promotion.None? && n.terminal.None?
            && n.pendingApprovalWork == []
  }

  lemma {:induction false} ReviewsExactly(c: Candidate, reviews: seq<Review>)
    ensures ReviewsRead(c, reviews) <==> ReviewsTaken(c, reviews)
  {
    if reviews != [] {
      var n := |reviews| - 1;
      ReviewsExactly(c, reviews[..n]);
      ReviewExactly(c, reviews[n]);
      ReviewsSplit(c, reviews);
    }
  }

  lemma {:induction false} ReviewExactly(c: Candidate, r: Review)
    ensures ReviewReads(c, r) <==> (r.detail.Some? ==> ReviewedOffline(c, r.detail.value))
  {
    if r.detail.Some? {
      var v := r.detail.value.view;
      assert v == View(v.candidateRef, v.candidateDigest, v.candidateCommitSha, v.treeDigest, v.readOnly,
                       v.networkDisabled);
    }
  }

  lemma {:induction false} ReviewsSplit(c: Candidate, reviews: seq<Review>)
    requires reviews != []
    ensures var n := |reviews| - 1;
            ReviewsTaken(c, reviews) <==>
            && ReviewsTaken(c, reviews[..n]) && reviews[n].reviewRef !in ReviewRefs(reviews[..n])
            && (reviews[n].detail.Some? ==> ReviewedOffline(c, reviews[n].detail.value))
  {
    var n := |reviews| - 1;
    assert reviews == reviews[..n] + [reviews[n]];
    assert forall i :: 0 <= i < n ==> reviews[..n][i] == reviews[i] && reviews[i] in reviews[..n];
    forall r | r in reviews[..n] ensures exists i :: 0 <= i < n && reviews[i] == r {
      var i :| 0 <= i < n && reviews[..n][i] == r;
      assert reviews[i] == r;
    }
  }

  lemma {:induction false} ReviewByIs(reviews: seq<Review>, r: Review)
    requires r in reviews && forall i, j :: 0 <= i < j < |reviews| ==> reviews[i].reviewRef != reviews[j].reviewRef
    ensures ReviewBy(reviews, r.reviewRef) == Some(r)
  {
    var n := |reviews| - 1;
    var i :| 0 <= i < |reviews| && reviews[i] == r;
    if i < n {
      assert forall a :: 0 <= a < n ==> reviews[..n][a] == reviews[a];
      assert reviews[i].reviewRef != reviews[n].reviewRef;
      ReviewByIs(reviews[..n], r);
    }
  }

  lemma {:induction false} ReviewByFound(reviews: seq<Review>, ref: string)
    requires ReviewBy(reviews, ref).Some?
    ensures ReviewBy(reviews, ref).value in reviews && ReviewBy(reviews, ref).value.reviewRef == ref
  {
    var n := |reviews| - 1;
    if reviews[n].reviewRef != ref { ReviewByFound(reviews[..n], ref); }
  }

  lemma {:induction false} RefApprovedExactly(
      d: Dispatch, a: NativeApproval, c: Candidate, x: Acceptance, reviews: seq<Review>, ref: string)
    requires a.envelopeDigest == d.envelopeDigest && ReviewsTaken(c, reviews)
    ensures RefApproved(d, a, c, x, reviews, ref) <==> ReviewApproves(d, c, x, reviews, ref)
  {
    if RefApproved(d, a, c, x, reviews, ref) { ReviewByFound(reviews, ref); }
    if r :| r in reviews && r.reviewRef == ref && ApprovingReview(d, c, x, r) { ReviewByIs(reviews, r); }
  }

  lemma {:induction false} ApprovedAtExactly(a: NativeApproval, candidates: seq<Candidate>, i: nat)
    ensures ApprovedAt(a, candidates, i) <==> OnlyAt(BoundTo(a), candidates, i)
  {
  }

  lemma {:induction false} PendingExactly(
      d: Dispatch, schema: int, a: NativeApproval, candidates: seq<Candidate>, n: NativeRecovery)
    requires ApprovalNamed(d, schema, a)
    ensures PendingApprovalHolds(d, a, candidates, n) && PendingWorkIs(d, a, n) <==>
            exists i :: Approved(d, schema, a, candidates, n, i)
  {
    if PendingApprovalHolds(d, a, candidates, n) && PendingWorkIs(d, a, n) {
      var i := KeptOnly(BoundTo(a), candidates);
      ApprovedAtExactly(a, candidates, i);
      ReviewsExactly(candidates[i], n.reviews);
      forall ref | ref in a.reviewRefs
        ensures ReviewApproves(d, candidates[i], n.acceptance.value, n.reviews, ref)
      {
        RefApprovedExactly(d, a, candidates[i], n.acceptance.value, n.reviews, ref);
      }
      assert Approved(d, schema, a, candidates, n, i);
    }
    if i: nat :| Approved(d, schema, a, candidates, n, i) {
      ApprovedAtExactly(a, candidates, i);
      KeepOnly(BoundTo(a), candidates, i);
      ReviewsExactly(candidates[i], n.reviews);
      forall ref | ref in a.reviewRefs ensures RefApproved(d, a, candidates[i], n.acceptance.value, n.reviews, ref) {
        RefApprovedExactly(d, a, candidates[i], n.acceptance.value, n.reviews, ref);
      }
    }
  }

  lemma {:induction false} ApprovalNamedExactly(d: Dispatch, schema: int, a: NativeApproval)
    ensures ApprovalHolds(d, schema, a) <==> ApprovalNamed(d, schema, a)
  {
  }

  lemma {:induction false} ApprovalWorkExactly(d: Dispatch, schema: int, a: NativeApproval, n: NativeRecovery)
    requires ApprovalNamed(d, schema, a) && n.phase.PromotionApprovalPending?
    ensures PendingWorkIs(d, a, n) <==>
            if schema == 1 then n.pendingApprovalWork == []
            else ApprovalWorkHolds(d, n.phase, Some(a), n.pendingApprovalWork)
  {
    var work := n.pendingApprovalWork;
    if |work| == 1 {
      assert work[..0] == [] && ApprovalWorkRead(d, work[..0]);
    }
  }

  lemma {:induction false} LaterExactly(d: Dispatch, schema: int, candidates: seq<Candidate>, n: NativeRecovery)
    ensures LaterStateHolds(d, schema, candidates, n) <==> LaterTaken(d, schema, candidates, n)
  {
    if n.promotionApproval.Some? && n.phase.PromotionApprovalPending? {
      var a := n.promotionApproval.value;
      ApprovalNamedExactly(d, schema, a);
      if ApprovalNamed(d, schema, a) {
        PendingExactly(d, schema, a, candidates, n);
        ApprovalWorkExactly(d, schema, a, n);
      }
    }
  }

  // ------------------------------------------------------------ the projection

  /** The snapshot's lists are what the native records say. */
  ghost predicate RecordsTaken(k: Kernel, d: Dispatch, n: NativeRecovery, s: Snapshot) {
    && RequestsTaken(k.host, d, n.requests, s.requests)
    && ReceiptsTaken(k.host, d, s.requests, n.receipts, s.receipts)
    && CandidatesTaken(d, n.candidates, s.candidates)
    && EffectDeadline(k.host, d).Some?
    && ClaimsTaken(k.host, d, s.requests, EffectDeadline(k.host, d).value, n.activityClaims, s.activityClaims)
    && WorkApart(n.pendingWork)
    && (forall w :: w in n.pendingWork ==> WorkTaken(d, s.requests, s.activityClaims, w))
    && s.receiptSet == n.receiptSet && (n.receiptSet.Some? ==> k.receiptSetHolds(n.receiptSet.value, d))
    && s.candidateCompletion == n.candidateCompletion
  }

  lemma {:induction false} ClaimsTakenDistinct(
      h: Host, d: Dispatch, requests: seq<Request>, deadline: int, entries: seq<NativeClaim>, claims: seq<Claim>)
    requires ClaimsTaken(h, d, requests, deadline, entries, claims)
    ensures ClaimsDistinct(claims)
  {
    forall i, j | 0 <= i < j < |claims|
      ensures claims[i].activityId != claims[j].activityId && claims[i].claimEventRef != claims[j].claimEventRef
    {
      assert ClaimHolds(h, d, requests, deadline, entries[i], claims[i]);
      assert ClaimHolds(h, d, requests, deadline, entries[j], claims[j]);
    }
  }

  lemma {:induction false} SnapshotExactly(k: Kernel, d: Dispatch, n: NativeRecovery, s: Snapshot)
    ensures SnapshotOf(k, d, n) == Some(s) <==> RecordsTaken(k, d, n, s)
  {
    RequestsExactly(k.host, d, n.requests, s.requests);
    ReceiptsExactly(k.host, d, s.requests, n.receipts, s.receipts);
    CandidatesExactly(d, n.candidates, s.candidates);
    ClaimsExactly(k.host, d, s.requests, n.activityClaims, s.activityClaims);
    if ReadClaims(k.host, d, s.requests, n.activityClaims) == Some(s.activityClaims) {
      ClaimsTakenDistinct(k.host, d, s.requests, EffectDeadline(k.host, d).value, n.activityClaims, s.activityClaims);
      PendingWorkExactly(d, s.requests, s.activityClaims, n.pendingWork);
    }
    assert s == Snapshot(s.requests, s.receipts, s.receiptSet, s.candidates, s.activityClaims, s.candidateCompletion);
  }

  /** A completion, if there is one, is taken and bound by the lineage check. */
  ghost predicate CompletionFits(k: Kernel, d: Dispatch, n: NativeRecovery, s: Snapshot) {
    n.candidateCompletion.Some? ==>
      && (exists i :: CompletionTaken(k, d, s.candidates, n.candidateCompletion.value, i))
      && k.completionBinds(s, d, n.candidateCompletion.value)
  }

  ghost predicate RecoveryTaken(k: Kernel, d: Dispatch, schema: int, n: NativeRecovery, r: Resolution) {
    && r.dispatch == d && r.phase == n.phase && r.promotionApproval == n.promotionApproval
    && r.pendingWork == n.pendingWork && r.pendingApprovalWork == n.pendingApprovalWork
    && r.timers == n.timers && r.cancellation == n.cancellation
    && r.pendingActionIds == n.pendingActionIds && r.unknownActionIds == n.unknownActionIds
    && r.failedActionIds == n.failedActionIds
    && Distinct(n.pendingActionIds) && Distinct(n.unknownActionIds) && Distinct(n.failedActionIds)
    && k.lifecycleHolds(n.timers, n.cancellation, d)
    && RecordsTaken(k, d, n, r.recovery) && LaterTaken(d, schema, r.recovery.candidates, n)
    && CompletionFits(k, d, n, r.recovery)
  }

  lemma {:induction false} RecoveryRead(k: Kernel, d: Dispatch, schema: int, n: NativeRecovery, r: Resolution)
    ensures ReadRecovery(k, d, schema, n) == Some(r) <==>
            && SnapshotOf(k, d, n) == Some(r.recovery)
            && k.lifecycleHolds(n.timers, n.cancellation, d)
            && LaterStateHolds(d, schema, r.recovery.candidates, n)
            && (n.candidateCompletion.Some? ==>
                  && CompletionHolds(k, d, r.recovery.candidates, n.candidateCompletion.value)
                  && k.completionBinds(r.recovery, d, n.candidateCompletion.value))
            && Distinct(n.pendingActionIds) && Distinct(n.unknownActionIds) && Distinct(n.failedActionIds)
            && r == Resolution(d, n.phase, n.promotionApproval, n.pendingWork, n.pendingApprovalWork, n.timers,
                               n.cancellation, n.pendingActionIds, n.unknownActionIds, n.failedActionIds, r.recovery)
  {
  }

  /**
   * A native recovery is accepted exactly when its records are, its completion fits, and its phase brings exactly the
   * later state it calls for; the resolution then says of every record what the record says.
   */
  lemma {:induction false} RecoveryExactly(k: Kernel, d: Dispatch, schema: int, n: NativeRecovery, r: Resolution)
    ensures ReadRecovery(k, d, schema, n) == Some(r) <==> RecoveryTaken(k, d, schema, n, r)
  {
    RecoveryRead(k, d, schema, n, r);
    SnapshotExactly(k, d, n, r.recovery);
    LaterExactly(d, schema, r.recovery.candidates, n);
    if n.candidateCompletion.Some? { CompletionExactly(k, d, r.recovery.candidates, n.candidateCompletion.value); }
    assert r == Resolution(r.dispatch, r.phase, r.promotionApproval, r.pendingWork, r.pendingApprovalWork, r.timers,
                           r.cancellation, r.pendingActionIds, r.unknownActionIds, r.failedActionIds, r.recovery);
  }
}
