/**
 * Exactly which native records a recovery accepts, and what each becomes, stated on the records themselves
 * (apps/cli/src/ledger-governed-dispatch-resolver.ts).
 */
module RecoveryRecords {
  import opened Seqs
  import opened Heartbeats
  import opened HeartbeatRecords
  import opened Recovery
  import opened RecoveryLinks
  import opened RecoveryProjection

  // ---------------------------------------------------------------- requests

  /** A recorded request of the dispatch, and the request it becomes; its digest is the one the ledger signed. */
  ghost predicate RequestTaken(h: Host, d: Dispatch, e: NativeRequest, q: Request) {
    && q.ref == e.eventId && q.digest == e.actionRequestDigest == h.requestDigest(q.action)
    && q.action.dispatch == d && q.action.actionId == e.actionId && q.action.idempotencyKey == e.idempotencyKey
    && q.action.actionKind == e.actionKind && q.action.canonicalInputDigest == e.canonicalInputDigest
    && q.action.canonicalInputRef == e.canonicalInputRef && q.action.requestedAt == e.requestedAt
    && e.policyDigest == d.policyDigest && e.repositoryBindingDigest == d.repositoryBindingDigest
    && e.ledgerAuthorityRealmDigest == d.ledgerAuthorityRealmDigest && e.governedPacketDigest == d.governedPacketDigest
    && e.authorityActor == d.authorityActor && e.executionRole == d.executionRole
  }

  ghost predicate RequestsTaken(h: Host, d: Dispatch, entries: seq<NativeRequest>, requests: seq<Request>) {
    && |requests| == |entries|
    && (forall i :: 0 <= i < |entries| ==> RequestTaken(h, d, entries[i], requests[i]))
    && (forall i, j :: 0 <= i < j < |entries| ==> entries[i].actionId != entries[j].actionId)
  }

  lemma {:induction false} RequestRead(h: Host, d: Dispatch, e: NativeRequest, q: Request)
    ensures RequestBound(h, d, e) && q == Request(Recovery.ActionOf(d, e), e.eventId, e.actionRequestDigest) <==>
            RequestTaken(h, d, e, q)
  {
    if RequestTaken(h, d, e, q) {
      assert q.action == ActionRequest(q.action.dispatch, q.action.actionId, q.action.idempotencyKey,
                                       q.action.actionKind, q.action.canonicalInputDigest,
                                       q.action.canonicalInputRef, q.action.requestedAt);
    }
  }

  lemma {:induction false} ActionIdsRead(h: Host, d: Dispatch, entries: seq<NativeRequest>, requests: seq<Request>)
    requires RequestsTaken(h, d, entries, requests)
    ensures forall id :: id in ActionIds(requests) <==> exists i :: 0 <= i < |entries| && entries[i].actionId == id
  {
    forall id | id in ActionIds(requests) ensures exists i :: 0 <= i < |entries| && entries[i].actionId == id {
      var q :| q in requests && q.action.actionId == id;
      var i :| 0 <= i < |requests| && requests[i] == q;
      assert RequestTaken(h, d, entries[i], requests[i]);
    }
    forall i | 0 <= i < |entries| ensures entries[i].actionId in ActionIds(requests) {
      assert RequestTaken(h, d, entries[i], requests[i]) && requests[i] in requests;
    }
  }

  lemma {:induction false} RequestsTakenRead(h: Host, d: Dispatch, entries: seq<NativeRequest>)
    requires ReadRequests(h, d, entries).Some?
    ensures RequestsTaken(h, d, entries, ReadRequests(h, d, entries).value)
  {
    if entries != [] {
      var n := |entries| - 1;
      RequestsTakenRead(h, d, entries[..n]);
      var before, requests := ReadRequests(h, d, entries[..n]).value, ReadRequests(h, d, entries).value;
      ActionIdsRead(h, d, entries[..n], before);
      RequestRead(h, d, entries[n], requests[n]);
      forall i | 0 <= i < n
        ensures RequestTaken(h, d, entries[i], requests[i]) && entries[i].actionId != entries[n].actionId
      {
        assert entries[..n][i] == entries[i] && before[i] == requests[i];
        assert RequestTaken(h, d, entries[..n][i], before[i]) && entries[..n][i].actionId in ActionIds(before);
      }
    }
  }

  lemma {:induction false} RequestsTakenInit(h: Host, d: Dispatch, entries: seq<NativeRequest>, requests: seq<Request>)
    requires RequestsTaken(h, d, entries, requests) && entries != []
    ensures var n := |entries| - 1;
            RequestsTaken(h, d, entries[..n], requests[..n]) && entries[n].actionId !in ActionIds(requests[..n])
  {
    var n := |entries| - 1;
    forall i | 0 <= i < n ensures RequestTaken(h, d, entries[..n][i], requests[..n][i]) {
      assert entries[..n][i] == entries[i] && requests[..n][i] == requests[i];
    }
    ActionIdsRead(h, d, entries[..n], requests[..n]);
  }

  lemma {:induction false} RequestsTakenAccepted(
      h: Host, d: Dispatch, entries: seq<NativeRequest>, requests: seq<Request>)
    requires RequestsTaken(h, d, entries, requests)
    ensures ReadRequests(h, d, entries) == Some(requests)
  {
    if entries == [] {
      assert requests == [];
    } else {
      var n := |entries| - 1;
      RequestsTakenInit(h, d, entries, requests);
      RequestsTakenAccepted(h, d, entries[..n], requests[..n]);
      RequestRead(h, d, entries[n], requests[n]);
      assert requests == requests[..n] + [requests[n]];
    }
  }

  /** Requests are read exactly when each is the dispatch's and no action id repeats; then field by field. */
  lemma {:induction false} RequestsExactly(h: Host, d: Dispatch, entries: seq<NativeRequest>, requests: seq<Request>)
    ensures ReadRequests(h, d, entries) == Some(requests) <==> RequestsTaken(h, d, entries, requests)
  {
    if ReadRequests(h, d, entries).Some? { RequestsTakenRead(h, d, entries); }
    if RequestsTaken(h, d, entries, requests) { RequestsTakenAccepted(h, d, entries, requests); }
  }

  /** Request `j` is the last with this reference: a map built from the list holds it. */
  ghost predicate LastByRef(requests: seq<Request>, ref: string, j: nat) {
    j < |requests| && requests[j].ref == ref && forall m :: j < m < |requests| ==> requests[m].ref != ref
  }

  ghost predicate LastByDigest(requests: seq<Request>, digest: string, j: nat) {
    j < |requests| && requests[j].digest == digest && forall m :: j < m < |requests| ==> requests[m].digest != digest
  }

  lemma {:induction false} ByRefFound(requests: seq<Request>, ref: string) returns (j: nat)
    requires ByRef(requests, ref).Some?
    ensures LastByRef(requests, ref, j) && ByRef(requests, ref) == Some(requests[j])
  {
    var n := |requests| - 1;
    if requests[n].ref == ref {
      j := n;
    } else {
      j := ByRefFound(requests[..n], ref);
      assert forall m :: j < m < n ==> requests[..n][m] == requests[m];
    }
  }

  lemma {:induction false} ByRefIs(requests: seq<Request>, ref: string, j: nat)
    requires LastByRef(requests, ref, j)
    ensures ByRef(requests, ref) == Some(requests[j])
  {
    var n := |requests| - 1;
    if j < n {
      assert forall m :: j <= m < n ==> requests[..n][m] == requests[m];
      ByRefIs(requests[..n], ref, j);
    }
  }

  lemma {:induction false} ByDigestFound(requests: seq<Request>, digest: string) returns (j: nat)
    requires ByDigest(requests, digest).Some?
    ensures LastByDigest(requests, digest, j) && ByDigest(requests, digest) == Some(requests[j])
  {
    var n := |requests| - 1;
    if requests[n].digest == digest {
      j := n;
    } else {
      j := ByDigestFound(requests[..n], digest);
      assert forall m :: j < m < n ==> requests[..n][m] == requests[m];
    }
  }

  lemma {:induction false} ByDigestIs(requests: seq<Request>, digest: string, j: nat)
    requires LastByDigest(requests, digest, j)
    ensures ByDigest(requests, digest) == Some(requests[j])
  {
    var n := |requests| - 1;
    if j < n {
      assert forall m :: j <= m < n ==> requests[..n][m] == requests[m];
      ByDigestIs(requests[..n], digest, j);
    }
  }

  // ---------------------------------------------------------------- receipts

  ghost predicate ReceiptAnswers(requests: seq<Request>, e: NativeReceipt, j: nat) {
    && LastByDigest(requests, e.actionRequestDigest, j)
    && requests[j].action.actionId == e.actionId && requests[j].action.idempotencyKey == e.idempotencyKey
  }

  ghost predicate Answered(requests: seq<Request>, e: NativeReceipt) { exists j :: ReceiptAnswers(requests, e, j) }

  /** A recorded receipt and the receipt it becomes; the ledger signed the digest of what it becomes. */
  ghost predicate ReceiptTaken(h: Host, d: Dispatch, e: NativeReceipt, r: Receipt) {
    && r.digest == e.actionReceiptDigest == h.receiptDigest(r.receipt)
    && r.receipt.dispatch == d && r.receipt.actionId == e.actionId && r.receipt.idempotencyKey == e.idempotencyKey
    && r.receipt.actionRequestDigest == e.actionRequestDigest && r.receipt.outcome == e.outcome
    && r.receipt.rest == e.rest
    && e.resultDigest.Some? == e.resultRef.Some? == r.receipt.result.Some?
    && (r.receipt.result.Some? ==>
          e.resultDigest == Some(r.receipt.result.value.0) && e.resultRef == Some(r.receipt.result.value.1))
  }

  ghost predicate ReceiptsTaken(
      h: Host, d: Dispatch, requests: seq<Request>, entries: seq<NativeReceipt>, receipts: seq<Receipt>)
  {
    && |receipts| == |entries|
    && (forall i :: 0 <= i < |entries| ==>
          ReceiptTaken(h, d, entries[i], receipts[i]) && Answered(requests, entries[i]))
    && (forall i, j :: 0 <= i < j < |entries| ==> entries[i].actionId != entries[j].actionId)
  }

  lemma {:induction false} ReceiptRead(h: Host, d: Dispatch, requests: seq<Request>, e: NativeReceipt, r: Receipt)
    requires ByDigest(requests, e.actionRequestDigest).Some?
    requires ReceiptBound(h, d, e, ByDigest(requests, e.actionRequestDigest).value)
    requires r == Receipt(ReceiptBody(d, e, ByDigest(requests, e.actionRequestDigest).value), e.actionReceiptDigest)
    ensures ReceiptTaken(h, d, e, r) && Answered(requests, e)
  {
    var j := ByDigestFound(requests, e.actionRequestDigest);
    assert ReceiptAnswers(requests, e, j);
  }

  lemma {:induction false} ReceiptAccepted(
      h: Host, d: Dispatch, requests: seq<Request>, e: NativeReceipt, r: Receipt, j: nat)
    requires ReceiptTaken(h, d, e, r) && ReceiptAnswers(requests, e, j)
    ensures ByDigest(requests, e.actionRequestDigest) == Some(requests[j]) && ReceiptBound(h, d, e, requests[j])
    ensures r == Receipt(ReceiptBody(d, e, requests[j]), e.actionReceiptDigest)
  {
    ByDigestIs(requests, e.actionRequestDigest, j);
    var x := r.receipt;
    if x.result.Some? { assert x.result == Some((x.result.value.0, x.result.value.1)); }
    assert x == ActionReceipt(x.dispatch, x.actionId, x.idempotencyKey, x.actionRequestDigest, x.outcome, x.result,
                              x.rest);
  }

  lemma {:induction false} ReceiptIdsRead(
      h: Host, d: Dispatch, requests: seq<Request>, entries: seq<NativeReceipt>, receipts: seq<Receipt>)
    requires ReceiptsTaken(h, d, requests, entries, receipts)
    ensures forall id :: id in ReceiptIds(receipts) <==> exists i :: 0 <= i < |entries| && entries[i].actionId == id
  {
    forall id | id in ReceiptIds(receipts) ensures exists i :: 0 <= i < |entries| && entries[i].actionId == id {
      var r :| r in receipts && r.receipt.actionId == id;
      var i :| 0 <= i < |receipts| && receipts[i] == r;
      assert entries[i].actionId == id;
    }
    forall i | 0 <= i < |entries| ensures entries[i].actionId in ReceiptIds(receipts) {
      assert ReceiptTaken(h, d, entries[i], receipts[i]) && receipts[i] in receipts;
    }
  }

  lemma {:induction false} ReceiptsTakenRead(h: Host, d: Dispatch, requests: seq<Request>, entries: seq<NativeReceipt>)
    requires ReadReceipts(h, d, requests, entries).Some?
    ensures ReceiptsTaken(h, d, requests, entries, ReadReceipts(h, d, requests, entries).value)
  {
    if entries != [] {
      var n := |entries| - 1;
      ReceiptsTakenRead(h, d, requests, entries[..n]);
      var before := ReadReceipts(h, d, requests, entries[..n]).value;
      var receipts := ReadReceipts(h, d, requests, entries).value;
      ReceiptIdsRead(h, d, requests, entries[..n], before);
      ReceiptRead(h, d, requests, entries[n], receipts[n]);
      forall i | 0 <= i < n
        ensures ReceiptTaken(h, d, entries[i], receipts[i]) && entries[i].actionId != entries[n].actionId
        ensures Answered(requests, entries[i])
      {
        assert entries[..n][i] == entries[i] && before[i] == receipts[i];
        assert ReceiptTaken(h, d, entries[..n][i], before[i]) && entries[..n][i].actionId in ReceiptIds(before);
      }
    }
  }

  lemma {:induction false} ReceiptsTakenInit(
      h: Host, d: Dispatch, requests: seq<Request>, entries: seq<NativeReceipt>, receipts: seq<Receipt>)
    requires ReceiptsTaken(h, d, requests, entries, receipts) && entries != []
    ensures var n := |entries| - 1;
            && ReceiptsTaken(h, d, requests, entries[..n], receipts[..n])
            && entries[n].actionId !in ReceiptIds(receipts[..n])
  {
    var n := |entries| - 1;
    forall i | 0 <= i < n
      ensures ReceiptTaken(h, d, entries[..n][i], receipts[..n][i]) && Answered(requests, entries[..n][i])
    {
      assert entries[..n][i] == entries[i] && receipts[..n][i] == receipts[i];
    }
    assert forall i, j :: 0 <= i < j < n ==> entries[..n][i].actionId != entries[..n][j].actionId;
    ReceiptIdsRead(h, d, requests, entries[..n], receipts[..n]);
  }

  lemma {:induction false} ReceiptsTakenAccepted(
      h: Host, d: Dispatch, requests: seq<Request>, entries: seq<NativeReceipt>, receipts: seq<Receipt>)
    requires ReceiptsTaken(h, d, requests, entries, receipts)
    ensures ReadReceipts(h, d, requests, entries) == Some(receipts)
  {
    if entries == [] {
      assert receipts == [];
    } else {
      var n := |entries| - 1;
      ReceiptsTakenInit(h, d, requests, entries, receipts);
      ReceiptsTakenAccepted(h, d, requests, entries[..n], receipts[..n]);
      var j :| ReceiptAnswers(requests, entries[n], j);
      ReceiptAccepted(h, d, requests, entries[n], receipts[n], j);
      assert receipts == receipts[..n] + [receipts[n]];
    }
  }

  /** Receipts are read exactly when each answers the last request with its digest and no action id repeats. */
  lemma {:induction false} ReceiptsExactly(
      h: Host, d: Dispatch, requests: seq<Request>, entries: seq<NativeReceipt>, receipts: seq<Receipt>)
    ensures ReadReceipts(h, d, requests, entries) == Some(receipts) <==>
            ReceiptsTaken(h, d, requests, entries, receipts)
  {
    if ReadReceipts(h, d, requests, entries).Some? { ReceiptsTakenRead(h, d, requests, entries); }
    if ReceiptsTaken(h, d, requests, entries, receipts) {
      ReceiptsTakenAccepted(h, d, requests, entries, receipts);
    }
  }

  // -------------------------------------------------------------- candidates

  ghost predicate CandidateTaken(d: Dispatch, e: NativeCandidate, c: Candidate) {
    && c.createdRef == e.eventId && c.candidateRef == e.candidateRef && c.candidateDigest == e.candidateDigest
    && c.candidateCommitSha == e.candidateCommitSha && c.treeDigest == e.treeDigest
    && c.baseCommitSha == e.baseCommitSha == d.baseCommitSha && c.envelopeDigest == e.envelopeDigest == d.envelopeDigest
    && e.legacyReceiptDigest.None?
  }

  ghost predicate CandidatesTaken(d: Dispatch, entries: seq<NativeCandidate>, candidates: seq<Candidate>) {
    |candidates| == |entries| && forall i :: 0 <= i < |entries| ==> CandidateTaken(d, entries[i], candidates[i])
  }

  /** Candidates are read exactly when each is of the dispatch's base commit and envelope; then field by field. */
  lemma {:induction false} CandidatesExactly(d: Dispatch, entries: seq<NativeCandidate>, candidates: seq<Candidate>)
    ensures ReadCandidates(d, entries) == Some(candidates) <==> CandidatesTaken(d, entries, candidates)
  {
    if entries != [] {
      var n := |entries| - 1;
      if |candidates| == n + 1 {
        CandidatesExactly(d, entries[..n], candidates[..n]);
        assert candidates == candidates[..n] + [candidates[n]];
        assert forall i :: 0 <= i < n ==> entries[..n][i] == entries[i] && candidates[..n][i] == candidates[i];
      }
      if ReadCandidates(d, entries[..n]).Some? {
        CandidatesExactly(d, entries[..n], ReadCandidates(d, entries[..n]).value);
      }
    }
  }
}
