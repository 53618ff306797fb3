/**
 * What the record parsers of a recovery promise of each other's records: one-to-one links, leases within the deadline.
 */
module RecoveryLinks {
  import opened Seqs
  import opened Heartbeats
  import opened Recovery

  // --------------------------------------------------------------- requests

  ghost predicate ActionsDistinct(requests: seq<Request>) {
    forall i, j :: 0 <= i < j < |requests| ==> requests[i].action.actionId != requests[j].action.actionId
  }

  lemma {:induction false} RequestsDistinct(h: Host, d: Dispatch, entries: seq<NativeRequest>)
    requires ReadRequests(h, d, entries).Some?
    ensures |ReadRequests(h, d, entries).value| == |entries|
    ensures ActionsDistinct(ReadRequests(h, d, entries).value)
  {
    if entries != [] {
      var n := |entries| - 1;
      RequestsDistinct(h, d, entries[..n]);
      var before := ReadRequests(h, d, entries[..n]).value;
      forall i | 0 <= i < n ensures before[i].action.actionId != entries[n].actionId { assert before[i] in before; }
    }
  }

  lemma {:induction false} ByRefFinds(requests: seq<Request>, ref: string) returns (j: nat)
    requires ByRef(requests, ref).Some?
    ensures j < |requests| && requests[j] == ByRef(requests, ref).value && requests[j].ref == ref
  {
    var n := |requests| - 1;
    if requests[n].ref == ref { j := n; } else { j := ByRefFinds(requests[..n], ref); }
  }

  lemma {:induction false} ByDigestFinds(requests: seq<Request>, digest: string) returns (j: nat)
    requires ByDigest(requests, digest).Some?
    ensures j < |requests| && requests[j] == ByDigest(requests, digest).value && requests[j].digest == digest
  {
    var n := |requests| - 1;
    if requests[n].digest == digest { j := n; } else { j := ByDigestFinds(requests[..n], digest); }
  }

  // --------------------------------------------------------------- receipts

  /** A receipt and a request with one action id, idempotency key and request digest. */
  ghost predicate ReceiptLink(r: Receipt, q: Request) {
    && r.receipt.actionId == q.action.actionId && r.receipt.idempotencyKey == q.action.idempotencyKey
    && r.receipt.actionRequestDigest == q.digest
  }

  lemma {:induction false} ReceiptsLinked(h: Host, d: Dispatch, requests: seq<Request>, entries: seq<NativeReceipt>)
    requires ReadReceipts(h, d, requests, entries).Some?
    ensures var receipts := ReadReceipts(h, d, requests, entries).value;
            && |receipts| == |entries|
            && (forall i :: 0 <= i < |receipts| ==>
                  exists j :: 0 <= j < |requests| && ReceiptLink(receipts[i], requests[j]))
            && (forall i, k :: 0 <= i < k < |receipts| ==> receipts[i].receipt.actionId != receipts[k].receipt.actionId)
  {
    if entries != [] {
      var n := |entries| - 1;
      ReceiptsLinked(h, d, requests, entries[..n]);
      var before := ReadReceipts(h, d, requests, entries[..n]).value;
      var receipts := ReadReceipts(h, d, requests, entries).value;
      var j := ByDigestFinds(requests, entries[n].actionRequestDigest);
      assert ReceiptLink(receipts[n], requests[j]);
      forall i | 0 <= i < n ensures before[i].receipt.actionId != receipts[n].receipt.actionId {
        assert before[i] in before;
      }
    }
  }

  /** Receipts map into requests, each to one request and no two to the same, keeping id, key and digest. */
  lemma {:induction false} ReceiptsInject(
      h: Host, d: Dispatch, reqs: seq<NativeRequest>, entries: seq<NativeReceipt>, i: nat)
    returns (j: nat)
    requires ReadRequests(h, d, reqs).Some?
    requires ReadReceipts(h, d, ReadRequests(h, d, reqs).value, entries).Some?
    requires i < |entries|
    ensures var requests := ReadRequests(h, d, reqs).value;
            var receipts := ReadReceipts(h, d, requests, entries).value;
            && |receipts| == |entries| && j < |requests| && ReceiptLink(receipts[i], requests[j])
            && (forall k :: 0 <= k < |requests| && ReceiptLink(receipts[i], requests[k]) ==> k == j)
            && (forall k :: 0 <= k < |receipts| && ReceiptLink(receipts[k], requests[j]) ==> k == i)
  {
    var requests := ReadRequests(h, d, reqs).value;
    RequestsDistinct(h, d, reqs);
    ReceiptsLinked(h, d, requests, entries);
    var receipts := ReadReceipts(h, d, requests, entries).value;
    j :| 0 <= j < |requests| && ReceiptLink(receipts[i], requests[j]);
  }

  // ----------------------------------------------------------------- claims

  ghost predicate ClaimLink(c: Claim, q: Request) {
    && c.activityId == q.action.actionId && c.idempotencyKey == q.action.idempotencyKey
    && c.actionRequestDigest == q.digest && c.actionRequestRef == q.ref
  }

  ghost predicate ClaimsDistinct(claims: seq<Claim>) {
    forall i, k :: 0 <= i < k < |claims| ==>
      claims[i].activityId != claims[k].activityId && claims[i].claimEventRef != claims[k].claimEventRef
  }

  lemma {:induction false} ClaimsLinked(
      h: Host, d: Dispatch, requests: seq<Request>, deadline: int, entries: seq<NativeClaim>)
    requires AddClaims(h, d, requests, deadline, entries).Some?
    ensures var claims := AddClaims(h, d, requests, deadline, entries).value.claims;
            && |claims| == |entries| && ClaimsDistinct(claims)
            && (forall i :: 0 <= i < |claims| ==> exists j :: 0 <= j < |requests| && ClaimLink(claims[i], requests[j]))
  {
    if entries != [] {
      var n := |entries| - 1;
      ClaimsLinked(h, d, requests, deadline, entries[..n]);
      var before := AddClaims(h, d, requests, deadline, entries[..n]).value.claims;
      var claims := AddClaims(h, d, requests, deadline, entries).value.claims;
      var j := ByRefFinds(requests, entries[n].actionRequestEventId);
      assert ClaimLink(claims[n], requests[j]);
      forall i | 0 <= i < n
        ensures before[i].activityId != claims[n].activityId && before[i].claimEventRef != claims[n].claimEventRef
      {
        assert before[i] in before;
      }
    }
  }

  /** Claims map into requests one to one, although request event refs may repeat: action ids decide. */
  lemma {:induction false} ClaimsInject(
      h: Host, d: Dispatch, reqs: seq<NativeRequest>, entries: seq<NativeClaim>, i: nat)
    returns (j: nat)
    requires ReadRequests(h, d, reqs).Some?
    requires ReadClaims(h, d, ReadRequests(h, d, reqs).value, entries).Some?
    requires i < |entries|
    ensures var requests := ReadRequests(h, d, reqs).value;
            var claims := ReadClaims(h, d, requests, entries).value;
            && |claims| == |entries| && j < |requests| && ClaimLink(claims[i], requests[j])
            && (forall k :: 0 <= k < |requests| && ClaimLink(claims[i], requests[k]) ==> k == j)
            && (forall k :: 0 <= k < |claims| && ClaimLink(claims[k], requests[j]) ==> k == i)
  {
    var requests := ReadRequests(h, d, reqs).value;
    RequestsDistinct(h, d, reqs);
    ClaimsLinked(h, d, requests, EffectDeadline(h, d).value, entries);
    var claims := ReadClaims(h, d, requests, entries).value;
    j :| 0 <= j < |requests| && ClaimLink(claims[i], requests[j]);
  }

  // ------------------------------------------------------------ pending work

  ghost predicate WorkLink(w: Work, c: Claim) {
    w.identity.activityClaimEventRef == c.claimEventRef && WorkBindsClaim(w, c)
  }

  lemma {:induction false} ClaimByRefFinds(claims: seq<Claim>, ref: string) returns (j: nat)
    requires ClaimByRef(claims, ref).Some?
    ensures j < |claims| && claims[j] == ClaimByRef(claims, ref).value && claims[j].claimEventRef == ref
  {
    var n := |claims| - 1;
    if claims[n].claimEventRef == ref { j := n; } else { j := ClaimByRefFinds(claims[..n], ref); }
  }

  lemma {:induction false} WorkItems(d: Dispatch, requests: seq<Request>, claims: seq<Claim>, work: seq<Work>)
    requires WorkAccepted(d, requests, claims, work)
    ensures forall i :: 0 <= i < |work| ==> WorkBound(d, requests, claims, work[i])
    ensures forall i, k :: 0 <= i < k < |work| ==>
              work[i].identity.activityClaimEventRef != work[k].identity.activityClaimEventRef
  {
    if work != [] {
      var n := |work| - 1;
      WorkItems(d, requests, claims, work[..n]);
      forall i | 0 <= i < n
        ensures work[i].identity.activityClaimEventRef != work[n].identity.activityClaimEventRef
      {
        assert work[i] == work[..n][i] && work[i] in work[..n];
      }
    }
  }

  /** Pending work maps one to one into the claims that have no result yet. */
  lemma {:induction false} WorkInjects(d: Dispatch, requests: seq<Request>, claims: seq<Claim>, work: seq<Work>, i: nat)
    returns (j: nat)
    requires WorkAccepted(d, requests, claims, work) && ClaimsDistinct(claims) && i < |work|
    ensures j < |claims| && claims[j].result.None? && WorkLink(work[i], claims[j])
    ensures forall k :: 0 <= k < |claims| && WorkLink(work[i], claims[k]) ==> k == j
    ensures forall k :: 0 <= k < |work| && WorkLink(work[k], claims[j]) ==> k == i
  {
    WorkItems(d, requests, claims, work);
    assert WorkBound(d, requests, claims, work[i]);
    j := ClaimByRefFinds(claims, work[i].identity.activityClaimEventRef);
  }

  // ------------------------------------------------------------------ leases

  /** There is an effect deadline exactly when the times it needs read and the budget's end is representable. */
  lemma {:induction false} DeadlineExists(h: Host, d: Dispatch)
    ensures EffectDeadline(h, d).Some? <==>
            && h.clock(d.expiresAt).Some?
            && (d.budget.maxComputeTimeMs.Some? ==>
                  && h.clock(d.issuedAt).Some?
                  && h.representable(h.clock(d.issuedAt).value + d.budget.maxComputeTimeMs.value * 1000000))
  {
  }

  /** The effect deadline is the dispatch's expiry or its compute budget's end, whichever comes first. */
  lemma {:induction false} DeadlineMeaning(h: Host, d: Dispatch)
    requires EffectDeadline(h, d).Some?
    ensures h.clock(d.expiresAt).Some? && EffectDeadline(h, d).value <= h.clock(d.expiresAt).value
    ensures d.budget.maxComputeTimeMs.Some? ==>
              && h.clock(d.issuedAt).Some?
              && EffectDeadline(h, d).value <= h.clock(d.issuedAt).value + d.budget.maxComputeTimeMs.value * 1000000
    ensures EffectDeadline(h, d).value == h.clock(d.expiresAt).value
            || (d.budget.maxComputeTimeMs.Some?
                && EffectDeadline(h, d).value == h.clock(d.issuedAt).value + d.budget.maxComputeTimeMs.value * 1000000)
  {
  }

  lemma {:induction false} ClaimHistoryRead(
      h: Host, d: Dispatch, requests: seq<Request>, deadline: int, entries: seq<NativeClaim>, i: nat)
    returns (seen: set<string>)
    requires AddClaims(h, d, requests, deadline, entries).Some? && i < |entries|
    ensures ClaimHistory(h, d, deadline, entries[i], seen).Some?
  {
    var n := |entries| - 1;
    if i == n {
      seen := AddClaims(h, d, requests, deadline, entries[..n]).value.heartbeatRefs;
    } else {
      seen := ClaimHistoryRead(h, d, requests, deadline, entries[..n], i);
    }
  }

  /** Every accepted claim that was extended by heartbeats has a lease that never lapsed and ends by the deadline. */
  lemma {:induction false} LeaseBounded(h: Host, d: Dispatch, requests: seq<Request>, entries: seq<NativeClaim>, i: nat)
    returns (beats: seq<Beat>, l: Lineage)
    requires ReadClaims(h, d, requests, entries).Some? && i < |entries| && entries[i].heartbeats.Some?
    ensures h.clock(entries[i].claimedAt) == Some(l.claimedAt) && l.leaseId == entries[i].leaseId
    ensures h.clock(entries[i].leaseExpiresAt) == Some(l.leaseExpiresAt)
    ensures EffectDeadline(h, d) == Some(l.deadline)
    ensures |beats| == |entries[i].heartbeats.value| > 0
    ensures forall j, k :: 0 <= j < k < |beats| ==> beats[j].expiry < beats[k].expiry && beats[j].at < beats[k].at
    ensures forall x :: l.claimedAt <= x < l.leaseExpiresAt ==> Covered(l, beats, x)
    ensures beats[|beats| - 1].expiry == l.leaseExpiresAt <= l.deadline
    ensures |beats| <= l.deadline - l.claimedAt - 1
  {
    var deadline := EffectDeadline(h, d).value;
    var seen := ClaimHistoryRead(h, d, requests, deadline, entries, i);
    var e := entries[i];
    l := LineageOf(d, e, h.clock(e.claimedAt).value, h.clock(e.leaseExpiresAt).value, deadline);
    HistoryHolds(h.clock, l, e.heartbeats.value, seen);
    beats := ReadHistory(h.clock, l, e.heartbeats, seen).value.beats;
  }
}
