/** One-to-one links and leases in every accepted recovery. */
module RecoveryChain {
  import opened Seqs
  import opened Heartbeats
  import opened HeartbeatRecords
  import opened Recovery
  import opened RecoveryLinks
  import opened RecoveryProjection
  import opened RecoveryClaims
  import opened RecoveryExact

  /** A snapshot holds what the record parsers made of the native records. */
  lemma {:induction false} SnapshotParts(k: Kernel, d: Dispatch, n: NativeRecovery)
    requires SnapshotOf(k, d, n).Some?
    ensures var s := SnapshotOf(k, d, n).value;
            && ReadRequests(k.host, d, n.requests) == Some(s.requests)
            && ReadReceipts(k.host, d, s.requests, n.receipts) == Some(s.receipts)
            && ReadClaims(k.host, d, s.requests, n.activityClaims) == Some(s.activityClaims)
            && WorkAccepted(d, s.requests, s.activityClaims, n.pendingWork)
  {
  }

  lemma {:induction false} RecoverySnapshot(k: Kernel, d: Dispatch, schema: int, n: NativeRecovery)
    requires ReadRecovery(k, d, schema, n).Some?
    ensures SnapshotOf(k, d, n) == Some(ReadRecovery(k, d, schema, n).value.recovery)
    ensures ReadRecovery(k, d, schema, n).value.pendingWork == n.pendingWork
  {
  }

  lemma {:induction false} RecoveryParts(k: Kernel, d: Dispatch, schema: int, n: NativeRecovery)
    requires ReadRecovery(k, d, schema, n).Some?
    ensures var s := ReadRecovery(k, d, schema, n).value.recovery;
            && ReadRequests(k.host, d, n.requests) == Some(s.requests)
            && ReadReceipts(k.host, d, s.requests, n.receipts) == Some(s.receipts)
            && ReadClaims(k.host, d, s.requests, n.activityClaims) == Some(s.activityClaims)
            && WorkAccepted(d, s.requests, s.activityClaims, n.pendingWork)
  {
    RecoverySnapshot(k, d, schema, n);
    SnapshotParts(k, d, n);
  }

  /**
   * In every accepted recovery each receipt belongs to one request, by id, key and digest, and to no other receipt's.
   */
  lemma {:induction false} ReceiptsMapInjectively(k: Kernel, d: Dispatch, schema: int, n: NativeRecovery, i: nat)
    returns (j: nat)
    requires ReadRecovery(k, d, schema, n).Some? && i < |n.receipts|
    ensures var s := ReadRecovery(k, d, schema, n).value.recovery;
            && |s.receipts| == |n.receipts| && j < |s.requests| && ReceiptLink(s.receipts[i], s.requests[j])
            && (forall m :: 0 <= m < |s.requests| && ReceiptLink(s.receipts[i], s.requests[m]) ==> m == j)
            && (forall m :: 0 <= m < |s.receipts| && ReceiptLink(s.receipts[m], s.requests[j]) ==> m == i)
  {
    RecoveryParts(k, d, schema, n);
    j := ReceiptsInject(k.host, d, n.requests, n.receipts, i);
  }

  /** Each claim belongs to one request and no two claims to the same, although request references may repeat. */
  lemma {:induction false} ClaimsMapInjectively(k: Kernel, d: Dispatch, schema: int, n: NativeRecovery, i: nat)
    returns (j: nat)
    requires ReadRecovery(k, d, schema, n).Some? && i < |n.activityClaims|
    ensures var s := ReadRecovery(k, d, schema, n).value.recovery;
            && |s.activityClaims| == |n.activityClaims| && j < |s.requests|
            && ClaimLink(s.activityClaims[i], s.requests[j])
            && (forall m :: 0 <= m < |s.requests| && ClaimLink(s.activityClaims[i], s.requests[m]) ==> m == j)
            && (forall m :: 0 <= m < |s.activityClaims| && ClaimLink(s.activityClaims[m], s.requests[j]) ==> m == i)
  {
    RecoveryParts(k, d, schema, n);
    j := ClaimsInject(k.host, d, n.requests, n.activityClaims, i);
  }

  lemma {:induction false} ClaimsApart(k: Kernel, d: Dispatch, schema: int, n: NativeRecovery)
    requires ReadRecovery(k, d, schema, n).Some?
    ensures ClaimsDistinct(ReadRecovery(k, d, schema, n).value.recovery.activityClaims)
    ensures |ReadRecovery(k, d, schema, n).value.recovery.activityClaims| == |n.activityClaims|
  {
    RecoveryParts(k, d, schema, n);
    var s := ReadRecovery(k, d, schema, n).value.recovery;
    ClaimsLinked(k.host, d, s.requests, EffectDeadline(k.host, d).value, n.activityClaims);
  }

  /** Each item of pending work belongs to one claim that has no result, and no two items to the same claim. */
  lemma {:induction false} WorkMapsInjectively(k: Kernel, d: Dispatch, schema: int, n: NativeRecovery, i: nat)
    returns (j: nat)
    requires ReadRecovery(k, d, schema, n).Some? && i < |n.pendingWork|
    ensures var claims := ReadRecovery(k, d, schema, n).value.recovery.activityClaims;
            && j < |claims| && claims[j].result.None? && WorkLink(n.pendingWork[i], claims[j])
            && (forall m :: 0 <= m < |claims| && WorkLink(n.pendingWork[i], claims[m]) ==> m == j)
            && (forall m :: 0 <= m < |n.pendingWork| && WorkLink(n.pendingWork[m], claims[j]) ==> m == i)
  {
    RecoveryParts(k, d, schema, n);
    ClaimsApart(k, d, schema, n);
    var s := ReadRecovery(k, d, schema, n).value.recovery;
    j := WorkInjects(d, s.requests, s.activityClaims, n.pendingWork, i);
  }

  /** Work, claim and request carry one action id, idempotency key, request digest and request reference. */
  ghost predicate Chained(w: Work, c: Claim, q: Request) {
    && w.identity.activityClaimEventRef == c.claimEventRef && c.result.None?
    && w.identity.actionId == c.activityId == q.action.actionId
    && w.identity.idempotencyKey == c.idempotencyKey == q.action.idempotencyKey
    && w.identity.actionRequestDigest == c.actionRequestDigest == q.digest
    && w.identity.actionRequestEventRef == c.actionRequestRef == q.ref
  }

  /**
   * In every accepted recovery pending work maps one to one, through its open claim, to a request: item `i` is
   * chained to claim `j` and request `m`, to no other claim or request, and no other item is chained to either.
   */
  lemma {:induction false} WorkReachesOneRequest(k: Kernel, d: Dispatch, schema: int, n: NativeRecovery, i: nat)
    returns (j: nat, m: nat)
    requires ReadRecovery(k, d, schema, n).Some? && i < |n.pendingWork|
    ensures var s := ReadRecovery(k, d, schema, n).value.recovery;
            && j < |s.activityClaims| && m < |s.requests| && WorkLink(n.pendingWork[i], s.activityClaims[j])
            && Chained(n.pendingWork[i], s.activityClaims[j], s.requests[m])
            && OnlyChain(n.pendingWork, s.activityClaims, s.requests, i, j, m)
  {
    j := WorkMapsInjectively(k, d, schema, n, i);
    ClaimsApart(k, d, schema, n);
    m := ClaimsMapInjectively(k, d, schema, n, j);
    RecoveryParts(k, d, schema, n);
    var s := ReadRecovery(k, d, schema, n).value.recovery;
    WorkItems(d, s.requests, s.activityClaims, n.pendingWork);
    RequestsDistinct(k.host, d, n.requests);
    ChainIsOnly(n.pendingWork, s.activityClaims, s.requests, i, j, m);
  }

  /** Of the three places of a chain each decides the other two. */
  ghost predicate OnlyChain(work: seq<Work>, claims: seq<Claim>, requests: seq<Request>, i: nat, j: nat, m: nat) {
    forall i', j', m' | 0 <= i' < |work| && 0 <= j' < |claims| && 0 <= m' < |requests|
                        && Chained(work[i'], claims[j'], requests[m']) && (i' == i || j' == j || m' == m) ::
      i' == i && j' == j && m' == m
  }

  lemma {:induction false} ChainIsOnly(
      work: seq<Work>, claims: seq<Claim>, requests: seq<Request>, i: nat, j: nat, m: nat)
    requires i < |work| && j < |claims| && m < |requests| && Chained(work[i], claims[j], requests[m])
    requires ClaimsDistinct(claims) && ActionsDistinct(requests)
    requires forall a, b :: 0 <= a < b < |work| ==>
               work[a].identity.activityClaimEventRef != work[b].identity.activityClaimEventRef
    ensures OnlyChain(work, claims, requests, i, j, m)
  {
    forall i', j', m' | 0 <= i' < |work| && 0 <= j' < |claims| && 0 <= m' < |requests|
                        && Chained(work[i'], claims[j'], requests[m']) && (i' == i || j' == j || m' == m)
      ensures i' == i && j' == j && m' == m
    {
      assert work[i'].identity.actionId == work[i].identity.actionId;
    }
  }

  lemma {:induction false} AcceptedClaims(k: Kernel, d: Dispatch, schema: int, n: NativeRecovery)
    requires ReadRecovery(k, d, schema, n).Some?
    ensures var s := ReadRecovery(k, d, schema, n).value.recovery;
            && EffectDeadline(k.host, d).Some?
            && ClaimsTaken(k.host, d, s.requests, EffectDeadline(k.host, d).value, n.activityClaims, s.activityClaims)
  {
    RecoveryExactly(k, d, schema, n, ReadRecovery(k, d, schema, n).value);
  }

  /** In every accepted recovery no heartbeat event serves twice, within a claim or across claims. */
  lemma {:induction false} HeartbeatsServeOnce(
      k: Kernel, d: Dispatch, schema: int, n: NativeRecovery, i: nat, a: nat, j: nat, b: nat)
    requires ReadRecovery(k, d, schema, n).Some? && i < |n.activityClaims| && j < |n.activityClaims|
    requires a < |Events(n.activityClaims[i].heartbeats)| && b < |Events(n.activityClaims[j].heartbeats)|
    requires Events(n.activityClaims[i].heartbeats)[a].eventId == Events(n.activityClaims[j].heartbeats)[b].eventId
    ensures i == j && a == b
  {
    AcceptedClaims(k, d, schema, n);
    var s := ReadRecovery(k, d, schema, n).value.recovery;
    var x, y := Events(n.activityClaims[i].heartbeats), Events(n.activityClaims[j].heartbeats);
    assert x[a] in x && y[b] in y;
    assert x[a].eventId in EventIds(x) && y[b].eventId in EventIds(y);
    assert ClaimHolds(k.host, d, s.requests, EffectDeadline(k.host, d).value, n.activityClaims[i], s.activityClaims[i]);
    assert EntriesApart(n.activityClaims);
  }

  /**
   * In every accepted recovery the claim carries the recorded lease, and a claim extended by heartbeats has a lease
   * that never lapsed and ends by the deadline.
   */
  lemma {:induction false} LeaseWithinDeadline(k: Kernel, d: Dispatch, schema: int, n: NativeRecovery, i: nat)
    returns (beats: seq<Beat>, l: Lineage)
    requires ReadRecovery(k, d, schema, n).Some? && i < |n.activityClaims| && n.activityClaims[i].heartbeats.Some?
    ensures var claims := ReadRecovery(k, d, schema, n).value.recovery.activityClaims;
            && |claims| == |n.activityClaims| && claims[i].leaseId == n.activityClaims[i].leaseId == l.leaseId
            && k.host.clock(claims[i].leaseExpiresAt) == Some(l.leaseExpiresAt)
            && claims[i].leaseExpiresAt == n.activityClaims[i].leaseExpiresAt
    ensures k.host.clock(n.activityClaims[i].claimedAt) == Some(l.claimedAt)
    ensures EffectDeadline(k.host, d) == Some(l.deadline)
    ensures |beats| == |n.activityClaims[i].heartbeats.value| > 0
    ensures forall j, m :: 0 <= j < m < |beats| ==> beats[j].expiry < beats[m].expiry && beats[j].at < beats[m].at
    ensures forall x :: l.claimedAt <= x < l.leaseExpiresAt ==> Covered(l, beats, x)
    ensures beats[|beats| - 1].expiry == l.leaseExpiresAt <= l.deadline
    ensures |beats| <= l.deadline - l.claimedAt - 1
  {
    RecoveryParts(k, d, schema, n);
    AcceptedClaims(k, d, schema, n);
    var s := ReadRecovery(k, d, schema, n).value.recovery;
    assert ClaimHolds(k.host, d, s.requests, EffectDeadline(k.host, d).value, n.activityClaims[i], s.activityClaims[i]);
    beats, l := LeaseBounded(k.host, d, s.requests, n.activityClaims, i);
  }
}
