/**
 * Exactly which native activity claims and which pending work a recovery accepts, and what each claim becomes
 * (apps/cli/src/ledger-governed-dispatch-resolver.ts).
 */
module RecoveryClaims {
  import opened Seqs
  import opened Heartbeats
  import opened HeartbeatRecords
  import opened Recovery
  import opened RecoveryLinks
  import opened RecoveryRecords

  // ------------------------------------------------------------------ claims

  /** The claim names the dispatch and the last request with its reference, of the same action, key, kind and digest. */
  ghost predicate ClaimNames(d: Dispatch, requests: seq<Request>, e: NativeClaim, j: nat) {
    && LastByRef(requests, e.actionRequestEventId, j)
    && e.activityId == requests[j].action.actionId && e.idempotencyKey == requests[j].action.idempotencyKey
    && e.actionKind == requests[j].action.actionKind && e.actionRequestDigest == requests[j].digest
    && e.runId == d.runId && e.dispatchEventId == d.dispatchEnvelopeRef
    && e.dispatchEnvelopeDigest == d.envelopeDigest && e.authorityActor == d.authorityActor
  }

  /** A terminal result names the claim and its lease; a success carries a result, an unknown outcome none. */
  ghost predicate ResultTaken(d: Dispatch, e: NativeClaim, r: NativeResult, x: ClaimResult) {
    && x.eventRef == r.eventId && x.eventDigest == r.eventDigest && x.outcome == r.outcome
    && r.claimEventId == e.eventId && r.claimEventDigest == e.claimEventDigest && r.leaseId == e.leaseId
    && r.runId == d.runId && r.activityId == e.activityId && r.idempotencyKey == e.idempotencyKey
    && r.resultDigest.Some? == r.resultRef.Some?
    && (r.outcome.Succeeded? ==> r.resultDigest.Some?) && (r.outcome.UnknownResult? ==> r.resultRef.None?)
  }

  /** What a recorded claim becomes, field by field; a claim without a purpose is generic. */
  ghost predicate ClaimTaken(d: Dispatch, e: NativeClaim, c: Claim) {
    && c.activityId == e.activityId && c.idempotencyKey == e.idempotencyKey
    && c.claimEventRef == e.eventId && c.claimEventDigest == e.claimEventDigest
    && c.actionRequestRef == e.actionRequestEventId && c.actionRequestDigest == e.actionRequestDigest
    && c.leaseId == e.leaseId && c.leaseExpiresAt == e.leaseExpiresAt
    && (e.purpose == Some(c.purpose) || (e.purpose.None? && c.purpose.Generic?))
    && (e.actionKind.Model? ==> c.purpose.GovernedModelAction?)
    && c.result.Some? == e.result.Some?
    && (e.result.Some? ==> ResultTaken(d, e, e.result.value, c.result.value))
  }

  /** The lease's times read, and its heartbeats are beats of this claim within the deadline. */
  ghost predicate LeaseTaken(h: Host, d: Dispatch, deadline: int, e: NativeClaim, beats: seq<Beat>) {
    && h.clock(e.claimedAt).Some? && h.clock(e.leaseExpiresAt).Some?
    && BeatsOfClaim(
         h.clock,
         Lineage(e.eventId, e.claimEventDigest, e.runId, e.activityId, e.idempotencyKey, e.leaseId, e.dispatchEventId,
                 e.dispatchEnvelopeDigest, h.clock(e.claimedAt).value, h.clock(e.leaseExpiresAt).value, deadline),
         e.heartbeats, beats)
    && EventsDistinct(Events(e.heartbeats))
  }

  ghost predicate ClaimHolds(h: Host, d: Dispatch, requests: seq<Request>, deadline: int, e: NativeClaim, c: Claim) {
    && ClaimTaken(d, e, c) && (exists j :: ClaimNames(d, requests, e, j))
    && exists beats :: LeaseTaken(h, d, deadline, e, beats)
  }

  /** No two claims share an activity, a key, an event or a heartbeat event. */
  ghost predicate EntriesApart(entries: seq<NativeClaim>) {
    forall i, j :: 0 <= i < j < |entries| ==>
      && entries[i].activityId != entries[j].activityId && entries[i].idempotencyKey != entries[j].idempotencyKey
      && entries[i].eventId != entries[j].eventId
      && EventIds(Events(entries[i].heartbeats)) !! EventIds(Events(entries[j].heartbeats))
  }

  ghost predicate ClaimsTaken(
      h: Host, d: Dispatch, requests: seq<Request>, deadline: int, entries: seq<NativeClaim>, claims: seq<Claim>)
  {
    && |claims| == |entries| && EntriesApart(entries)
    && forall i :: 0 <= i < |entries| ==> ClaimHolds(h, d, requests, deadline, entries[i], claims[i])
  }

  ghost function AllEvents(entries: seq<NativeClaim>): set<string> {
    if entries == [] then {}
    else AllEvents(entries[..|entries| - 1]) + EventIds(Events(entries[|entries| - 1].heartbeats))
  }

  lemma {:induction false} EventsOfEntry(entries: seq<NativeClaim>, id: string)
    ensures id in AllEvents(entries) <==>
            exists i :: 0 <= i < |entries| && id in EventIds(Events(entries[i].heartbeats))
  {
    if entries != [] {
      var n := |entries| - 1;
      EventsOfEntry(entries[..n], id);
      if i :| 0 <= i < |entries| && id in EventIds(Events(entries[i].heartbeats)) {
        if i < n { assert entries[..n][i] == entries[i]; }
      }
      if i :| 0 <= i < n && id in EventIds(Events(entries[..n][i].heartbeats)) {
        assert entries[..n][i] == entries[i];
      }
    }
  }

  /** One claim, found with its request, is taken exactly when its parts are. */
  lemma {:induction false} ClaimRead(d: Dispatch, requests: seq<Request>, e: NativeClaim, c: Claim, j: nat)
    requires LastByRef(requests, e.actionRequestEventId, j)
    ensures ClaimBound(d, e, requests[j]) && (e.result.Some? ==> ResultBound(d, e, e.result.value))
            && c == ClaimOf(e, requests[j]) <==>
            ClaimNames(d, requests, e, j) && ClaimTaken(d, e, c)
  {
    if ClaimTaken(d, e, c) {
      assert c == Claim(c.activityId, c.idempotencyKey, c.claimEventRef, c.claimEventDigest, c.actionRequestRef,
                        c.actionRequestDigest, c.leaseId, c.leaseExpiresAt, c.purpose, c.result);
      if e.result.Some? {
        var x := c.result.value;
        assert x == ClaimResult(x.eventRef, x.eventDigest, x.outcome);
      }
    }
  }

  /** The heartbeats of a claim of the dispatch are read exactly when its lease is taken and its events are new. */
  lemma {:induction false} LeaseRead(h: Host, d: Dispatch, deadline: int, e: NativeClaim, seen: set<string>)
    requires e.runId == d.runId && e.dispatchEventId == d.dispatchEnvelopeRef
    requires e.dispatchEnvelopeDigest == d.envelopeDigest
    ensures ClaimHistory(h, d, deadline, e, seen).Some? <==>
            (exists beats :: LeaseTaken(h, d, deadline, e, beats)) && EventIds(Events(e.heartbeats)) !! seen
    ensures ClaimHistory(h, d, deadline, e, seen).Some? ==>
              ClaimHistory(h, d, deadline, e, seen).value.seen == seen + EventIds(Events(e.heartbeats))
  {
    if h.clock(e.claimedAt).Some? && h.clock(e.leaseExpiresAt).Some? {
      var l := LineageOf(d, e, h.clock(e.claimedAt).value, h.clock(e.leaseExpiresAt).value, deadline);
      var r := ReadHistory(h.clock, l, e.heartbeats, seen);
      if r.Some? {
        HistoryMeaning(h.clock, l, e.heartbeats, seen, r.value.beats);
        assert r == Some(History(r.value.beats, r.value.seen));
        assert LeaseTaken(h, d, deadline, e, r.value.beats);
      }
      if beats :| LeaseTaken(h, d, deadline, e, beats) {
        HistoryMeaning(h.clock, l, e.heartbeats, seen, beats);
      }
    }
  }

  /** The entry's activity, key, event and heartbeat events are not among those of the entries before it. */
  ghost predicate EntryApart(before: seq<NativeClaim>, e: NativeClaim) {
    forall i :: 0 <= i < |before| ==>
      && before[i].activityId != e.activityId && before[i].idempotencyKey != e.idempotencyKey
      && before[i].eventId != e.eventId
      && EventIds(Events(before[i].heartbeats)) !! EventIds(Events(e.heartbeats))
  }

  lemma {:induction false} ApartSplit(entries: seq<NativeClaim>)
    requires entries != []
    ensures var n := |entries| - 1;
            EntriesApart(entries) <==> EntriesApart(entries[..n]) && EntryApart(entries[..n], entries[n])
  {
    var n := |entries| - 1;
    assert forall i :: 0 <= i < n ==> entries[..n][i] == entries[i];
  }

  lemma {:induction false} FreshExactly(
      h: Host, d: Dispatch, requests: seq<Request>, deadline: int, before: seq<NativeClaim>, claims: seq<Claim>,
      e: NativeClaim)
    requires ClaimsTaken(h, d, requests, deadline, before, claims)
    ensures EntryApart(before, e) <==>
            ClaimFresh(claims, e) && EventIds(Events(e.heartbeats)) !! AllEvents(before)
  {
    SetsRead(h, d, requests, deadline, before, claims);
    forall id ensures id in AllEvents(before) <==>
                      exists i :: 0 <= i < |before| && id in EventIds(Events(before[i].heartbeats))
    {
      EventsOfEntry(before, id);
    }
  }

  lemma {:induction false} SetsRead(
      h: Host, d: Dispatch, requests: seq<Request>, deadline: int, entries: seq<NativeClaim>, claims: seq<Claim>)
    requires ClaimsTaken(h, d, requests, deadline, entries, claims)
    ensures forall x :: x in ActivityIds(claims) <==> exists i :: 0 <= i < |entries| && entries[i].activityId == x
    ensures forall x :: x in ClaimKeys(claims) <==> exists i :: 0 <= i < |entries| && entries[i].idempotencyKey == x
    ensures forall x :: x in ClaimRefs(claims) <==> exists i :: 0 <= i < |entries| && entries[i].eventId == x
  {
    forall i | 0 <= i < |entries| ensures claims[i] in claims && ClaimTaken(d, entries[i], claims[i]) {
      assert ClaimHolds(h, d, requests, deadline, entries[i], claims[i]);
    }
    forall c | c in claims ensures exists i :: 0 <= i < |entries| && claims[i] == c {
      var i :| 0 <= i < |claims| && claims[i] == c;
    }
  }

  /** One more claim is added when it holds and is apart from those before it. */
  lemma {:induction false} AddsHolding(
      h: Host, d: Dispatch, requests: seq<Request>, deadline: int, before: Claims, e: NativeClaim, c: Claim)
    requires ClaimHolds(h, d, requests, deadline, e, c)
    requires ClaimFresh(before.claims, e) && EventIds(Events(e.heartbeats)) !! before.heartbeatRefs
    ensures AddClaim(h, d, requests, deadline, before, e)
            == Some(Claims(before.claims + [c], before.heartbeatRefs + EventIds(Events(e.heartbeats))))
  {
    var j :| ClaimNames(d, requests, e, j);
    ByRefIs(requests, e.actionRequestEventId, j);
    ClaimRead(d, requests, e, c, j);
    LeaseRead(h, d, deadline, e, before.heartbeatRefs);
  }

  /** Conversely an added claim holds, and is fresh. */
  lemma {:induction false} AddedHolds(
      h: Host, d: Dispatch, requests: seq<Request>, deadline: int, before: Claims, e: NativeClaim)
    returns (c: Claim)
    requires AddClaim(h, d, requests, deadline, before, e).Some?
    ensures AddClaim(h, d, requests, deadline, before, e)
            == Some(Claims(before.claims + [c], before.heartbeatRefs + EventIds(Events(e.heartbeats))))
    ensures ClaimHolds(h, d, requests, deadline, e, c)
    ensures ClaimFresh(before.claims, e) && EventIds(Events(e.heartbeats)) !! before.heartbeatRefs
  {
    var j := ByRefFound(requests, e.actionRequestEventId);
    c := ClaimOf(e, requests[j]);
    ClaimRead(d, requests, e, c, j);
    LeaseRead(h, d, deadline, e, before.heartbeatRefs);
  }

  lemma {:induction false} ClaimsTakenMore(
      h: Host, d: Dispatch, requests: seq<Request>, deadline: int, entries: seq<NativeClaim>, claims: seq<Claim>,
      c: Claim)
    requires entries != [] && ClaimsTaken(h, d, requests, deadline, entries[..|entries| - 1], claims)
    requires ClaimHolds(h, d, requests, deadline, entries[|entries| - 1], c)
    requires EntryApart(entries[..|entries| - 1], entries[|entries| - 1])
    ensures ClaimsTaken(h, d, requests, deadline, entries, claims + [c])
  {
    var n := |entries| - 1;
    ApartSplit(entries);
    forall i | 0 <= i < |entries| ensures ClaimHolds(h, d, requests, deadline, entries[i], (claims + [c])[i]) {
      if i < n { assert ClaimHolds(h, d, requests, deadline, entries[..n][i], claims[i]); }
    }
  }

  lemma {:induction false} ClaimsTakenRead(
      h: Host, d: Dispatch, requests: seq<Request>, deadline: int, entries: seq<NativeClaim>)
    requires AddClaims(h, d, requests, deadline, entries).Some?
    ensures var r := AddClaims(h, d, requests, deadline, entries).value;
            ClaimsTaken(h, d, requests, deadline, entries, r.claims) && r.heartbeatRefs == AllEvents(entries)
  {
    if entries != [] {
      var n := |entries| - 1;
      ClaimsTakenRead(h, d, requests, deadline, entries[..n]);
      var before := AddClaims(h, d, requests, deadline, entries[..n]).value;
      var c := AddedHolds(h, d, requests, deadline, before, entries[n]);
      FreshExactly(h, d, requests, deadline, entries[..n], before.claims, entries[n]);
      ClaimsTakenMore(h, d, requests, deadline, entries, before.claims, c);
    }
  }

  lemma {:induction false} ClaimsTakenPrefix(
      h: Host, d: Dispatch, requests: seq<Request>, deadline: int, entries: seq<NativeClaim>, claims: seq<Claim>,
      n: nat)
    requires ClaimsTaken(h, d, requests, deadline, entries, claims) && n <= |entries|
    ensures ClaimsTaken(h, d, requests, deadline, entries[..n], claims[..n])
  {
    forall i | 0 <= i < n ensures ClaimHolds(h, d, requests, deadline, entries[..n][i], claims[..n][i]) {
      assert ClaimHolds(h, d, requests, deadline, entries[i], claims[i]);
    }
  }

  lemma {:induction false} ClaimsTakenAt(
      h: Host, d: Dispatch, requests: seq<Request>, deadline: int, entries: seq<NativeClaim>, claims: seq<Claim>,
      n: nat)
    requires ClaimsTaken(h, d, requests, deadline, entries, claims) && n < |entries|
    ensures ClaimHolds(h, d, requests, deadline, entries[n], claims[n]) && ClaimFresh(claims[..n], entries[n])
    ensures EventIds(Events(entries[n].heartbeats)) !! AllEvents(entries[..n])
  {
    ClaimsTakenPrefix(h, d, requests, deadline, entries, claims, n);
    FreshExactly(h, d, requests, deadline, entries[..n], claims[..n], entries[n]);
  }

  /** Entry `k` adds claim `k` to the claims of the entries before it. */
  ghost predicate NextAdds(
      h: Host, d: Dispatch, requests: seq<Request>, deadline: int, entries: seq<NativeClaim>, claims: seq<Claim>,
      k: nat)
    requires k < |entries| == |claims|
  {
    AddClaim(h, d, requests, deadline, Claims(claims[..k], AllEvents(entries[..k])), entries[k])
    == Some(Claims(claims[..k + 1], AllEvents(entries[..k + 1])))
  }

  lemma {:induction false} NextClaims(entries: seq<NativeClaim>, claims: seq<Claim>, k: nat)
    requires k < |entries| == |claims|
    ensures Claims(claims[..k + 1], AllEvents(entries[..k + 1]))
            == Claims(claims[..k] + [claims[k]],
                      AllEvents(entries[..k]) + EventIds(Events(entries[k].heartbeats)))
  {
    assert entries[..k + 1][..k] == entries[..k];
    assert claims[..k] + [claims[k]] == claims[..k + 1];
  }

  lemma {:induction false} TakenAdds(
      h: Host, d: Dispatch, requests: seq<Request>, deadline: int, entries: seq<NativeClaim>, claims: seq<Claim>,
      k: nat)
    requires ClaimsTaken(h, d, requests, deadline, entries, claims) && k < |entries|
    ensures NextAdds(h, d, requests, deadline, entries, claims, k)
  {
    NextClaims(entries, claims, k);
    TakenNext(h, d, requests, deadline, entries, claims, k);
  }

  lemma {:induction false} TakenNext(
      h: Host, d: Dispatch, requests: seq<Request>, deadline: int, entries: seq<NativeClaim>, claims: seq<Claim>,
      k: nat)
    requires ClaimsTaken(h, d, requests, deadline, entries, claims) && k < |entries|
    ensures AddClaim(h, d, requests, deadline, Claims(claims[..k], AllEvents(entries[..k])), entries[k])
            == Some(Claims(claims[..k] + [claims[k]],
                           AllEvents(entries[..k]) + EventIds(Events(entries[k].heartbeats))))
  {
    ClaimsTakenAt(h, d, requests, deadline, entries, claims, k);
    AddsHolding(h, d, requests, deadline, Claims(claims[..k], AllEvents(entries[..k])), entries[k], claims[k]);
  }

  lemma {:induction false} ClaimsFold(
      h: Host, d: Dispatch, requests: seq<Request>, deadline: int, entries: seq<NativeClaim>, claims: seq<Claim>,
      n: nat)
    requires n <= |entries| == |claims|
    requires forall k :: 0 <= k < n ==> NextAdds(h, d, requests, deadline, entries, claims, k)
    ensures AddClaims(h, d, requests, deadline, entries[..n]) == Some(Claims(claims[..n], AllEvents(entries[..n])))
  {
    if n > 0 {
      ClaimsFold(h, d, requests, deadline, entries, claims, n - 1);
      assert NextAdds(h, d, requests, deadline, entries, claims, n - 1);
      assert entries[..n][..n - 1] == entries[..n - 1];
    }
  }

  lemma {:induction false} ClaimsTakenAccepted(
      h: Host, d: Dispatch, requests: seq<Request>, deadline: int, entries: seq<NativeClaim>, claims: seq<Claim>)
    requires ClaimsTaken(h, d, requests, deadline, entries, claims)
    ensures AddClaims(h, d, requests, deadline, entries) == Some(Claims(claims, AllEvents(entries)))
  {
    forall k | 0 <= k < |entries| ensures NextAdds(h, d, requests, deadline, entries, claims, k) {
      TakenAdds(h, d, requests, deadline, entries, claims, k);
    }
    ClaimsFold(h, d, requests, deadline, entries, claims, |entries|);
    assert entries[..|entries|] == entries && claims[..|entries|] == claims;
  }

  /**
   * Claims are read exactly when the effect deadline exists, each names its request and has a lease its heartbeats
   * kept alive, and no activity, key, event or heartbeat event is shared; then field by field.
   */
  lemma {:induction false} ClaimsExactly(
      h: Host, d: Dispatch, requests: seq<Request>, entries: seq<NativeClaim>, claims: seq<Claim>)
    ensures ReadClaims(h, d, requests, entries) == Some(claims) <==>
            && EffectDeadline(h, d).Some?
            && ClaimsTaken(h, d, requests, EffectDeadline(h, d).value, entries, claims)
  {
    if EffectDeadline(h, d).Some? {
      var deadline := EffectDeadline(h, d).value;
      if AddClaims(h, d, requests, deadline, entries).Some? {
        ClaimsTakenRead(h, d, requests, deadline, entries);
      }
      if ClaimsTaken(h, d, requests, deadline, entries, claims) {
        ClaimsTakenAccepted(h, d, requests, deadline, entries, claims);
      }
    }
  }

  // ------------------------------------------------------------ pending work

  /** The item names this claim, which has no result, and agrees with it on everything both carry. */
  ghost predicate WorkNamesClaim(w: Work, c: Claim) {
    && w.identity.activityClaimEventRef == c.claimEventRef
    && w.identity.activityClaimEventDigest == c.claimEventDigest && w.identity.leaseId == c.leaseId
    && w.identity.actionId == c.activityId && w.identity.idempotencyKey == c.idempotencyKey
    && w.identity.actionRequestEventRef == c.actionRequestRef
    && w.identity.actionRequestDigest == c.actionRequestDigest && w.purpose == c.purpose && c.result.None?
    && if w.state.WaitForActiveLease? then w.effectiveLeaseExpiresAt == Some(c.leaseExpiresAt) && w.reason.None?
       else && w.effectiveLeaseExpiresAt.None? && w.reason.Some?
            && w.reason.value in ["lease_expired", "unknown_terminal_state"]
  }

  ghost predicate WorkNamesRequest(requests: seq<Request>, w: Work, j: nat) {
    && LastByRef(requests, w.identity.actionRequestEventRef, j)
    && w.identity.actionId == requests[j].action.actionId
    && w.identity.idempotencyKey == requests[j].action.idempotencyKey
    && w.actionKind == requests[j].action.actionKind && w.identity.actionRequestDigest == requests[j].digest
  }

  ghost predicate WorkTaken(d: Dispatch, requests: seq<Request>, claims: seq<Claim>, w: Work) {
    && w.schemaVersion == 1
    && w.identity.runId == d.runId && w.identity.workflowId == d.workflowId
    && w.identity.workflowRevision == d.workflowRevision && w.identity.unitId == d.unitId
    && w.identity.attempt == d.attempt && w.identity.dispatchEventRef == d.dispatchEnvelopeRef
    && w.identity.dispatchEnvelopeDigest == d.envelopeDigest
    && (w.actionKind.Model? ==> w.purpose.GovernedModelAction?)
    && (exists j :: WorkNamesRequest(requests, w, j))
    && (exists c :: c in claims && WorkNamesClaim(w, c))
  }

  ghost predicate WorkApart(work: seq<Work>) {
    forall i, j :: 0 <= i < j < |work| ==>
      && work[i].identity.activityClaimEventRef != work[j].identity.activityClaimEventRef
      && work[i].identity.actionId != work[j].identity.actionId
  }

  lemma {:induction false} ClaimByRefIs(claims: seq<Claim>, c: Claim)
    requires c in claims && ClaimsDistinct(claims)
    ensures ClaimByRef(claims, c.claimEventRef) == Some(c)
  {
    var n := |claims| - 1;
    var i :| 0 <= i < |claims| && claims[i] == c;
    if i < n {
      assert claims[..n][i] == c && claims[i].claimEventRef != claims[n].claimEventRef;
      assert forall a :: 0 <= a < n ==> claims[..n][a] == claims[a];
      ClaimByRefIs(claims[..n], c);
    }
  }

  lemma {:induction false} WorkExactly(d: Dispatch, requests: seq<Request>, claims: seq<Claim>, w: Work)
    requires ClaimsDistinct(claims)
    ensures WorkBound(d, requests, claims, w) <==> WorkTaken(d, requests, claims, w)
  {
    if WorkBound(d, requests, claims, w) {
      var j := ByRefFound(requests, w.identity.actionRequestEventRef);
      assert WorkNamesRequest(requests, w, j);
      var m := ClaimByRefFinds(claims, w.identity.activityClaimEventRef);
      assert claims[m] in claims && WorkNamesClaim(w, claims[m]);
    }
    if WorkTaken(d, requests, claims, w) {
      var j :| WorkNamesRequest(requests, w, j);
      ByRefIs(requests, w.identity.actionRequestEventRef, j);
      var c :| c in claims && WorkNamesClaim(w, c);
      ClaimByRefIs(claims, c);
    }
  }

  lemma {:induction false} WorkApartSplit(work: seq<Work>)
    requires work != []
    ensures var n := |work| - 1;
            WorkApart(work) <==>
            && WorkApart(work[..n]) && work[n].identity.activityClaimEventRef !in WorkClaims(work[..n])
            && work[n].identity.actionId !in WorkActions(work[..n])
  {
    var n := |work| - 1;
    assert forall i :: 0 <= i < n ==> work[..n][i] == work[i] && work[i] in work[..n];
    forall w | w in work[..n] ensures exists i :: 0 <= i < n && work[i] == w {
      var i :| 0 <= i < n && work[..n][i] == w;
      assert work[i] == w;
    }
  }

  /**
   * Pending work is accepted exactly when every item is the dispatch's and agrees with its request and its open claim,
   * and no two items name one claim or one action.
   */
  lemma {:induction false} PendingWorkExactly(d: Dispatch, requests: seq<Request>, claims: seq<Claim>, work: seq<Work>)
    requires ClaimsDistinct(claims)
    ensures WorkAccepted(d, requests, claims, work) <==>
            WorkApart(work) && forall w :: w in work ==> WorkTaken(d, requests, claims, w)
  {
    if work != [] {
      var n := |work| - 1;
      PendingWorkExactly(d, requests, claims, work[..n]);
      WorkApartSplit(work);
      WorkExactly(d, requests, claims, work[n]);
      assert work == work[..n] + [work[n]];
    }
  }
}
