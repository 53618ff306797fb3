/**
 * Recovered requests, receipts, claims and pending work of one dispatch (apps/cli/src/ledger-governed-dispatch-
 * resolver.ts).
 */
module Recovery {
  import opened Seqs
  import opened Heartbeats

  // ------------------------------------------------------------------- data

  datatype Budget = Budget(maxTokens: Option<nat>, maxComputeTimeMs: Option<nat>)

  datatype Dispatch = Dispatch(
    schemaVersion: int,
    runId: string,
    workflowId: string,
    workflowRevision: string,
    unitId: string,
    attempt: int,
    provenanceRef: string,
    dispatchEnvelopeRef: string,
    envelopeDigest: string,
    baseCommitSha: string,
    executionRole: string,
    commitMode: string,
    trustTier: string,
    capabilityBundleDigest: string,
    acceptanceContractDigest: string,
    policyDigest: string,
    contextManifestDigest: string,
    workerManifestDigest: string,
    sandboxProfileDigest: string,
    repositoryBindingDigest: string,
    ledgerAuthorityRealmDigest: string,
    governedPacketDigest: string,
    idempotencyKey: string,
    authorityActor: string,
    actionEvidenceVersion: string,
    issuedAt: string,
    expiresAt: string,
    budget: Budget)

  datatype ActionKind = Filesystem | Process | Git | Model | Network | Secret | Mcp | A2a | ExternalService

  datatype Purpose = Generic | GovernedVerifier | GovernedModelAction

  datatype NativeRequest = NativeRequest(
    eventId: string,
    actionId: string,
    idempotencyKey: string,
    actionKind: ActionKind,
    canonicalInputDigest: string,
    canonicalInputRef: string,
    repositoryBindingDigest: string,
    ledgerAuthorityRealmDigest: string,
    governedPacketDigest: string,
    policyDigest: string,
    authorityActor: string,
    executionRole: string,
    requestedAt: string,
    actionRequestDigest: string)

  /** The canonical action request, whose digest the ledger signed; the dispatch supplies the rest of its fields. */
  datatype ActionRequest = ActionRequest(
    dispatch: Dispatch,
    actionId: string,
    idempotencyKey: string,
    actionKind: ActionKind,
    canonicalInputDigest: string,
    canonicalInputRef: string,
    requestedAt: string)

  datatype Request = Request(action: ActionRequest, ref: string, digest: string)

  datatype NativeReceipt = NativeReceipt(
    actionId: string,
    idempotencyKey: string,
    actionRequestDigest: string,
    outcome: string,
    resultDigest: Option<string>,
    resultRef: Option<string>,
    rest: string,
    actionReceiptDigest: string)

  datatype ActionReceipt = ActionReceipt(
    dispatch: Dispatch,
    actionId: string,
    idempotencyKey: string,
    actionRequestDigest: string,
    outcome: string,
    result: Option<(string, string)>,
    rest: string)

  datatype Receipt = Receipt(receipt: ActionReceipt, digest: string)

  datatype ResultOutcome = Succeeded | FailedResult | UnknownResult

  datatype NativeResult = NativeResult(
    eventId: string,
    eventDigest: string,
    runId: string,
    activityId: string,
    idempotencyKey: string,
    claimEventId: string,
    claimEventDigest: string,
    leaseId: string,
    outcome: ResultOutcome,
    resultDigest: Option<string>,
    resultRef: Option<string>)

  datatype ClaimResult = ClaimResult(eventRef: string, eventDigest: string, outcome: ResultOutcome)

  datatype NativeClaim = NativeClaim(
    eventId: string,
    claimEventDigest: string,
    runId: string,
    activityId: string,
    idempotencyKey: string,
    actionKind: ActionKind,
    actionRequestEventId: string,
    actionRequestDigest: string,
    dispatchEventId: string,
    dispatchEnvelopeDigest: string,
    authorityActor: string,
    purpose: Option<Purpose>,
    leaseId: string,
    leaseExpiresAt: string,
    claimedAt: string,
    heartbeats: Option<seq<NativeHeartbeat>>,
    result: Option<NativeResult>)

  datatype Claim = Claim(
    activityId: string,
    idempotencyKey: string,
    claimEventRef: string,
    claimEventDigest: string,
    actionRequestRef: string,
    actionRequestDigest: string,
    leaseId: string,
    leaseExpiresAt: string,
    purpose: Purpose,
    result: Option<ClaimResult>)

  datatype Identity = Identity(
    runId: string,
    workflowId: string,
    workflowRevision: string,
    unitId: string,
    attempt: int,
    dispatchEventRef: string,
    dispatchEnvelopeDigest: string,
    actionId: string,
    idempotencyKey: string,
    actionRequestEventRef: string,
    actionRequestDigest: string,
    activityClaimEventRef: string,
    activityClaimEventDigest: string,
    leaseId: string)

  datatype WorkState = WaitForActiveLease | ReconciliationRequired

  /** One item of pending work; it is shown as it was read. */
  datatype Work = Work(
    schemaVersion: int,
    identity: Identity,
    actionKind: ActionKind,
    purpose: Purpose,
    state: WorkState,
    effectiveLeaseExpiresAt: Option<string>,
    reason: Option<string>)

  /** Digests of canonical bodies, timestamps and the range of the native clock are the host's. */
  datatype Host = Host(
    requestDigest: ActionRequest -> string,
    receiptDigest: ActionReceipt -> string,
    clock: Clock,
    representable: int -> bool)

  // -------------------------------------------------------------- requests

  ghost function ActionIds(requests: seq<Request>): set<string> { set r | r in requests :: r.action.actionId }

  function ActionOf(d: Dispatch, e: NativeRequest): ActionRequest {
    ActionRequest(d, e.actionId, e.idempotencyKey, e.actionKind, e.canonicalInputDigest, e.canonicalInputRef,
                  e.requestedAt)
  }

  predicate RequestBound(h: Host, d: Dispatch, e: NativeRequest) {
    && e.policyDigest == d.policyDigest && e.repositoryBindingDigest == d.repositoryBindingDigest
    && e.ledgerAuthorityRealmDigest == d.ledgerAuthorityRealmDigest && e.governedPacketDigest == d.governedPacketDigest
    && e.authorityActor == d.authorityActor && e.executionRole == d.executionRole
    && h.requestDigest(ActionOf(d, e)) == e.actionRequestDigest
  }

  ghost function AddRequest(h: Host, d: Dispatch, before: seq<Request>, e: NativeRequest): Option<seq<Request>> {
    if e.actionId in ActionIds(before) || !RequestBound(h, d, e) then None
    else Some(before + [Request(ActionOf(d, e), e.eventId, e.actionRequestDigest)])
  }

  ghost function ReadRequests(h: Host, d: Dispatch, entries: seq<NativeRequest>): Option<seq<Request>> {
    if entries == [] then Some([])
    else
      var before :- ReadRequests(h, d, entries[..|entries| - 1]);
      AddRequest(h, d, before, entries[|entries| - 1])
  }

  lemma {:induction false} RequestsFail(h: Host, d: Dispatch, entries: seq<NativeRequest>, i: nat)
    requires i <= |entries| && ReadRequests(h, d, entries[..i]).None?
    ensures ReadRequests(h, d, entries).None?
  {
    if i < |entries| {
      assert entries[..|entries| - 1][..i] == entries[..i];
      RequestsFail(h, d, entries[..|entries| - 1], i);
    } else {
      assert entries[..i] == entries;
    }
  }

  /** parseNativeRequests. */
  method ParseNativeRequests(h: Host, d: Dispatch, entries: seq<NativeRequest>) returns (r: Option<seq<Request>>)
    ensures r == ReadRequests(h, d, entries)
  {
    var seen: set<string> := {};
    var requests: seq<Request> := [];
    for i := 0 to |entries|
      invariant ReadRequests(h, d, entries[..i]) == Some(requests) && seen == ActionIds(requests)
    {
      var e := entries[i];
      assert entries[..i + 1][..i] == entries[..i];
      if e.actionId in seen || !RequestBound(h, d, e) {
        RequestsFail(h, d, entries, i + 1);
        return None;
      }
      seen := seen + {e.actionId};
      requests := requests + [Request(ActionOf(d, e), e.eventId, e.actionRequestDigest)];
    }
    assert entries[..|entries|] == entries;
    return Some(requests);
  }

  /** `new Map(...)` keyed by ref or digest: a later request replaces an earlier one. */
  function ByRef(requests: seq<Request>, ref: string): Option<Request> {
    if requests == [] then None
    else if requests[|requests| - 1].ref == ref then Some(requests[|requests| - 1])
    else ByRef(requests[..|requests| - 1], ref)
  }

  function ByDigest(requests: seq<Request>, digest: string): Option<Request> {
    if requests == [] then None
    else if requests[|requests| - 1].digest == digest then Some(requests[|requests| - 1])
    else ByDigest(requests[..|requests| - 1], digest)
  }

  // -------------------------------------------------------------- receipts

  ghost function ReceiptIds(receipts: seq<Receipt>): set<string> { set r | r in receipts :: r.receipt.actionId }

  function ReceiptBody(d: Dispatch, e: NativeReceipt, request: Request): ActionReceipt {
    ActionReceipt(d, e.actionId, request.action.idempotencyKey, e.actionRequestDigest, e.outcome,
                  if e.resultDigest.Some? && e.resultRef.Some?
                  then Some((e.resultDigest.value, e.resultRef.value)) else None,
                  e.rest)
  }

  predicate ReceiptBound(h: Host, d: Dispatch, e: NativeReceipt, request: Request) {
    && e.actionId == request.action.actionId && e.idempotencyKey == request.action.idempotencyKey
    && (e.resultDigest.Some? <==> e.resultRef.Some?)
    && h.receiptDigest(ReceiptBody(d, e, request)) == e.actionReceiptDigest
  }

  ghost function AddReceipt(
      h: Host, d: Dispatch, requests: seq<Request>, before: seq<Receipt>, e: NativeReceipt): Option<seq<Receipt>>
  {
    var request :- ByDigest(requests, e.actionRequestDigest);
    if e.actionId in ReceiptIds(before) || !ReceiptBound(h, d, e, request) then None
    else Some(before + [Receipt(ReceiptBody(d, e, request), e.actionReceiptDigest)])
  }

  ghost function ReadReceipts(
      h: Host, d: Dispatch, requests: seq<Request>, entries: seq<NativeReceipt>): Option<seq<Receipt>>
  {
    if entries == [] then Some([])
    else
      var before :- ReadReceipts(h, d, requests, entries[..|entries| - 1]);
      AddReceipt(h, d, requests, before, entries[|entries| - 1])
  }

  lemma {:induction false} ReceiptsFail(
      h: Host, d: Dispatch, requests: seq<Request>, entries: seq<NativeReceipt>, i: nat)
    requires i <= |entries| && ReadReceipts(h, d, requests, entries[..i]).None?
    ensures ReadReceipts(h, d, requests, entries).None?
  {
    if i < |entries| {
      assert entries[..|entries| - 1][..i] == entries[..i];
      ReceiptsFail(h, d, requests, entries[..|entries| - 1], i);
    } else {
      assert entries[..i] == entries;
    }
  }

  /** parseNativeReceipts. */
  method ParseNativeReceipts(h: Host, d: Dispatch, requests: seq<Request>, entries: seq<NativeReceipt>)
    returns (r: Option<seq<Receipt>>)
    ensures r == ReadReceipts(h, d, requests, entries)
  {
    var seen: set<string> := {};
    var receipts: seq<Receipt> := [];
    for i := 0 to |entries|
      invariant ReadReceipts(h, d, requests, entries[..i]) == Some(receipts) && seen == ReceiptIds(receipts)
    {
      var e := entries[i];
      assert entries[..i + 1][..i] == entries[..i];
      var request := ByDigest(requests, e.actionRequestDigest);
      if request.None? || e.actionId in seen || !ReceiptBound(h, d, e, request.value) {
        ReceiptsFail(h, d, requests, entries, i + 1);
        return None;
      }
      seen := seen + {e.actionId};
      receipts := receipts + [Receipt(ReceiptBody(d, e, request.value), e.actionReceiptDigest)];
    }
    assert entries[..|entries|] == entries;
    return Some(receipts);
  }

  // ---------------------------------------------------------------- claims

  /** The earlier of the dispatch's expiry and its issue time plus its compute budget. */
  function EffectDeadline(h: Host, d: Dispatch): Option<int> {
    var expires :- h.clock(d.expiresAt);
    if d.budget.maxComputeTimeMs.None? then Some(expires)
    else
      var issued :- h.clock(d.issuedAt);
      var compute := issued + d.budget.maxComputeTimeMs.value * 1000000;
      if !h.representable(compute) then None else Some(if compute < expires then compute else expires)
  }

  datatype Claims = Claims(claims: seq<Claim>, heartbeatRefs: set<string>)

  ghost function ActivityIds(claims: seq<Claim>): set<string> { set c | c in claims :: c.activityId }
  ghost function ClaimKeys(claims: seq<Claim>): set<string> { set c | c in claims :: c.idempotencyKey }
  ghost function ClaimRefs(claims: seq<Claim>): set<string> { set c | c in claims :: c.claimEventRef }

  predicate PurposeFits(purpose: Purpose, kind: ActionKind) { kind.Model? ==> purpose.GovernedModelAction? }

  function PurposeOf(e: NativeClaim): Purpose { if e.purpose.None? then Generic else e.purpose.value }

  predicate ClaimBound(d: Dispatch, e: NativeClaim, request: Request) {
    && PurposeFits(PurposeOf(e), e.actionKind)
    && e.runId == d.runId && e.activityId == request.action.actionId
    && e.idempotencyKey == request.action.idempotencyKey && e.actionKind == request.action.actionKind
    && e.actionRequestDigest == request.digest && e.dispatchEventId == d.dispatchEnvelopeRef
    && e.dispatchEnvelopeDigest == d.envelopeDigest && e.authorityActor == d.authorityActor
  }

  function LineageOf(d: Dispatch, e: NativeClaim, claimedAt: int, leaseExpiresAt: int, deadline: int): Lineage {
    Lineage(e.eventId, e.claimEventDigest, d.runId, e.activityId, e.idempotencyKey, e.leaseId,
            d.dispatchEnvelopeRef, d.envelopeDigest, claimedAt, leaseExpiresAt, deadline)
  }

  predicate ResultBound(d: Dispatch, e: NativeClaim, r: NativeResult) {
    && (r.resultDigest.Some? <==> r.resultRef.Some?)
    && (r.outcome.Succeeded? ==> r.resultDigest.Some?) && (r.outcome.UnknownResult? ==> r.resultDigest.None?)
    && r.runId == d.runId && r.activityId == e.activityId && r.idempotencyKey == e.idempotencyKey
    && r.claimEventId == e.eventId && r.claimEventDigest == e.claimEventDigest && r.leaseId == e.leaseId
  }

  function ClaimOf(e: NativeClaim, request: Request): Claim {
    Claim(e.activityId, e.idempotencyKey, e.eventId, e.claimEventDigest, e.actionRequestEventId, request.digest,
          e.leaseId, e.leaseExpiresAt, PurposeOf(e),
          if e.result.None? then None
          else Some(ClaimResult(e.result.value.eventId, e.result.value.eventDigest, e.result.value.outcome)))
  }

  ghost predicate ClaimFresh(before: seq<Claim>, e: NativeClaim) {
    e.activityId !in ActivityIds(before) && e.idempotencyKey !in ClaimKeys(before) && e.eventId !in ClaimRefs(before)
  }

  /** The heartbeat history a claim carries. */
  function ClaimHistory(h: Host, d: Dispatch, deadline: int, e: NativeClaim, seen: set<string>): Option<History> {
    var claimedAt :- h.clock(e.claimedAt);
    var leaseExpiresAt :- h.clock(e.leaseExpiresAt);
    ReadHistory(h.clock, LineageOf(d, e, claimedAt, leaseExpiresAt, deadline), e.heartbeats, seen)
  }

  ghost function AddClaim(
      h: Host, d: Dispatch, requests: seq<Request>, deadline: int, before: Claims, e: NativeClaim): Option<Claims>
  {
    var request :- ByRef(requests, e.actionRequestEventId);
    if !ClaimFresh(before.claims, e) || !ClaimBound(d, e, request) then None
    else
      var history :- ClaimHistory(h, d, deadline, e, before.heartbeatRefs);
      if e.result.Some? && !ResultBound(d, e, e.result.value) then None
      else Some(Claims(before.claims + [ClaimOf(e, request)], history.seen))
  }

  ghost function AddClaims(
      h: Host, d: Dispatch, requests: seq<Request>, deadline: int, entries: seq<NativeClaim>): Option<Claims>
  {
    if entries == [] then Some(Claims([], {}))
    else
      var before :- AddClaims(h, d, requests, deadline, entries[..|entries| - 1]);
      AddClaim(h, d, requests, deadline, before, entries[|entries| - 1])
  }

  ghost function ReadClaims(
      h: Host, d: Dispatch, requests: seq<Request>, entries: seq<NativeClaim>): Option<seq<Claim>>
  {
    var deadline :- EffectDeadline(h, d);
    var r :- AddClaims(h, d, requests, deadline, entries);
    Some(r.claims)
  }

  lemma {:induction false} ClaimsFail(
      h: Host, d: Dispatch, requests: seq<Request>, deadline: int, entries: seq<NativeClaim>, i: nat)
    requires i <= |entries| && AddClaims(h, d, requests, deadline, entries[..i]).None?
    ensures AddClaims(h, d, requests, deadline, entries).None?
  {
    if i < |entries| {
      assert entries[..|entries| - 1][..i] == entries[..i];
      ClaimsFail(h, d, requests, deadline, entries[..|entries| - 1], i);
    } else {
      assert entries[..i] == entries;
    }
  }

  method ParseClaim(h: Host, d: Dispatch, request: Request, deadline: int, e: NativeClaim, seen: set<string>)
    returns (ok: bool, seen': set<string>)
    ensures var history := ClaimHistory(h, d, deadline, e, seen);
            && (ok <==>
                  && ClaimBound(d, e, request) && history.Some?
                  && (e.result.Some? ==> ResultBound(d, e, e.result.value)))
            && (ok ==> seen' == history.value.seen)
  {
    seen' := seen;
    if !ClaimBound(d, e, request) {
      return false, seen';
    }
    var claimedAt := h.clock(e.claimedAt);
    var leaseExpiresAt := h.clock(e.leaseExpiresAt);
    if claimedAt.None? || leaseExpiresAt.None? {
      return false, seen';
    }
    ok, seen' := ParseNativeActivityClaimHeartbeats(
      h.clock, e.heartbeats, LineageOf(d, e, claimedAt.value, leaseExpiresAt.value, deadline), seen);
    if ok && e.result.Some? && !ResultBound(d, e, e.result.value) {
      ok := false;
    }
  }

  /** parseNativeActivityClaims. */
  method ParseNativeActivityClaims(h: Host, d: Dispatch, requests: seq<Request>, entries: seq<NativeClaim>)
    returns (r: Option<seq<Claim>>)
    ensures r == ReadClaims(h, d, requests, entries)
  {
    var deadline := EffectDeadline(h, d);
    if deadline.None? {
      return None;
    }
    var claims: seq<Claim> := [];
    var activityIds: set<string>, keys: set<string>, refs: set<string> := {}, {}, {};
    var heartbeatRefs: set<string> := {};
    for i := 0 to |entries|
      invariant AddClaims(h, d, requests, deadline.value, entries[..i]) == Some(Claims(claims, heartbeatRefs))
      invariant activityIds == ActivityIds(claims) && keys == ClaimKeys(claims) && refs == ClaimRefs(claims)
    {
      var e := entries[i];
      assert entries[..i + 1][..i] == entries[..i];
      var request := ByRef(requests, e.actionRequestEventId);
      if request.None? || e.activityId in activityIds || e.idempotencyKey in keys || e.eventId in refs {
        ClaimsFail(h, d, requests, deadline.value, entries, i + 1);
        return None;
      }
      var ok, seen := ParseClaim(h, d, request.value, deadline.value, e, heartbeatRefs);
      if !ok {
        ClaimsFail(h, d, requests, deadline.value, entries, i + 1);
        return None;
      }
      ClaimSetsGrow(claims, ClaimOf(e, request.value));
      activityIds, keys, refs := activityIds + {e.activityId}, keys + {e.idempotencyKey}, refs + {e.eventId};
      claims, heartbeatRefs := claims + [ClaimOf(e, request.value)], seen;
    }
    assert entries[..|entries|] == entries;
    return Some(claims);
  }

  lemma {:induction false} ClaimSetsGrow(claims: seq<Claim>, c: Claim)
    ensures ActivityIds(claims + [c]) == ActivityIds(claims) + {c.activityId}
    ensures ClaimKeys(claims + [c]) == ClaimKeys(claims) + {c.idempotencyKey}
    ensures ClaimRefs(claims + [c]) == ClaimRefs(claims) + {c.claimEventRef}
  {
    assert c in claims + [c];
  }

  function ClaimByRef(claims: seq<Claim>, ref: string): Option<Claim> {
    if claims == [] then None
    else if claims[|claims| - 1].claimEventRef == ref then Some(claims[|claims| - 1])
    else ClaimByRef(claims[..|claims| - 1], ref)
  }

  // ---------------------------------------------------------- pending work

  ghost function WorkClaims(work: seq<Work>): set<string> { set w | w in work :: w.identity.activityClaimEventRef }
  ghost function WorkActions(work: seq<Work>): set<string> { set w | w in work :: w.identity.actionId }

  predicate OfDispatch(d: Dispatch, i: Identity) {
    && i.runId == d.runId && i.workflowId == d.workflowId && i.workflowRevision == d.workflowRevision
    && i.unitId == d.unitId && i.attempt == d.attempt && i.dispatchEventRef == d.dispatchEnvelopeRef
    && i.dispatchEnvelopeDigest == d.envelopeDigest
  }

  predicate WorkBindsRequest(w: Work, request: Request) {
    && request.action.actionId == w.identity.actionId && request.action.idempotencyKey == w.identity.idempotencyKey
    && request.action.actionKind == w.actionKind && request.digest == w.identity.actionRequestDigest
  }

  predicate WorkBindsClaim(w: Work, c: Claim) {
    && c.activityId == w.identity.actionId && c.idempotencyKey == w.identity.idempotencyKey
    && c.claimEventDigest == w.identity.activityClaimEventDigest
    && c.actionRequestRef == w.identity.actionRequestEventRef
    && c.actionRequestDigest == w.identity.actionRequestDigest && c.leaseId == w.identity.leaseId
    && c.purpose == w.purpose && c.result.None?
  }

  predicate WorkStateHolds(w: Work, c: Claim) {
    match w.state
    case WaitForActiveLease => w.effectiveLeaseExpiresAt == Some(c.leaseExpiresAt) && w.reason.None?
    case ReconciliationRequired =>
      && w.effectiveLeaseExpiresAt.None?
      && (w.reason == Some("lease_expired") || w.reason == Some("unknown_terminal_state"))
  }

  predicate WorkBound(d: Dispatch, requests: seq<Request>, claims: seq<Claim>, w: Work) {
    var request := ByRef(requests, w.identity.actionRequestEventRef);
    var claim := ClaimByRef(claims, w.identity.activityClaimEventRef);
    && w.schemaVersion == 1 && OfDispatch(d, w.identity) && PurposeFits(w.purpose, w.actionKind)
    && request.Some? && WorkBindsRequest(w, request.value)
    && claim.Some? && WorkBindsClaim(w, claim.value) && WorkStateHolds(w, claim.value)
  }

  /** Every item binds its request and its claim, and no item names an action or claim named before. */
  ghost predicate WorkAccepted(d: Dispatch, requests: seq<Request>, claims: seq<Claim>, work: seq<Work>) {
    work != [] ==>
      var n := |work| - 1;
      && WorkAccepted(d, requests, claims, work[..n])
      && work[n].identity.activityClaimEventRef !in WorkClaims(work[..n])
      && work[n].identity.actionId !in WorkActions(work[..n])
      && WorkBound(d, requests, claims, work[n])
  }

  lemma {:induction false} WorkFails(d: Dispatch, requests: seq<Request>, claims: seq<Claim>, work: seq<Work>, i: nat)
    requires i <= |work| && !WorkAccepted(d, requests, claims, work[..i])
    ensures !WorkAccepted(d, requests, claims, work)
  {
    if i < |work| {
      assert work[..|work| - 1][..i] == work[..i];
      WorkFails(d, requests, claims, work[..|work| - 1], i);
    } else {
      assert work[..i] == work;
    }
  }

  lemma {:induction false} WorkStep(d: Dispatch, requests: seq<Request>, claims: seq<Claim>, work: seq<Work>, i: nat)
    requires i < |work| && WorkAccepted(d, requests, claims, work[..i])
    ensures WorkAccepted(d, requests, claims, work[..i + 1]) <==>
            && work[i].identity.activityClaimEventRef !in WorkClaims(work[..i])
            && work[i].identity.actionId !in WorkActions(work[..i]) && WorkBound(d, requests, claims, work[i])
    ensures WorkClaims(work[..i + 1]) == WorkClaims(work[..i]) + {work[i].identity.activityClaimEventRef}
    ensures WorkActions(work[..i + 1]) == WorkActions(work[..i]) + {work[i].identity.actionId}
  {
    assert work[..i + 1][..i] == work[..i];
    assert work[..i + 1] == work[..i] + [work[i]];
  }

  /** parseNativePendingActivityRecoveryWork. */
  method ParseNativePendingActivityRecoveryWork(
      d: Dispatch, requests: seq<Request>, claims: seq<Claim>, work: seq<Work>)
    returns (ok: bool)
    ensures ok <==> WorkAccepted(d, requests, claims, work)
  {
    var seenClaimRefs: set<string>, seenActionIds: set<string> := {}, {};
    for i := 0 to |work|
      invariant WorkAccepted(d, requests, claims, work[..i])
      invariant seenClaimRefs == WorkClaims(work[..i]) && seenActionIds == WorkActions(work[..i])
    {
      var w := work[i];
      WorkStep(d, requests, claims, work, i);
      if w.identity.activityClaimEventRef in seenClaimRefs || w.identity.actionId in seenActionIds
         || !WorkBound(d, requests, claims, w) {
        WorkFails(d, requests, claims, work, i + 1);
        return false;
      }
      seenClaimRefs := seenClaimRefs + {w.identity.activityClaimEventRef};
      seenActionIds := seenActionIds + {w.identity.actionId};
    }
    assert work[..|work|] == work;
    return true;
  }
}
